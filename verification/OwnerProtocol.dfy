/** How threads contend for the transaction, in single steps on shared memory: beginning reads the owner,
    exchanges it if it is still zero, and resets the transaction; the other calls compare the owner with
    the caller and then work on the transaction, one small step after the other; ending writes zero, and
    only then reads the error to answer with. The steps of all threads interleave freely. Every such run
    does to the transaction what a run of whole calls does, and answers alike, but for a commit whose
    answer is read when another transaction has begun. */
module OwnerProtocol {
  import opened TransactionModel
  import opened TransactionSafety

  // ------------------------------------------------------------------ calls in steps

  /** The small steps of a call on the transaction, while the caller owns it. */
  datatype Program = Program(length: Call -> nat, micro: (Call, nat, State) -> State)

  function Iterate(p: Program, c: Call, s: State, k: nat): State {
    if k == 0 then s else p.micro(c, k - 1, Iterate(p, c, s, k - 1))
  }

  /** A state in which the owner can work on `c`. */
  predicate CanWork(s: State, c: Call) {
    Consistent(s) && Allowed(s, c) && s.owner == c.thread && (c.Begin? ==> s.operations == [])
  }

  /** What the steps come to: the effect of the call, but for the owner that is cleared at the end. */
  function Worked(s: State, c: Call): State
    requires CanWork(s, c)
  {
    if c.Begin? then DoBegin(s.(owner := 0), c.thread, c.protect).0 else Next(s, c).(owner := c.thread)
  }

  /** Undisturbed, the steps of every call come to its effect, and none of them touches the owner. */
  ghost predicate Sound(p: Program) {
    && (forall s: State, c: Call :: CanWork(s, c) ==> Iterate(p, c, s, p.length(c)) == Worked(s, c))
    && (forall s: State, c: Call, k: nat :: p.micro(c, k, s).owner == s.owner)
  }

  // ------------------------------------------------------------------ threads

  /** Where a thread is: outside of any call, past the first check of `Begin`, at work in its transaction, or
      past the end of the transaction, still to read its answer; `begun` is how many transactions had begun,
      and the call is number `at` of those that have taken effect. */
  datatype Place = Outside | Checked(call: Call) | Working(call: Call, start: State, done: nat) | Leaving(call: Call, begun: nat, at: nat)

  /** `calls` are those that have taken effect, in order, and `answers` what whole calls would answer. */
  datatype World = World(state: State, places: map<nat, Place>, begun: nat, calls: seq<Call>, answers: seq<nat>)

  datatype Move = Enter(call: Call) | Exchange(thread: nat) | Work(thread: nat) | Finish(thread: nat) | Leave(thread: nat)

  function ThreadOf(m: Move): nat { if m.Enter? then m.call.thread else m.thread }

  function PlaceOf(w: World, thread: nat): Place { if thread in w.places then w.places[thread] else Outside }

  function Go(w: World, thread: nat, place: Place): World { w.(places := w.places[thread := place]) }

  function Took(w: World, c: Call, answer: nat): World { w.(calls := w.calls + [c], answers := w.answers + [answer]) }

  function Promise(s: State, c: Call): nat { if Consistent(s) then Answer(s, c) else 0 }

  /** A thread can take only the step that its place in the code allows; what is asked of callers, and
      promised by allocator and memory, holds when a call gets to the transaction. */
  predicate Can(p: Program, w: World, m: Move) {
    var place := PlaceOf(w, ThreadOf(m));
    match m
    case Enter(c) => place == Outside && c.thread != 0 && Allowed(w.state, c)
    case Exchange(_) => place.Checked?
    case Work(_) => place.Working? && place.done < p.length(place.call)
    case Finish(_) => place.Working? && place.done == p.length(place.call)
    case Leave(_) => place.Leaving?
  }

  /** The first read of the owner. */
  function DoEnter(w: World, c: Call): World {
    if c.Attach? && c.detour == 0 then Took(w, c, ERROR_INVALID_PARAMETER)
    else if c.Begin? && w.state.owner == 0 then Go(w, c.thread, Checked(c))
    else if !c.Begin? && w.state.owner == c.thread then Go(w, c.thread, Working(c, w.state, 0))
    else Took(w, c, ERROR_INVALID_OPERATION)
  }

  function DoExchange(w: World, thread: nat, c: Call): World
    requires c.Begin?
  {
    if w.state.owner != 0 then Took(Go(w, thread, Outside), c, ERROR_INVALID_OPERATION)
    else
      var start := w.state.(owner := thread);
      Took(Go(w.(state := start, begun := w.begun + 1), thread, Working(c, start, 0)), c, c.protect)
  }

  /** A call that ends the transaction clears the owner. */
  function DoFinish(w: World, thread: nat, c: Call, start: State): World {
    match c
    case Begin(_, _) => Go(w, thread, Outside)
    case Attach(_, _, _, _) => Took(Go(w, thread, Outside), c, Promise(start, c))
    case Detach(_, _, _, _) => Took(Go(w, thread, Outside), c, Promise(start, c))
    case _ => Took(Go(w.(state := w.state.(owner := 0)), thread, Leaving(c, w.begun, |w.calls|)), c, Promise(start, c))
  }

  function Step(p: Program, w: World, m: Move): World
    requires Can(p, w, m) && Shaped(w)
  {
    var place := PlaceOf(w, ThreadOf(m));
    match m
    case Enter(c) => DoEnter(w, c)
    case Exchange(t) => DoExchange(w, t, place.call)
    case Work(t) => Go(w.(state := p.micro(place.call, place.done, w.state)), t, place.(done := place.done + 1))
    case Finish(t) => DoFinish(w, t, place.call, place.start)
    case Leave(t) => Go(w, t, Outside)
  }

  /** What a thread that is leaving gets: committing reads the error of the transaction, whichever it is now. */
  function Returned(w: World, thread: nat): nat
    requires PlaceOf(w, thread).Leaving?
  {
    if PlaceOf(w, thread).call.Commit? then w.state.error else NO_ERROR
  }

  predicate Shaped(w: World) { forall t :: t in w.places && w.places[t].Checked? ==> w.places[t].call.Begin? }

  lemma StepShaped(p: Program, w: World, m: Move)
    requires Shaped(w) && Can(p, w, m)
    ensures Shaped(Step(p, w, m))
  {
    hide Allowed, Consistent;
  }

  // ------------------------------------------------------------------ whole calls

  function AnswersOf(s: State, calls: seq<Call>): seq<nat>
    requires Consistent(s) && Runs(s, calls)
    decreases |calls|
  {
    if calls == [] then []
    else
      NextKeeps(s, calls[0]);
      [Answer(s, calls[0])] + AnswersOf(Next(s, calls[0]), calls[1..])
  }

  lemma {:induction false} OneMore(s: State, calls: seq<Call>, c: Call)
    requires Consistent(s) && Runs(s, calls) && Allowed(After(s, calls), c)
    ensures Runs(s, calls + [c]) && After(s, calls + [c]) == Next(After(s, calls), c)
    ensures AnswersOf(s, calls + [c]) == AnswersOf(s, calls) + [Answer(After(s, calls), c)]
    decreases |calls|
  {
    hide Consistent, Allowed, Next, Answer;
    if calls == [] {
      NextKeeps(s, c);
      assert [] + [c] == [c] && [c][1..] == [];
    } else {
      NextKeeps(s, calls[0]);
      OneMore(Next(s, calls[0]), calls[1..], c);
      assert (calls + [c])[1..] == calls[1..] + [c];
    }
  }

  /** The state of the transaction as whole calls know it: one at work has not yet happened, unless it began
      the transaction. */
  function Model(w: World): State {
    match PlaceOf(w, w.state.owner)
    case Working(c, start, _) => if CanWork(start, c) && c.Begin? then Worked(start, c) else start
    case _ => w.state
  }

  // ------------------------------------------------------------------ every step keeps the correspondence

  ghost predicate ThreadInv(p: Program, w: World, t: nat, place: Place) {
    match place
    case Outside => true
    case Checked(c) => c.Begin? && c.thread == t
    case Working(c, start, k) =>
      && CanWork(start, c) && c.thread == t == w.state.owner && k <= p.length(c) && w.state == Iterate(p, c, start, k)
    case Leaving(c, begun, at) =>
      && begun <= w.begun && at < |w.calls| == |w.answers| && w.calls[at] == c
      && (begun == w.begun ==> w.state.owner == 0)
      && (if c.Commit? then begun == w.begun ==> w.answers[at] == w.state.error else w.answers[at] == NO_ERROR)
  }

  ghost predicate Inv(p: Program, s: State, w: World) {
    && Shaped(w)
    && (forall t :: t in w.places ==> t != 0 && ThreadInv(p, w, t, w.places[t]))
    && Consistent(s) && Runs(s, w.calls) && After(s, w.calls) == Model(w) && w.answers == AnswersOf(s, w.calls)
    && |w.answers| == |w.calls|
  }

  /** A call that takes effect without changing anything. */
  lemma TookNothing(p: Program, s: State, w: World, c: Call, answer: nat)
    requires Inv(p, s, w) && Allowed(Model(w), c) && Next(Model(w), c) == Model(w) && Answer(Model(w), c) == answer
    ensures Inv(p, s, Took(w, c, answer))
  {
    OneMore(s, w.calls, c);
    hide Consistent, Allowed, Next, Answer, Iterate, CanWork, Worked, After, Runs, AnswersOf;
    var v := Took(w, c, answer);
    forall t | t in v.places ensures t != 0 && ThreadInv(p, v, t, v.places[t]) {
      assert ThreadInv(p, w, t, w.places[t]);
    }
  }

  lemma ModelOwner(p: Program, s: State, w: World)
    requires Inv(p, s, w) && Sound(p)
    ensures Model(w).owner == w.state.owner && Consistent(Model(w))
    ensures !PlaceOf(w, w.state.owner).Working? ==> Model(w) == w.state
  {
    hide Consistent, Allowed, Iterate, Next, Runs, After, AnswersOf;
    assert Consistent(After(s, w.calls));
    if PlaceOf(w, w.state.owner).Working? {
      assert ThreadInv(p, w, w.state.owner, w.places[w.state.owner]);
    }
  }

  /** Another place for a thread that is not at work, nor to be. */
  lemma Moved(p: Program, s: State, w: World, t: nat, place: Place)
    requires Inv(p, s, w) && t != 0 && !PlaceOf(w, t).Working? && !place.Working? && ThreadInv(p, w, t, place)
    ensures Inv(p, s, Go(w, t, place))
  {
    hide Consistent, Allowed, Iterate, Next, Runs, After, AnswersOf, CanWork, Worked;
    var v := Go(w, t, place);
    forall u | u in v.places ensures u != 0 && ThreadInv(p, v, u, v.places[u]) {
      if u != t {
        assert ThreadInv(p, w, u, w.places[u]);
      }
    }
  }

  lemma RefusedNothing(s: State, c: Call)
    requires Consistent(s) && c.thread != 0 && if c.Begin? then s.owner != 0 else c.thread != s.owner
    ensures Allowed(s, c) && Next(s, c) == s
    ensures Answer(s, c) == if c.Attach? && c.detour == 0 then ERROR_INVALID_PARAMETER else ERROR_INVALID_OPERATION
  {
    hide Consistent, Mapped, Reachable, Faithful;
    NonOwnerKeeps(s, c);
  }

  lemma NoDetourNothing(s: State, c: Call)
    requires Consistent(s) && c.Attach? && c.detour == 0
    ensures Next(s, c) == s && Answer(s, c) == ERROR_INVALID_PARAMETER
  {
    ConsistentReady(s);
    hide Consistent;
  }

  lemma EnterKeeps(p: Program, s: State, w: World, c: Call)
    requires Sound(p) && Inv(p, s, w) && Can(p, w, Enter(c))
    ensures Inv(p, s, DoEnter(w, c))
  {
    hide Consistent, Allowed, Iterate, Next, Answer, Runs, After, AnswersOf, Sound, Inv, Model;
    ModelOwner(p, s, w);
    if c.Attach? && c.detour == 0 {
      NoDetourNothing(Model(w), c);
      if c.thread != w.state.owner {
        RefusedNothing(Model(w), c);
      }
      TookNothing(p, s, w, c, ERROR_INVALID_PARAMETER);
    } else if c.Begin? && w.state.owner == 0 {
      Moved(p, s, w, c.thread, Checked(c));
    } else if !c.Begin? && w.state.owner == c.thread {
      WorkBegins(p, s, w, c);
    } else {
      RefusedNothing(Model(w), c);
      TookNothing(p, s, w, c, ERROR_INVALID_OPERATION);
    }
  }

  lemma WorkBegins(p: Program, s: State, w: World, c: Call)
    requires Inv(p, s, w) && Can(p, w, Enter(c)) && !c.Begin? && w.state.owner == c.thread && Model(w) == w.state && Consistent(w.state)
    ensures Inv(p, s, Go(w, c.thread, Working(c, w.state, 0)))
  {
    hide Consistent, Allowed, Next, Runs, After, AnswersOf;
    var v := Go(w, c.thread, Working(c, w.state, 0));
    forall u | u in v.places ensures u != 0 && ThreadInv(p, v, u, v.places[u]) {
      if u != c.thread {
        assert ThreadInv(p, w, u, w.places[u]);
      }
    }
  }

  /** While a thread is at work or waits to exchange, the others are not at work. */
  lemma OneAtWork(p: Program, s: State, w: World, t: nat, u: nat)
    requires Inv(p, s, w) && PlaceOf(w, t).Working? && PlaceOf(w, u).Working?
    ensures t == u == w.state.owner
  {
    assert ThreadInv(p, w, t, w.places[t]) && ThreadInv(p, w, u, w.places[u]);
  }

  lemma BeginWorks(s: State, c: Call)
    requires Consistent(s) && s.owner == 0 && c.Begin? && c.thread != 0
    ensures var start := s.(owner := c.thread);
            CanWork(start, c) && Worked(start, c) == Next(s, c) && Answer(s, c) == c.protect && Allowed(s, c)
  {
    assert s.(owner := c.thread).(owner := 0) == s;
    hide Faithful, InPlace, Ready;
  }

  lemma ExchangeKeeps(p: Program, s: State, w: World, t: nat)
    requires Sound(p) && Inv(p, s, w) && PlaceOf(w, t).Checked?
    ensures PlaceOf(w, t).call.Begin? && Inv(p, s, DoExchange(w, t, PlaceOf(w, t).call))
  {
    var c := PlaceOf(w, t).call;
    assert ThreadInv(p, w, t, w.places[t]);
    ModelOwner(p, s, w);
    if w.state.owner != 0 {
      var v := Go(w, t, Outside);
      Moved(p, s, w, t, Outside);
      hide Consistent, Allowed, Iterate, Next, Answer, Runs, After, AnswersOf, Sound, Inv, CanWork, Worked;
      assert Model(v) == Model(w);
      RefusedNothing(Model(v), c);
      TookNothing(p, s, v, c, ERROR_INVALID_OPERATION);
    } else {
      NoneAtWork(p, s, w);
      BeginWorks(w.state, c);
      OneMore(s, w.calls, c);
      hide Consistent, Allowed, Next, Answer, Runs, After, AnswersOf, Sound, CanWork, Worked;
      var v := DoExchange(w, t, c);
      forall u | u in v.places ensures u != 0 && ThreadInv(p, v, u, v.places[u]) {
        if u != t {
          assert ThreadInv(p, w, u, w.places[u]);
        }
      }
    }
  }

  lemma NoneAtWork(p: Program, s: State, w: World)
    requires Inv(p, s, w) && w.state.owner == 0
    ensures Model(w) == w.state && forall t :: t in w.places ==> !w.places[t].Working?
  {
    hide Consistent, Allowed, Iterate, Next, Runs, After, AnswersOf, CanWork, Worked;
    forall t | t in w.places ensures !w.places[t].Working? {
      assert ThreadInv(p, w, t, w.places[t]);
    }
  }

  lemma WorkKeeps(p: Program, s: State, w: World, t: nat)
    requires Sound(p) && Inv(p, s, w) && Can(p, w, Work(t))
    ensures Inv(p, s, Step(p, w, Work(t)))
  {
    hide Consistent, Allowed, Next, Runs, After, AnswersOf, CanWork, Worked;
    var place, v := PlaceOf(w, t), Step(p, w, Work(t));
    assert ThreadInv(p, w, t, w.places[t]);
    assert v.state.owner == w.state.owner;
    forall u | u in v.places ensures u != 0 && ThreadInv(p, v, u, v.places[u]) {
      if u != t {
        assert ThreadInv(p, w, u, w.places[u]);
        if w.places[u].Working? {
          OneAtWork(p, s, w, t, u);
        }
      }
    }
  }

  /** What the work has come to when the call is finished. */
  lemma WorkedIs(s: State, c: Call)
    requires CanWork(s, c)
    ensures c.Attach? || c.Detach? ==> Worked(s, c) == Next(s, c)
    ensures c.Abort? || c.Commit? ==> Worked(s, c).(owner := 0) == Next(s, c) && Next(s, c).owner == 0
    ensures c.Commit? ==> Answer(s, c) == Worked(s, c).error
    ensures c.Abort? ==> Answer(s, c) == NO_ERROR
  {
    ConsistentReady(s);
    hide Faithful, InPlace, Ready, Reachable, Mapped;
  }

  lemma FinishKeeps(p: Program, s: State, w: World, t: nat)
    requires Sound(p) && Inv(p, s, w) && Can(p, w, Finish(t))
    ensures Inv(p, s, Step(p, w, Finish(t)))
  {
    var c, start := PlaceOf(w, t).call, PlaceOf(w, t).start;
    assert ThreadInv(p, w, t, w.places[t]);
    assert w.state == Worked(start, c);
    WorkedIs(start, c);
    hide Consistent, Allowed, Iterate, Next, Answer, CanWork, Worked, Sound, Inv, ThreadInv;
    if c.Begin? {
      Finished(p, s, w, t, Go(w, t, Outside));
    } else if c.Attach? || c.Detach? {
      Ended(p, s, w, t, start, c);
      Finished(p, s, w, t, Took(Go(w, t, Outside), c, Answer(start, c)));
    } else {
      Ended(p, s, w, t, start, c);
      Finished(p, s, w, t, Took(Go(w.(state := w.state.(owner := 0)), t, Leaving(c, w.begun, |w.calls|)), c, Answer(start, c)));
    }
  }

  /** The call takes effect when it is finished. */
  lemma Ended(p: Program, s: State, w: World, t: nat, start: State, c: Call)
    requires Inv(p, s, w) && PlaceOf(w, t).Working? && PlaceOf(w, t).call == c && PlaceOf(w, t).start == start && !c.Begin?
    ensures CanWork(start, c) && Runs(s, w.calls + [c]) && After(s, w.calls + [c]) == Next(start, c)
    ensures w.answers + [Answer(start, c)] == AnswersOf(s, w.calls + [c])
  {
    assert ThreadInv(p, w, t, w.places[t]);
    hide Iterate, Runs, After, AnswersOf, Next, Answer, Consistent, Allowed;
    OneMore(s, w.calls, c);
  }

  /** The thread that worked is done; the others are where they were. */
  lemma Finished(p: Program, s: State, w: World, t: nat, v: World)
    requires Inv(p, s, w) && PlaceOf(w, t).Working? && t in v.places && v.places == w.places[t := v.places[t]]
    requires v.begun == w.begun && w.calls <= v.calls && w.answers <= v.answers && |v.calls| == |v.answers|
    requires v.state == w.state || (v.state.error == w.state.error && v.state.owner == 0)
    requires !v.places[t].Working? && !v.places[t].Checked? && ThreadInv(p, v, t, v.places[t])
    requires Runs(s, v.calls) && After(s, v.calls) == v.state && v.answers == AnswersOf(s, v.calls)
    ensures Inv(p, s, v)
  {
    hide Consistent, Allowed, Iterate, Next, Runs, After, AnswersOf, CanWork, Worked;
    assert ThreadInv(p, w, t, w.places[t]);
    forall u | u in v.places ensures u != 0 && ThreadInv(p, v, u, v.places[u]) {
      if u != t {
        assert ThreadInv(p, w, u, w.places[u]);
        if w.places[u].Working? {
          OneAtWork(p, s, w, t, u);
        }
      }
    }
  }

  lemma StepKeeps(p: Program, s: State, w: World, m: Move)
    requires Sound(p) && Inv(p, s, w) && Can(p, w, m)
    ensures Inv(p, s, Step(p, w, m))
  {
    match m
    case Enter(c) => EnterKeeps(p, s, w, c);
    case Exchange(t) => ExchangeKeeps(p, s, w, t);
    case Work(t) => WorkKeeps(p, s, w, t);
    case Finish(t) => FinishKeeps(p, s, w, t);
    case Leave(t) =>
      assert ThreadInv(p, w, t, w.places[t]);
      hide Inv;
      LeaveKeeps(p, s, w, t);
  }

  lemma LeaveKeeps(p: Program, s: State, w: World, t: nat)
    requires Inv(p, s, w) && PlaceOf(w, t).Leaving?
    ensures Inv(p, s, Go(w, t, Outside))
  {
    Moved(p, s, w, t, Outside);
  }

  // ------------------------------------------------------------------ runs

  predicate Run(p: Program, w: World, moves: seq<Move>)
    decreases |moves|
  {
    moves == [] || (Shaped(w) && Can(p, w, moves[0]) && Run(p, Step(p, w, moves[0]), moves[1..]))
  }

  function End(p: Program, w: World, moves: seq<Move>): World
    requires Run(p, w, moves)
    decreases |moves|
  {
    if moves == [] then w else End(p, Step(p, w, moves[0]), moves[1..])
  }

  /** No thread is in a call yet. */
  function Start(s: State): World { World(s, map[], 0, [], []) }

  lemma {:induction false} RunKeeps(p: Program, s: State, w: World, moves: seq<Move>)
    requires Sound(p) && Inv(p, s, w) && Run(p, w, moves)
    ensures Inv(p, s, End(p, w, moves))
    decreases |moves|
  {
    hide Sound, Inv, Can, Step;
    if moves != [] {
      StepKeeps(p, s, w, moves[0]);
      RunKeeps(p, s, Step(p, w, moves[0]), moves[1..]);
    }
  }

  lemma StartInv(p: Program, s: State)
    requires Consistent(s)
    ensures Inv(p, s, Start(s))
  {
    hide Consistent, Iterate;
  }

  /** However the threads interleave and however the calls are cut into steps: the calls that have taken
      effect are a run of whole calls, which has the same effect on the transaction, and which gives each
      call the answer that is recorded for it. */
  lemma WholeCalls(p: Program, s: State, moves: seq<Move>)
    requires Sound(p) && Consistent(s) && Run(p, Start(s), moves)
    ensures var w := End(p, Start(s), moves);
            && Runs(s, w.calls) && After(s, w.calls) == Model(w) && w.answers == AnswersOf(s, w.calls)
            && (!PlaceOf(w, w.state.owner).Working? ==> w.state == After(s, w.calls))
  {
    hide Consistent, Iterate, Runs, After, AnswersOf, Run, End, Sound;
    StartInv(p, s);
    RunKeeps(p, s, Start(s), moves);
  }

  /** Never are two threads at work in a transaction, and the one that is owns it. */
  lemma MutualExclusion(p: Program, s: State, moves: seq<Move>, t: nat, u: nat)
    requires Sound(p) && Consistent(s) && Run(p, Start(s), moves)
    requires PlaceOf(End(p, Start(s), moves), t).Working? && PlaceOf(End(p, Start(s), moves), u).Working?
    ensures t == u == End(p, Start(s), moves).state.owner
  {
    hide Inv, Run, End, Sound, Consistent;
    StartInv(p, s);
    RunKeeps(p, s, Start(s), moves);
    OneAtWork(p, s, End(p, Start(s), moves), t, u);
  }

  /** Only the thread that the owner word names can change the rest of the transaction. */
  lemma OnlyOwnerWrites(p: Program, s: State, moves: seq<Move>, m: Move)
    requires Sound(p) && Consistent(s) && Run(p, Start(s), moves)
    requires var w := End(p, Start(s), moves);
      Can(p, w, m) && Shaped(w) && Step(p, w, m).state.(owner := 0) != w.state.(owner := 0)
    ensures ThreadOf(m) == End(p, Start(s), moves).state.owner
  {
    hide Run, End, Sound, Consistent, Allowed;
    StartInv(p, s);
    RunKeeps(p, s, Start(s), moves);
    var w := End(p, Start(s), moves);
    if m.Work? {
      assert ThreadInv(p, w, m.thread, w.places[m.thread]);
    }
  }

  // ------------------------------------------------------------------ the answer of a commit

  /** A thread whose call has ended the transaction answers as the whole call does if no transaction has begun
      since. When one has, and nobody is at work in it, a commit answers with the error of that one. */
  lemma LateAnswer(p: Program, s: State, moves: seq<Move>, t: nat)
    requires Sound(p) && Consistent(s) && Run(p, Start(s), moves) && PlaceOf(End(p, Start(s), moves), t).Leaving?
    ensures var w := End(p, Start(s), moves); var place := w.places[t];
            && place.at < |w.calls| == |w.answers| && w.calls[place.at] == place.call
            && (place.begun == w.begun || !place.call.Commit? ==> Returned(w, t) == w.answers[place.at])
            && (place.call.Commit? && !PlaceOf(w, w.state.owner).Working? ==> Runs(s, w.calls) && Returned(w, t) == After(s, w.calls).error)
  {
    WholeCalls(p, s, moves);
    hide Consistent, Iterate, Runs, After, AnswersOf, Run, End, Sound, Model, CanWork;
    StartInv(p, s);
    RunKeeps(p, s, Start(s), moves);
    var w := End(p, Start(s), moves);
    assert ThreadInv(p, w, t, w.places[t]);
  }

  /** A sound program: beginning resets the fields one by one. */
  function InSteps(): Program {
    Program((c: Call) => if c.Begin? then 3 else 1, MicroStep)
  }

  function MicroStep(c: Call, k: nat, s: State): State {
    if !c.Begin? then (if CanWork(s, c) then Worked(s, c) else s)
    else if k == 0 then s.(operations := [])
    else if k == 1 then s.(failed := 0)
    else s.(error := c.protect)
  }

  lemma InStepsSound()
    ensures Sound(InSteps())
  {
    hide Consistent, Allowed;
    forall s: State, c: Call | CanWork(s, c)
      ensures Iterate(InSteps(), c, s, InSteps().length(c)) == Worked(s, c)
    {
      if c.Begin? {
        assert Iterate(InSteps(), c, s, 1) == MicroStep(c, 0, Iterate(InSteps(), c, s, 0));
        assert Iterate(InSteps(), c, s, 2) == MicroStep(c, 1, Iterate(InSteps(), c, s, 1));
        assert Iterate(InSteps(), c, s, 3) == MicroStep(c, 2, Iterate(InSteps(), c, s, 2));
      } else {
        assert Iterate(InSteps(), c, s, 1) == MicroStep(c, 0, Iterate(InSteps(), c, s, 0));
      }
    }
    forall s: State, c: Call, k: nat
      ensures InSteps().micro(c, k, s).owner == s.owner
    {
      hide Next;
    }
  }

  lemma {:induction false} RunMore(p: Program, w: World, moves: seq<Move>, m: Move)
    requires Run(p, w, moves) && Shaped(End(p, w, moves)) && Can(p, End(p, w, moves), m)
    ensures Run(p, w, moves + [m]) && End(p, w, moves + [m]) == Step(p, End(p, w, moves), m)
    decreases |moves|
  {
    hide Can, Step, Shaped;
    if moves == [] {
      assert [] + [m] == [m] && [m][1..] == [];
    } else {
      RunMore(p, Step(p, w, moves[0]), moves[1..], m);
      assert (moves + [m])[1..] == moves[1..] + [m];
    }
  }

  /** A thread begins a transaction, undisturbed. */
  lemma Begins(w0: World, moves: seq<Move>, t: nat, protect: nat) returns (more: seq<Move>)
    requires Run(InSteps(), w0, moves) && t != 0
    requires var w := End(InSteps(), w0, moves); Shaped(w) && w.state.owner == 0 && PlaceOf(w, t) == Outside
    ensures Run(InSteps(), w0, more)
    ensures var w, v := End(InSteps(), w0, moves), End(InSteps(), w0, more);
            && v.state == w.state.(owner := t, operations := [], failed := 0, error := protect)
            && v.places == w.places[t := Outside] && v.begun == w.begun + 1
            && v.calls == w.calls + [Begin(t, protect)] && v.answers == w.answers + [protect] && Shaped(v)
  {
    hide Run, End, Consistent;
    var c := Begin(t, protect);
    more := Add(w0, moves, Enter(c));
    more := Add(w0, more, Exchange(t));
    more := Add(w0, more, Work(t));
    more := Add(w0, more, Work(t));
    more := Add(w0, more, Work(t));
    more := Add(w0, more, Finish(t));
  }

  lemma Add(w0: World, moves: seq<Move>, m: Move) returns (more: seq<Move>)
    requires Run(InSteps(), w0, moves) && Shaped(End(InSteps(), w0, moves)) && Can(InSteps(), End(InSteps(), w0, moves), m)
    ensures Run(InSteps(), w0, more) && End(InSteps(), w0, more) == Step(InSteps(), End(InSteps(), w0, moves), m)
    ensures Shaped(End(InSteps(), w0, more))
  {
    hide Run, End, Can, Step, Shaped;
    more := moves + [m];
    RunMore(InSteps(), w0, moves, m);
    StepShaped(InSteps(), End(InSteps(), w0, moves), m);
  }

  const NOTHING := State(0, NO_ERROR, 0, [], false, map[], map[], map[])

  /** A transaction that has failed is committed, and answers that all went well: before its thread reads the
      error, another thread has begun a transaction. */
  lemma AnotherBegan(failure: nat) returns (moves: seq<Move>)
    requires failure != NO_ERROR
    ensures Run(InSteps(), Start(NOTHING), moves)
    ensures var w := End(InSteps(), Start(NOTHING), moves);
            && PlaceOf(w, 1).Leaving? && PlaceOf(w, 1).call == Commit(1) && PlaceOf(w, 1).at == 1 < |w.answers|
            && w.answers[1] == failure && Returned(w, 1) == NO_ERROR
  {
    hide Run, End;
    var w0 := Start(NOTHING);
    moves := Begins(w0, [], 1, failure) by { EmptyRun(w0); }
    CommitWork(failure);
    EmptyRun(w0);
    moves := Add(w0, moves, Enter(Commit(1)));
    moves := Add(w0, moves, Work(1));
    moves := Add(w0, moves, Finish(1));
    moves := Begins(w0, moves, 2, NO_ERROR);
  }

  lemma EmptyRun(w0: World)
    ensures Run(InSteps(), w0, []) && End(InSteps(), w0, []) == w0
  {}

  /** The work of committing the failed transaction. */
  lemma CommitWork(failure: nat)
    requires failure != NO_ERROR
    ensures var s := NOTHING.(owner := 1, error := failure);
            CanWork(s, Commit(1)) && Worked(s, Commit(1)) == s && Answer(s, Commit(1)) == failure
  {}
}

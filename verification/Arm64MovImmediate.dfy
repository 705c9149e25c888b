/** Synthesis of a 64-bit constant in a register by MOVN, MOVZ and MOVK instructions. */
module Arm64MovImmediate {
  import opened Arm64Isa
  import opened Arm64Assembler

  /** The 16-bit piece number `n` of the immediate. */
  function Piece(imm: bv64, n: nat): bv16
    requires n <= 3
  {
    match n
    case 0 => (imm & 0xffff) as bv16
    case 1 => ((imm >> 16) & 0xffff) as bv16
    case 2 => ((imm >> 32) & 0xffff) as bv16
    case 3 => ((imm >> 48) & 0xffff) as bv16
  }

  function Shift(n: nat): bv2
    requires n <= 3
  {
    match n case 0 => 0 case 1 => 1 case 2 => 2 case 3 => 3
  }

  function Count(imm: bv64, piece: bv16): nat {
    (if Piece(imm, 3) == piece then 1 else 0) + (if Piece(imm, 2) == piece then 1 else 0)
    + (if Piece(imm, 1) == piece then 1 else 0) + (if Piece(imm, 0) == piece then 1 else 0)
  }

  /** What the pieces are that need no instruction of their own. */
  function DefaultPiece(imm: bv64): bv16 {
    if Count(imm, 0xffff) > Count(imm, 0) then 0xffff else 0
  }

  function MovWord(rd: bv5, piece: bv16, hw: bv2, default: bv16, first: bool): bv32 {
    if !first then AssembleMovk64(rd, piece, hw)
    else if default == 0xffff then AssembleMovn64(rd, piece ^ 0xffff, hw)
    else AssembleMovz64(rd, piece, hw)
  }

  /** The words emitted for the pieces below `n`; `first` says that none has been emitted so far. */
  function MovPieces(rd: bv5, imm: bv64, default: bv16, n: nat, first: bool): (words: seq<bv32>)
    requires n <= 4
    ensures |words| <= n
    ensures first && n > 0 ==> words != []
  {
    if n == 0 then []
    else if Piece(imm, n - 1) != default || (n == 1 && first) then
      [MovWord(rd, Piece(imm, n - 1), Shift(n - 1), default, first)] + MovPieces(rd, imm, default, n - 1, false)
    else MovPieces(rd, imm, default, n - 1, first)
  }

  predicate IsMovn32(imm: bv64) {
    Piece(imm, 3) == 0 && Piece(imm, 2) == 0 && Piece(imm, 1) == 0xffff
  }

  function MovImmediate(rd: bv5, imm: bv64): (words: seq<bv32>)
    ensures 1 <= |words| <= 4
  {
    if IsMovn32(imm) then [AssembleMovn32(rd, Piece(imm, 0) ^ 0xffff, 0)]
    else MovPieces(rd, imm, DefaultPiece(imm), 4, true)
  }

  // ------------------------------------------------------------------ values by pieces

  function Join(p3: bv16, p2: bv16, p1: bv16, p0: bv16): bv64 {
    (p3 as bv64 << 48) | (p2 as bv64 << 32) | (p1 as bv64 << 16) | p0 as bv64
  }

  /** The pieces of the immediate from number `n` up, the default piece below. */
  function Built(imm: bv64, default: bv16, n: nat): bv64 {
    Join(if n <= 3 then Piece(imm, 3) else default, if n <= 2 then Piece(imm, 2) else default,
         if n <= 1 then Piece(imm, 1) else default, if n == 0 then Piece(imm, 0) else default)
  }

  lemma MergeJoin0(p3: bv16, p2: bv16, p1: bv16, p0: bv16, piece: bv16)
    ensures Merge(Join(p3, p2, p1, p0), piece, 0) == Join(p3, p2, p1, piece)
  {}

  lemma MergeJoin1(p3: bv16, p2: bv16, p1: bv16, p0: bv16, piece: bv16)
    ensures Merge(Join(p3, p2, p1, p0), piece, 1) == Join(p3, p2, piece, p0)
  {}

  lemma MergeJoin2(p3: bv16, p2: bv16, p1: bv16, p0: bv16, piece: bv16)
    ensures Merge(Join(p3, p2, p1, p0), piece, 2) == Join(p3, piece, p1, p0)
  {}

  lemma MergeJoin3(p3: bv16, p2: bv16, p1: bv16, p0: bv16, piece: bv16)
    ensures Merge(Join(p3, p2, p1, p0), piece, 3) == Join(piece, p2, p1, p0)
  {}

  lemma MergeJoin(p3: bv16, p2: bv16, p1: bv16, p0: bv16, piece: bv16, n: nat)
    requires n <= 3
    ensures Merge(Join(p3, p2, p1, p0), piece, Shift(n))
         == Join(if n == 3 then piece else p3, if n == 2 then piece else p2, if n == 1 then piece else p1, if n == 0 then piece else p0)
  {
    hide Join, Merge;
    MergeJoin0(p3, p2, p1, p0, piece);
    MergeJoin1(p3, p2, p1, p0, piece);
    MergeJoin2(p3, p2, p1, p0, piece);
    MergeJoin3(p3, p2, p1, p0, piece);
  }

  lemma JoinPieces(imm: bv64)
    ensures Join(Piece(imm, 3), Piece(imm, 2), Piece(imm, 1), Piece(imm, 0)) == imm
  {}

  /** What is built before the first word is emitted. */
  lemma BuiltFill(imm: bv64)
    ensures Built(imm, 0, 4) == 0 && Built(imm, 0xffff, 4) == 0xffff_ffff_ffff_ffff
  {}

  lemma MergeBuilt(imm: bv64, default: bv16, n: nat)
    requires n <= 3
    ensures Merge(Built(imm, default, n + 1), Piece(imm, n), Shift(n)) == Built(imm, default, n)
  {
    hide Join, Merge, Piece;
    MergeJoin(if n <= 2 then Piece(imm, 3) else default, if n <= 1 then Piece(imm, 2) else default,
              if n <= 0 then Piece(imm, 1) else default, default, Piece(imm, n), n);
  }

  lemma NotMerge0(piece: bv16) ensures !Merge(0, piece ^ 0xffff, 0) == Merge(0xffff_ffff_ffff_ffff, piece, 0) {}
  lemma NotMerge1(piece: bv16) ensures !Merge(0, piece ^ 0xffff, 1) == Merge(0xffff_ffff_ffff_ffff, piece, 1) {}
  lemma NotMerge2(piece: bv16) ensures !Merge(0, piece ^ 0xffff, 2) == Merge(0xffff_ffff_ffff_ffff, piece, 2) {}
  lemma NotMerge3(piece: bv16) ensures !Merge(0, piece ^ 0xffff, 3) == Merge(0xffff_ffff_ffff_ffff, piece, 3) {}

  lemma NotMerge(piece: bv16, n: nat)
    requires n <= 3
    ensures !Merge(0, piece ^ 0xffff, Shift(n)) == Merge(0xffff_ffff_ffff_ffff, piece, Shift(n))
  {
    hide Merge;
    NotMerge0(piece);
    NotMerge1(piece);
    NotMerge2(piece);
    NotMerge3(piece);
  }

  lemma SkipBuilt(imm: bv64, default: bv16, n: nat)
    requires n <= 3 && Piece(imm, n) == default
    ensures Built(imm, default, n) == Built(imm, default, n + 1)
  {
    hide Join;
    if n == 0 {} else if n == 1 {} else if n == 2 {} else {}
  }

  // ------------------------------------------------------------------ running the words

  lemma MovStep(m: Machine, pc: bv64, c: Core, width: Width, op: MovOp, rd: bv5, imm: bv16, hw: bv2)
    requires width == W32 ==> hw <= 1
    requires m.mem(pc) == AssembleMov(width, op, rd, imm, hw)
    ensures Step(m, State(pc, c)) == State(Plus(pc, 4), SetX(c, rd, MovValue(width, op, X(c, rd), imm, hw)))
  {
    hide Decode, AssembleMov, MovValue, Plus;
    DecodeMov(width, op, rd, imm, hw);
  }

  /** Executing the word for one piece merges that piece into the value built before it. */
  lemma MovWordStep(m: Machine, pc: bv64, c: Core, rd: bv5, piece: bv16, n: nat, default: bv16, first: bool, before: bv64, after: bv64)
    requires n <= 3
    requires m.mem(pc) == MovWord(rd, piece, Shift(n), default, first)
    requires after == Merge(before, piece, Shift(n))
    requires if !first then rd == ZR || X(c, rd) == before else before == if default == 0xffff then 0xffff_ffff_ffff_ffff else 0
    ensures Step(m, State(pc, c)) == State(Plus(pc, 4), SetX(c, rd, after))
  {
    hide Decode, AssembleMov, Merge, Step, Shift, Plus;
    var hw := Shift(n);
    if !first {
      MovStep(m, pc, c, W64, MovK, rd, piece, hw);
    } else if default == 0xffff {
      NotMerge(piece, n);
      MovStep(m, pc, c, W64, MovN, rd, piece ^ 0xffff, hw);
    } else {
      MovStep(m, pc, c, W64, MovZ, rd, piece, hw);
    }
  }

  lemma SetTwice(c: Core, r: bv5, a: bv64, b: bv64)
    ensures SetX(SetX(c, r, a), r, b) == SetX(c, r, b)
  {
    assert c.x[R(r) := a][R(r) := b] == c.x[R(r) := b];
  }

  lemma SetThenGet(c: Core, r: bv5, a: bv64)
    requires r != ZR
    ensures X(SetX(c, r, a), r) == a
  {}

  lemma MovPiecesUnfold(rd: bv5, imm: bv64, default: bv16, n: nat, first: bool)
    requires 0 < n <= 4
    ensures MovPieces(rd, imm, default, n, first)
         == if Piece(imm, n - 1) != default || (n == 1 && first)
            then [MovWord(rd, Piece(imm, n - 1), Shift(n - 1), default, first)] + MovPieces(rd, imm, default, n - 1, false)
            else MovPieces(rd, imm, default, n - 1, first)
  {
    hide Piece, MovWord, Shift;
  }

  lemma MovPiecesEmit(m: Machine, lo: bv64, hi: bv64, pc: bv64, c: Core, rd: bv5, word: bv32, rest: seq<bv32>, after: bv64, imm: bv64)
    requires Placed(m.mem, lo, hi, pc, [word] + rest)
    requires Step(m, State(pc, c)) == State(Plus(pc, 4), SetX(c, rd, after))
    requires Reaches(m, lo, hi, State(Plus(pc, 4), SetX(c, rd, after)), State(EndOf(Plus(pc, 4), rest), SetX(SetX(c, rd, after), rd, imm)))
    ensures Reaches(m, lo, hi, State(pc, c), State(EndOf(pc, [word] + rest), SetX(c, rd, imm)))
  {
    hide Decode, Step, Reaches, EndOf, Placed, SetX, Plus;
    PlacedCons(m.mem, lo, hi, pc, word, rest);
    EndOfCons(pc, word, rest);
    SetTwice(c, rd, after, imm);
    ReachesStep(m, lo, hi, State(pc, c), State(EndOf(Plus(pc, 4), rest), SetX(c, rd, imm)));
  }

  /** Where the run stands before piece `n - 1`: nothing emitted yet, or the pieces from `n` up built. */
  predicate Progress(c: Core, rd: bv5, imm: bv64, default: bv16, n: nat, first: bool) {
    && (default == 0 || default == 0xffff)
    && (first ==> Built(imm, default, n) == Built(imm, default, 4))
    && (!first ==> c == SetX(c, rd, Built(imm, default, n)) && (rd == ZR || X(c, rd) == Built(imm, default, n)))
  }

  lemma ProgressSkips(c: Core, rd: bv5, imm: bv64, default: bv16, n: nat, first: bool)
    requires n <= 3 && Progress(c, rd, imm, default, n + 1, first) && Piece(imm, n) == default
    ensures Progress(c, rd, imm, default, n, first)
  {
    hide Built, Piece, SetX, X;
    SkipBuilt(imm, default, n);
  }

  /** Executing one emitted word brings the run to the next piece. */
  lemma ProgressEmits(m: Machine, pc: bv64, c: Core, rd: bv5, imm: bv64, default: bv16, n: nat, first: bool)
    requires n <= 3 && Progress(c, rd, imm, default, n + 1, first)
    requires m.mem(pc) == MovWord(rd, Piece(imm, n), Shift(n), default, first)
    ensures var d := SetX(c, rd, Built(imm, default, n));
            Step(m, State(pc, c)) == State(Plus(pc, 4), d) && Progress(d, rd, imm, default, n, false)
  {
    hide Step, Merge, Built, Piece, Shift, MovWord, SetX, X, Plus;
    var before, after := Built(imm, default, n + 1), Built(imm, default, n);
    MergeBuilt(imm, default, n);
    BuiltFill(imm);
    MovWordStep(m, pc, c, rd, Piece(imm, n), n, default, first, before, after);
    SetTwice(c, rd, after, after);
    if rd != ZR {
      SetThenGet(c, rd, after);
    }
  }

  lemma ProgressEnds(c: Core, rd: bv5, imm: bv64, default: bv16)
    requires Progress(c, rd, imm, default, 0, false)
    ensures c == SetX(c, rd, imm)
  {
    hide Join, Piece, SetX, X;
    JoinPieces(imm);
  }

  lemma {:induction false} MovPiecesRun(m: Machine, lo: bv64, hi: bv64, pc: bv64, c: Core, rd: bv5, imm: bv64, default: bv16, n: nat, first: bool)
    requires n <= 4 && (first ==> n > 0) && Progress(c, rd, imm, default, n, first)
    requires Placed(m.mem, lo, hi, pc, MovPieces(rd, imm, default, n, first))
    ensures Reaches(m, lo, hi, State(pc, c), State(EndOf(pc, MovPieces(rd, imm, default, n, first)), SetX(c, rd, imm)))
    decreases n
  {
    if n == 0 {
      hide Reaches, Progress, SetX;
      ProgressEnds(c, rd, imm, default);
      ReachesSelf(m, lo, hi, State(pc, c));
    } else {
      hide Progress, Step, Built, Piece, Reaches, EndOf, Placed, Shift, MovWord, MovPieces, SetX, Inside, Plus;
      MovPiecesUnfold(rd, imm, default, n, first);
      if Piece(imm, n - 1) != default || (n == 1 && first) {
        var word := MovWord(rd, Piece(imm, n - 1), Shift(n - 1), default, first);
        var rest := MovPieces(rd, imm, default, n - 1, false);
        var after := Built(imm, default, n - 1);
        PlacedCons(m.mem, lo, hi, pc, word, rest);
        ProgressEmits(m, pc, c, rd, imm, default, n - 1, first);
        MovPiecesRun(m, lo, hi, Plus(pc, 4), SetX(c, rd, after), rd, imm, default, n - 1, false);
        MovPiecesEmit(m, lo, hi, pc, c, rd, word, rest, after, imm);
      } else {
        ProgressSkips(c, rd, imm, default, n - 1, first);
        MovPiecesRun(m, lo, hi, pc, c, rd, imm, default, n - 1, first);
      }
    }
  }

  /** For every value and register, running the emitted sequence leaves exactly that value in the
      register and changes nothing else. */
  lemma MovImmediateRun(m: Machine, lo: bv64, hi: bv64, pc: bv64, c: Core, rd: bv5, imm: bv64)
    requires Placed(m.mem, lo, hi, pc, MovImmediate(rd, imm))
    ensures Reaches(m, lo, hi, State(pc, c), State(EndOf(pc, MovImmediate(rd, imm)), SetX(c, rd, imm)))
  {
    hide Reaches, Step, Decode, Plus;
    if IsMovn32(imm) {
      var word := AssembleMovn32(rd, Piece(imm, 0) ^ 0xffff, 0);
      assert MovImmediate(rd, imm) == [word] && [word][1..] == [];
      MovStep(m, pc, c, W32, MovN, rd, Piece(imm, 0) ^ 0xffff, 0);
      Movn32Value(imm, X(c, rd));
      var t := State(Plus(pc, 4), SetX(c, rd, imm));
      ReachesSelf(m, lo, hi, t);
      ReachesStep(m, lo, hi, State(pc, c), t);
    } else {
      MovPiecesRun(m, lo, hi, pc, c, rd, imm, DefaultPiece(imm), 4, true);
    }
  }

  lemma Movn32Value(imm: bv64, prior: bv64)
    requires IsMovn32(imm)
    ensures MovValue(W32, MovN, prior, Piece(imm, 0) ^ 0xffff, 0) == imm
  {}
}

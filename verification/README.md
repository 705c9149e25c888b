# Models of the Detours rewriter and of DES

Dafny models of two components of the repository, and proofs about them.

**Detours** moves the first instructions of a function into a trampoline, patches the function with a jump to a
detour, and can undo that in a transaction; it also edits the payloads and imports of binaries.

- `Arm64*.dfy`: the ARM64 instruction copier. `Arm64Isa` is a small interpreter (program counter, general and vector
  registers, flags) after section C6.2 of the Arm Architecture Reference Manual, DDI 0487. `Arm64Exactness` proves for
  every instruction exactly when its copy is faithful. The main theorem, `Arm64Trampoline.TrampolineRefinesBlock`, says
  that a trampoline does what the instructions did that were moved into it, exactly when they are not left by a branch
  back into the overwritten bytes; `TrampolineExact` says it for the instructions alone.
- `Ia64*.dfy`: IA64 bundles, their split displacement fields, and the islands of a moved bundle. `Ia64Isa` is what the
  instruction formats of the Itanium architecture mean, against which moving a bundle is proved.
- `TrampolineRegions`, `TrampolineHeap`: the trampoline allocator with its free lists threaded through the slots.
- `X64Jumps`, `JumpReach`: how far the x64 jumps of a patch and of moved code reach, modulo 2^64.
- `TransactionModel` is the transaction as a state machine, `TransactionSafety` and `TransactionUndo` say what holds
  over every run of interleaved calls, `DetourTransactions` is the code in place that refines the machine, and
  `OwnerProtocol` relates runs of single steps of many threads to runs of whole calls.
- `ThreadFixup`: where a suspended thread goes on.
- `PayloadRecords`, `PayloadStore`, `PayloadSection`: the payload store as a map, the section it is written to, and the
  reader in a loaded module.
- `ImportTables`, `ImportLayout`, `ImportWriter`, `ImportReadBack`, `DetourSection`: counting imports, writing them into
  the sized output buffer beside the payloads, and loading them from its bytes.
- `ImportEdit`, `ImportReset`: editing and resetting imports.

**DES** (`Des*.dfy`): bit permutations by table, the two forms of the round function, the cipher, its key schedule and
complementation property, and chained encryption of buffers (section 6.2 of NIST SP 800-38A). `DesStandard` is DES as
FIPS PUB 46-3 states it, over sequences of bits, and `DesRefinement` proves that the program computes it, alone and as
triple DES (section 3.1 of NIST SP 800-67).

`MachineWords` holds bytes, addresses and 32-bit words, `ByteBuffers` reading and writing them in place.
`dafny verify dfyconfig.toml` checks everything.

## Conventions and assumptions

- Machine words are bit-vectors where the code works on bits (ARM64, IA64, DES), and integers with explicit wrap-around
  where it works on addresses. Other integers are unbounded; sizes that the code keeps in 32 bits are required to fit.
- ARM64: register x17 is free for the copier to use, as the source assumes. Code and literals are read-only words; a
  literal that a copy reads later is the same then. Instruction addresses are multiples of four. What the
  instructions outside the decoded part do is a parameter of the machine; they may branch anywhere, but what they do
  does not depend on their address or on x17.
- What the operating system does is a parameter of each call: the result of changing page protection, whether there is
  memory, and the address of a new region. The code behind a pointer (`DetourCodeFromPointer`) and the number of bytes
  that the attach loop consumed on x64 are parameters too.
- A file alignment is a power of two. The callback that adds byways comes to an end.
- The calls of a transaction are atomic steps in `TransactionSafety`. `OwnerProtocol.WholeCalls` proves that runs of
  single steps come to such runs, except for what a commit answers: it reads the error after it has given up the owner
  word (`LateAnswer`, `AnotherBegan`).
- Slots that are not in use are taken to be cleared, so that detaching a trampoline that was freed is refused; freeing a
  trampoline does clear it.
- Where the documentation and the code differ, the models follow the code. `DetourAttachEx` documents an error for a detour
  that is its own target, but the code returns success without queueing anything (`TransactionUndo.AttachQueues`); the
  near range of a copied ARM64 literal load is twice what its field holds (`Arm64Exactness.LiteralReachExact`).

## Model

| member | source | states |
|---|---|---|
| Arm64MovImmediate.MovImmediateRun | detours/disasm.cpp:4009-4058 | for every value and register, running the emitted MOVN/MOVZ/MOVK words leaves exactly that value in the register, changes nothing else, and ends right behind the words |
| Arm64MovImmediate.MovImmediate | detours/disasm.cpp:4009-4058 | a constant takes one to four words |
| Arm64MovImmediate.MergeBuilt | detours/disasm.cpp:4035-4056 | writing one 16-bit piece into the value built from the pieces above it gives the value with that piece too |
| Arm64Assembler.DecodeMov | detours/disasm.cpp:3870-3899 | an assembled MOVN, MOVZ or MOVK decodes to the operation, register, immediate and shift it was made from |
| Arm64Assembler.DecodeAdrWord | detours/disasm.cpp:3693-3717 | an assembled ADR decodes to its register and to the displacement it was given, if that fits 21 bits |
| Arm64Assembler.DecodeBccWord | detours/disasm.cpp:3719-3739 | an assembled B.cond decodes to its condition and displacement |
| Arm64Assembler.DecodeBranchWord | detours/disasm.cpp:3741-3761 | an assembled B or BL decodes to its link bit and displacement |
| Arm64Assembler.DecodeCbzWord | detours/disasm.cpp:3793-3815 | an assembled CBZ or CBNZ decodes to its fields and displacement |
| Arm64Assembler.DecodeTbzWord | detours/disasm.cpp:3901-3925 | an assembled TBZ or TBNZ decodes to its register, bit and displacement |
| Arm64Assembler.DecodeLdrLitWord | detours/disasm.cpp:3817-3841 | an assembled literal load decodes to its fields and displacement |
| Arm64Relocation.ConditionalRun | detours/disasm.cpp:4114-4249 | the near, medium and far forms of a conditional branch all reach the target exactly when the branch is taken and fall through to the end of the copy otherwise |
| Arm64Relocation.BccFaithful | detours/disasm.cpp:4114-4146 | a copied B.cond does what the original does from every state: same next place, same registers and flags except x17 |
| Arm64Relocation.BranchFaithful | detours/disasm.cpp:4148-4171 | the same for B and BL at any distance; BL leaves the return address behind its copy |
| Arm64Relocation.CbzFaithful | detours/disasm.cpp:4183-4215 | the same for CBZ and CBNZ, unless the far form tests x17 |
| Arm64Relocation.TbzFaithful | detours/disasm.cpp:4217-4249 | the same for TBZ and TBNZ, unless the far form tests x17 |
| Arm64Relocation.ReportedIsTaken | detours/disasm.cpp:4114-4249 | the target that the copier reports is where the original branch goes when it is taken |
| Arm64RelocationData.AdrRun | detours/disasm.cpp:4060-4112 | each of the forms of a copied ADR or ADRP leaves the address that it computes by its own arithmetic, for all addresses |
| Arm64RelocationData.AdrFaithful | detours/disasm.cpp:4060-4112 | a copied ADR or ADRP leaves the original address in the register, under a condition on the addresses and the register |
| Arm64RelocationData.LiteralFaithful | detours/disasm.cpp:4251-4286 | a copied literal load leaves the value that the original reads, in a general or a vector register, provided that the literal is stable; a copied prefetch leaves everything |
| Arm64RelocationData.PureFaithful | detours/disasm.cpp:3957-3961 | an instruction that does not depend on its address is copied as it is |
| Arm64RelocationData.CopyFaithful | detours/disasm.cpp:3970-4007 | the copy of any instruction from any address to any other is faithful under a condition on the instruction and the two addresses alone |
| Arm64Exactness.BccExact | detours/disasm.cpp:4114-4146 | a far copy of B.cond is faithful in every state exactly when its condition is one that can fail |
| Arm64Exactness.CbzExact | detours/disasm.cpp:4183-4215 | a copy of CBZ or CBNZ is faithful in every state exactly when it is not a far one that tests x17 |
| Arm64Exactness.TbzExact | detours/disasm.cpp:4217-4249 | a copy of TBZ or TBNZ is faithful in every state exactly when it is not a far one that tests x17 |
| Arm64Exactness.AdrExact | detours/disasm.cpp:4079-4085 | a copy of ADR or ADRP is faithful in every state exactly when the 32-bit add loses nothing and register 31 is not the one it goes through |
| Arm64Exactness.LiteralReachExact | detours/disasm.cpp:4257-4265 | the address that a near literal load reads is that of the literal exactly when the displacement fits the 19-bit field, half of what the range test lets through |
| Arm64Exactness.NearLoadWrong | detours/disasm.cpp:4257-4265 | a near load whose displacement is beyond the field reads another word in some memory, unless nothing depends on its register |
| Arm64Exactness.FarPrefetchWrong | detours/disasm.cpp:4266-4275 | a far prefetch becomes a move that changes a register, unless nothing depends on that register |
| Arm64Exactness.RelocatableExact | detours/disasm.cpp:3970-4007 | for every allocated instruction and all pairs of addresses, the copy is faithful in all memories and states exactly under the condition of the faithfulness theorem |
| Arm64Isa.ExitUnique | detours/disasm.cpp:3970-4007 | a run leaves a stretch of code in at most one state |
| Arm64MovedBlock.MovedInstruction | detours/detours.cpp:2137-2158 | one copied instruction, run from a state that agrees except for x17, ends in agreeing states at corresponding places |
| Arm64MovedBlock.ExecAgrees | detours/disasm.cpp:3970-4007 | an instruction that does not read x17 takes agreeing states to agreeing states |
| Arm64MovedBlock.EndsFunctionExact | detours/detours.cpp:1133-1141 | the attach loop stops behind exactly the instructions that the decoder knows to be returns or branches without a link |
| Arm64MovedBlock.TailRun | detours/detours.cpp:988-1009 | the generated load and branch behind the moved code go to the address in the literal and change x17 alone |
| Arm64MovedBlock.RunBlockIsRun | detours/detours.cpp:2137-2158 | following the original instructions to the first branch that is taken, or past the last one, is a run of the machine inside the overwritten code |
| Arm64MovedBlock.BlockRun | detours/detours.cpp:2137-2158 | the copies of a block of instructions, and the jump behind them, reach what the block reaches with the first branch it takes or at its end |
| Arm64BlockExit.CanEnterExact | detours/disasm.cpp:4114-4249 | whether an instruction other than a register branch can send control into a stretch of code shows in its word and address |
| Arm64BlockExit.RunBlockStays | detours/detours.cpp:2137-2158 | a block none of whose instructions can branch into a stretch is left outside of it |
| Arm64BlockExit.ExitExact | detours/detours.cpp:2135-2158 | in a given state, original code and trampoline are left with the same outcome exactly when the branch that leaves the block leads neither back into the overwritten code nor into the trampoline |
| Arm64BlockExit.ExitsExact | detours/detours.cpp:2135-2158 | in every state and from every instruction of the block on, they are exactly when no instruction of the block can branch there |
| Arm64BlockExit.SelfBranchIsLost | detours/detours.cpp:1744-1749 | a CBZ to itself, waiting for x0: the original never leaves the block, the trampoline goes to the overwritten code |
| Arm64BlockExit.SelfBranchMoves | detours/disasm.cpp:4183-4215 | that instruction is moved like any other |
| Arm64Trampoline.CopyBlockLength | detours/detours.cpp:2135-2158 | the moved code of a block is at most eighteen words long, so that code, tail jump and literal fit |
| Arm64Trampoline.TrampolineParts | detours/detours.cpp:2263-2282 | every part of those words is in its place, the literal within reach of the tail jump |
| Arm64Trampoline.TrampolineRefinesBlock | detours/detours.cpp:2135-2282 | run until control leaves them, the trampoline and the original instructions end at the same address, with the same registers and flags except x17 and corresponding return addresses, exactly when the branch by which the original is left leads neither back to the overwritten bytes nor into the trampoline |
| Arm64Trampoline.TrampolineExact | detours/detours.cpp:2135-2282 | they do so in every state, and from each moved instruction on, exactly when none of the instructions can branch there |
| Arm64Trampoline.PrologueOverwritten | detours/detours.cpp:2137-2171 | the moved instructions are the beginning of the twelve overwritten bytes, and control runs past them only to what follows those bytes |
| Arm64Trampoline.RoomExact | detours/detours.cpp:2137-2199 | there is room exactly when every overwritten word behind a return or a branch without a link is a NOP or zero |
| Arm64CDetourDis.CDetourDis.EmitMovImmediate | detours/disasm.cpp:4009-4058 | the loop over the pieces writes exactly the words that the synthesis theorem is about |
| Arm64CDetourDis.CDetourDis.CopyAdr | detours/disasm.cpp:4060-4112 | writes exactly the words of the faithful copy and advances behind them |
| Arm64CDetourDis.CDetourDis.CopyBcc | detours/disasm.cpp:4114-4146 | writes the words of the faithful copy and records the target |
| Arm64CDetourDis.CDetourDis.CopyBranch | detours/disasm.cpp:4148-4181 | writes the words of the faithful copy and records the target |
| Arm64CDetourDis.CDetourDis.CopyCbz | detours/disasm.cpp:4183-4215 | writes the words of the faithful copy and records the target |
| Arm64CDetourDis.CDetourDis.CopyTbz | detours/disasm.cpp:4217-4249 | writes the words of the faithful copy and records the target |
| Arm64CDetourDis.CDetourDis.CopyLdrLiteral | detours/disasm.cpp:4251-4286 | writes the words of the faithful copy |
| Arm64CDetourDis.CDetourDis.CopyInstruction | detours/disasm.cpp:3970-4007 | writes the words of the faithful copy of whatever instruction is there; returns the extra bytes |
| Arm64CDetourDis.MovePrologue | detours/detours.cpp:2135-2158 | the attach loop copies the instructions up to the end of the function, or until there is room for the patch, by the faithful copies of their words |
| Arm64CDetourDis.MoveBlock | detours/detours.cpp:2135-2282 | the attach loop, the padding loop and what is written behind the moved code: succeeds exactly when behind a return or a branch without a link nothing but padding is overwritten; then records where the function goes on and fills the code part with the words that the refinement theorem is about |
| Arm64CDetourDis.SkipFiller | detours/detours.cpp:2160-2171 | skips padding as long as the patch needs room |
| Arm64CDetourDis.FinishTrampoline | detours/detours.cpp:988-1017 | the tail jump, the breakpoints and the literal complete the code part |
| Ia64Bundle.GetSet | detours/disasm.cpp:1805-1865 | setting one of the three instructions of a bundle changes that one and neither of the others nor the template |
| Ia64Bundle.BundleExtensional | detours/disasm.cpp:1816-1834 | a bundle is its template and its three instructions |
| Ia64Bundle.FieldRoundTrip | detours/disasm.cpp:1867-1975 | a displacement within the 21-bit reach, written into the split fields of an instruction, is read back |
| Ia64Bundle.SetFieldKeeps | detours/disasm.cpp:1917-1975 | writing the displacement leaves all other bits of the instruction |
| Ia64Bundle.FormOfKept | detours/disasm.cpp:2003-2060 | the displacement fields are disjoint from what an instruction is recognised by |
| Ia64Bundle.BrlRoundTrip | detours/disasm.cpp:2097-2160 | a long branch set to an aligned target has that target, and is still a long branch |
| Ia64Isa.UnitsByName | detours/disasm.cpp:1640-1676 | the unit of every slot of every template is the one in the architecture's name of the template |
| Ia64Relocation.RedirectMoves | detours/disasm.cpp:1977-2077 | a redirected slot branches to its island, and the island to the original effective target |
| Ia64Relocation.RedirectKeeps | detours/disasm.cpp:1977-2077 | redirecting one slot changes neither the other slots nor the template |
| Ia64Relocation.LongBranchKeeps | detours/disasm.cpp:2231-2233 | setting the target of a moved long branch keeps the moved slot 0 and every bit outside the displacement |
| Ia64Relocation.LongTargetIs | detours/disasm.cpp:2097-2160 | the target of a long branch is read as the format has it |
| Ia64Relocation.RecognisedExactly | detours/disasm.cpp:1977-2060 | an instruction is taken to be relative exactly when its format is a branch relative to its address, and its target is where that branch goes |
| Ia64Relocation.MovedArrives | detours/disasm.cpp:1977-2077 | a redirected slot does by its format what the original does |
| Ia64Relocation.BundleCell.RelocateInstruction | detours/disasm.cpp:1977-2077 | reports whether the instruction is IP-relative, and with an extra bundle at hand redirects it |
| Ia64Relocation.BundleCell.RelocateBundle | detours/disasm.cpp:2079-2095 | every slot that branches relative to its address gets an island of its own; other slots, unused islands and the template stay; the extra size is 16 times the number of relocated slots |
| Ia64Relocation.BundleCell.Copy | detours/disasm.cpp:2218-2236 | by the instruction formats of the architecture: every moved slot is the same instruction, or branches to an island of its own that branches to where the original goes; a long branch goes to where it went, all its other bits kept; the extra size is 16 times the number of branches |
| TrampolineRegions.FirstList | detours/detours.cpp:1423-1432 | what creation leaves is a free list of all slots but the first two, and nothing is in use |
| TrampolineRegions.PopKeeps | detours/detours.cpp:1395-1402 | taking the first slot leaves a list threaded through the rest, and that slot in use |
| TrampolineRegions.PushKeeps | detours/detours.cpp:1441-1449 | putting a slot in use back threads it in front, and it is free |
| TrampolineRegions.PushExact | detours/detours.cpp:1441-1449 | freeing leaves an acyclic list exactly when the slot was not free already |
| TrampolineRegions.FreedTwice | detours/detours.cpp:1441-1449 | a slot in use that is freed twice leaves its region without a free list |
| TrampolineRegions.OneList | detours/detours.cpp:1371-1449 | there is only one list to follow from a head through the slots |
| TrampolineRegions.SlotsApart | detours/detours.cpp:1411-1432 | slots lie inside of their region, behind its header, and do not overlap |
| TrampolineRegions.FieldTells | detours/detours.cpp:1463-1469 | only the field of a slot in use can be a pointer out of the region |
| TrampolineRegions.Region.FreePlusLive | detours/detours.cpp:1423-1449 | free and used slots together are the slots that were put on the list at creation |
| TrampolineRegions.Region.constructor | detours/detours.cpp:1411-1432 | a new region: valid, nothing in use |
| TrampolineRegions.Region.Pop | detours/detours.cpp:1395-1402 | takes the head of the free list and fills the slot; every other field stays |
| TrampolineRegions.Region.Push | detours/detours.cpp:1441-1449 | puts a slot at the head of the free list; every other field stays |
| TrampolineRegions.Region.SetRemain | detours/detours.cpp:2220 | records where the function of a slot in use goes on, whatever that is |
| TrampolineRegions.Region.IsEmpty | detours/detours.cpp:1451-1473 | tells that some slot in use is for a function that goes on outside of the region; empty regions are told to be empty, others not always |
| TrampolineHeap.InUseExactly | detours/detours.cpp:1475-1492 | the regions in use are those with a slot in use |
| TrampolineHeap.KeptExactly | detours/detours.cpp:1475-1492 | the regions that are kept are those that look used |
| TrampolineHeap.Trampolines.KeptExact | detours/detours.cpp:1475-1492 | they are the regions in use exactly when no trampoline is lost: when in the region of every trampoline there is one whose function goes on outside of it |
| TrampolineHeap.NoneLost | detours/detours.cpp:2220 | no trampoline is lost as long as every function goes on outside of the region that its own trampoline is in |
| TrampolineHeap.Trampolines.Search | detours/detours.cpp:1404-1410 | the search makes the first suitable region of the list the preferred one |
| TrampolineHeap.Trampolines.ChoiceIs | detours/detours.cpp:1382-1410 | the region chosen is the preferred one if its first free slot is between the bounds, else the first of the list of which that is true |
| TrampolineHeap.Trampolines.Alloc | detours/detours.cpp:1371-1439 | a trampoline within the bounds that was not in use and now is; from the preferred region, else the first that suits, else a new one at the head of the list; nothing else changes hands |
| TrampolineHeap.Trampolines.Free | detours/detours.cpp:1441-1449 | the trampoline goes to the head of the free list of its region, found from its address; no other region changes |
| TrampolineHeap.Trampolines.SetRemain | detours/detours.cpp:2220 | records in a trampoline where its function goes on; every other field stays |
| TrampolineHeap.Trampolines.FreeUnused | detours/detours.cpp:1475-1492 | releases exactly the regions that do not look used, with the trampolines that are lost, and keeps the order of the rest |
| X64Jumps.JmpImmediateLands | detours/detours.cpp:324-330 | a generated direct jump goes where it should exactly when the distance fits 32 bits, modulo 2^64 |
| X64Jumps.JmpIndirectLands | detours/detours.cpp:332-339 | a generated indirect jump reads the pointer it should when the distance fits |
| X64Jumps.AdjustTargetExact | detours/disasm.cpp:499-577 | an instruction with a 32-bit displacement, moved, refers to the same address exactly when the adjusted displacement is not truncated |
| X64Jumps.CopyBytesJumpExact | detours/disasm.cpp:466-497 | a short jump, enlarged and moved, keeps its target exactly when the new displacement is not truncated |
| JumpReach.BoundsNear | detours/detours.cpp:75-87 | between the bounds a trampoline is within 0x7ff80000 of the code and of what its leading jump refers to, at both ends of the address space too |
| JumpReach.BoundsExact | detours/detours.cpp:395-431 | the addresses between the bounds are exactly those close to the code and to what its leading jump refers to, but for the very ends of the address space |
| JumpReach.LeadingMeans | detours/detours.cpp:395-431 | code is taken to begin with a jump exactly when it does one, and what that refers to is where it goes or where its pointer is |
| JumpReach.TrampolineReaches | detours/detours.cpp:395-431 | for every trampoline within the bounds the patch jumps into it, and a leading jump moved to it keeps its target |
| JumpReach.PatchReachesDetour | detours/detours.cpp:1722-1728 | control at the patched code arrives at the detour |
| JumpReach.TailReachesRemain | detours/detours.cpp:2263-2267 | control behind the moved code goes on where the trampoline says |
| JumpReach.LeadingCallExact | detours/detours.cpp:395-431 | a leading call keeps its target at every trampoline within the bounds exactly when its displacement is within half a megabyte, or as far as the ends of the address space leave |
| JumpReach.LeadingCallMayNotReach | detours/detours.cpp:395-431 | one call that a trampoline within the bounds sends elsewhere |
| TransactionSafety.NextKeeps | detours/detours.cpp:1559-2461 | every call keeps consistency: nothing pending without an owner, one operation for a trampoline, saved bytes equal to the code that is there |
| TransactionSafety.OneOwner | detours/detours.cpp:1559-1625 | after any run of whole calls the owner is the thread that the history of beginnings and endings says |
| TransactionSafety.OthersChangeNothing | detours/detours.cpp:1992-2002 | whatever other threads call while a thread owns the transaction, in any number and order, it stays as it is |
| TransactionSafety.FailedStays | detours/detours.cpp:1998-2002 | after an operation has failed, no run of calls changes the transaction until its thread ends it |
| TransactionSafety.GivenUp | detours/detours.cpp:1583-1667 | a transaction that is aborted, or committed after a failure, leaves code, pointers and trampolines as they were when it began, whatever calls of whatever threads came in between |
| TransactionUndo.CommitDoesAll | detours/detours.cpp:1674-1899 | a commit without error carries out every pending operation, where they overlap in the order of the list, gives up the removed trampolines, and touches no other byte and no other pointer |
| TransactionUndo.InstalledNext | detours/detours.cpp:1674-2461 | a detour in place stays in place through any call of any thread that respects it |
| TransactionUndo.Undo | detours/detours.cpp:1674-1699 | attach committed, any respecting calls, detach committed: every byte as before the attach, the pointer at the resolved target, the trampoline given back |
| TransactionUndo.AttachQueues | detours/detours.cpp:1970-2322 | attaching queues an operation exactly when the function can be detoured, and then the trampoline has the saved bytes, where the function goes on, and the detour asked for; the answer is the same for a detour that is its own target |
| TransactionUndo.AttachFails | detours/detours.cpp:1992-2322 | otherwise the answer is the error of the first thing that failed, and nothing changes but the error and the pointer that are remembered |
| TransactionUndo.DetachQueues | detours/detours.cpp:2324-2461 | detaching a detour in place queues its removal exactly when the detour passed is the one it was made with and nothing fails; otherwise which error it answers, and that nothing else changes |
| TransactionUndo.AttachPends | detours/detours.cpp:1970-2322 | an attachment that is queued, of code and by a pointer of its own, is pending with the detour that was asked for |
| TransactionUndo.AttachedDetaches | detours/detours.cpp:1674-2461 | a whole life: attached, committed after any calls that leave it pending, detached after any calls that respect it by the same pointer and detour: the detach succeeds and queues the removal, and until then the detour is in place |
| TransactionUndo.DetachTwice | detours/detours.cpp:2413-2458 | detaching twice in one transaction is accepted, and two operations hold the one trampoline |
| TransactionUndo.InstalledEnters | detours/detours.cpp:1722-1728 | in every state that calls can lead to, control at code with a detour in place goes into the trampoline and from there, by what the trampoline records, to the detour that was attached; behind the jump are breakpoints |
| DetourTransactions.Transactions.Begin | detours/detours.cpp:1559-1581 | the call in place does what the state machine does |
| DetourTransactions.Transactions.Abort | detours/detours.cpp:1583-1625 | the call in place does what the state machine does; the trampolines of attachments go back to their regions |
| DetourTransactions.Transactions.Commit | detours/detours.cpp:1652-1919 | the call in place does what the state machine does exactly when no trampoline is lost with its region, and else loses just those |
| DetourTransactions.Transactions.Attach | detours/detours.cpp:1970-2322 | the call in place does what the state machine does, so that what it queues has the detour asked for, with a trampoline that was not in use, between the jump bounds of the code at the target |
| DetourTransactions.Transactions.FillTrampoline | detours/detours.cpp:2137-2322 | saves the code, records in the slot where it goes on and the detour, and queues the operation; or gives the trampoline back |
| DetourTransactions.Transactions.Detach | detours/detours.cpp:2324-2461 | the call in place does what the state machine does |
| DetourTransactions.Transactions.PatchTarget | detours/detours.cpp:1722-1728 | the jump and the breakpoint loop write exactly the patch |
| DetourTransactions.Transactions.ApplyPending | detours/detours.cpp:1677-1746 | the first loop of a commit carries out the operations in order |
| DetourTransactions.Transactions.FreeHeld | detours/detours.cpp:1883-1899 | the loop that ends a transaction gives back exactly the trampolines that are given up |
| DetourTransactions.Transactions.ReleaseRemoved | detours/detours.cpp:1883-1904 | after a removal no region without a trampoline is left, unless regions are retained; only lost trampolines go with a region |
| DetourTransactions.NothingLost | detours/detours.cpp:1463-1469 | a commit loses no trampoline as long as every detoured function goes on outside of the region of its trampoline |
| DetourTransactions.OutsideNext | detours/detours.cpp:2220 | that stays so through every call but an attachment to code that goes on in the region of its own trampoline |
| DetourTransactions.SecondDetourIsLost | detours/detours.cpp:1463-1469 | it can fail: with a detour on the code that another one moved, removing the other releases the region under the one that is in place |
| OwnerProtocol.MutualExclusion | detours/detours.cpp:1559-1581 | with every read, exchange and write a step of its own, never are two threads at work in a transaction |
| OwnerProtocol.OnlyOwnerWrites | detours/detours.cpp:1559-1667 | a step that changes the transaction, but for the owner, is one of the thread that the owner word names |
| OwnerProtocol.WholeCalls | detours/detours.cpp:1559-1667 | every interleaving of the small steps of calls does to the transaction what a run of whole calls does, in the order in which they take effect |
| OwnerProtocol.InStepsSound | detours/detours.cpp:1573-1579 | there are such steps: beginning that resets the fields one by one comes to the same as the whole call |
| OwnerProtocol.LateAnswer | detours/detours.cpp:1666-1666 | a commit answers for its own transaction if none has begun between giving up the owner word and reading the error, and otherwise with the error of the one that has |
| OwnerProtocol.AnotherBegan | detours/detours.cpp:1622-1666 | a run in which a failed transaction is committed and answers that all went well |
| ThreadFixup.RecordAlign | detours/detours.cpp:2135-2158 | the copying loop records the offsets of the ends of the instructions, in three and five bits, and blank entries behind them |
| ThreadFixup.DetourAlignFromTarget | detours/detours.cpp:1642-1650 | finds the first entry for an offset, zero when there is none |
| ThreadFixup.LaterInstruction | detours/detours.cpp:1642-1650 | for the start of a copied instruction other than the first no bits are lost: the offset found is that of the moved instruction |
| ThreadFixup.FirstInstruction | detours/detours.cpp:1642-1650 | offset zero is mapped right exactly when the end of the copied instructions is not a multiple of eight or its entry is zero |
| ThreadFixup.FirstInstructionMayBeLost | detours/detours.cpp:1642-1650 | instructions of one and of seven bytes: a thread at the start is sent behind the moved code |
| ThreadFixup.ThreadGoesOn | detours/detours.cpp:1854-1866 | by one attachment, a suspended thread at an instruction of the overwritten bytes goes on at the same instruction in the trampoline, any other stays |
| ThreadFixup.ThreadGoesOnPending | detours/detours.cpp:1836-1869 | so it does with any operations pending, as long as no earlier one concerns where it is and no later one where it goes |
| ThreadFixup.ThreadComesBack | detours/detours.cpp:1836-1850 | when a detour is removed, a thread at a moved instruction other than the first comes back to the original one if it is within the first eight bytes of the trampoline, and is left there otherwise |
| ThreadFixup.UpdateThread | detours/detours.cpp:1836-1869 | the loop over the pending operations passes the address from one to the next |
| PayloadRecords.ReadRecord | detours/image.cpp:521-558 | the fields of a record are read back at its offset |
| PayloadRecords.WithoutKeeps | detours/image.cpp:560-587 | leaving out the record of a GUID removes that GUID from the map and nothing else |
| PayloadRecords.AddedContents | detours/image.cpp:589-617 | a record of a new GUID at the end adds it to the map |
| PayloadStore.CImageData.Find | detours/image.cpp:521-558 | finds data exactly when the GUID is in the map, and then its bytes |
| PayloadStore.CImageData.Delete | detours/image.cpp:560-587 | removes the GUID from the map in place; other records keep their bytes and order |
| PayloadStore.StoredHolds | detours/image.cpp:589-617 | what is stored begins with the bytes handed in and goes on with zeros to the next multiple of eight |
| PayloadStore.CImageData.Set | detours/image.cpp:589-617 | updates the map: under the GUID are then the bytes handed in, with zeros behind them to the next multiple of eight; without memory the old data is gone all the same |
| PayloadStore.CImageData.SizeTo | detours/image.cpp:432-461 | makes room and keeps the contents |
| PayloadStore.CImageData.Enumerate | detours/image.cpp:492-519 | returns the record at the position and moves on; nothing at the end |
| PayloadStore.CImageData.EnumerateAll | detours/image.cpp:492-519 | enumerating from the start lists every record once, in order |
| PayloadSection.RequestedExact | detours/image.cpp:1785-1793 | what is asked for is what is allocated when the old headers are a multiple of eight long, and only then |
| PayloadSection.SizedEnough | detours/image.cpp:873-897 | with a file alignment of eight or more everything fits into the sized buffer, however long the old headers are |
| PayloadSection.SizedExact | detours/image.cpp:873-919 | for any file alignment, exactly when an allocation from the sized buffer fails |
| PayloadSection.Output.SizeOutputBuffer | detours/image.cpp:873-897 | makes the buffer as large as asked, rounded up, and keeps what is in it; fails for want of memory alone |
| PayloadSection.Output.AllocateOutput | detours/image.cpp:902-919 | allocations are consecutive and cleared, and succeed exactly as long as the buffer lasts |
| PayloadSection.Output.AllocateAll | detours/image.cpp:1797-1828 | all allocations of a section succeed exactly when together they fit, each part is where it should be, and all of it is clear |
| PayloadSection.Output.WriteSection | detours/image.cpp:1797-1822 | header, old headers and payloads are written to disjoint places, and the places of the tables stay clear |
| PayloadSection.SectionRoundTrip | detours/image.cpp:1282-1294 | reading the section gives back the bytes that were written |
| PayloadSection.Module.GetPayloadSection | detours/modules.cpp:669-730 | finds the first section of that name if it and the headers of the module are in order; the section header is fixed up and nothing else changes |
| PayloadSection.Module.FindPayload | detours/modules.cpp:754-814 | returns for every GUID what the store returns, if the size is wanted |
| PayloadSection.WrittenIsFound | detours/image.cpp:1797-1822 | a section as it is written, loaded at its address, is found by the reader and holds the records |
| ImportTables.CheckImportsNeeded | detours/image.cpp:1353-1403 | counts tables, thunks and characters, and reports an edit exactly when there is a byway or some name is not the original one |
| ImportTables.CountPart | detours/image.cpp:1353-1403 | the first files need no more than all of them |
| ImportWriter.CImageThunks.Allocate | detours/image.cpp:655-667 | takes the next thunk as long as there is one |
| ImportWriter.CImageChars.Allocate | detours/image.cpp:699-722 | appends a string, its zero and padding as long as there is room |
| ImportWriter.CImageChars.AllocateHint | detours/image.cpp:724-748 | appends a hint and a string as long as there is room |
| ImportWriter.ImportTablesWriter.WriteImports | detours/image.cpp:1830-1877 | no allocation fails, lookup and name tables end up exactly full, the bound table does not overflow, the places in the buffer hold what the imports say, and what is around them stays |
| ImportLayout.AllBytes | detours/image.cpp:1353-1403 | the name table is as long as was counted |
| ImportLayout.AllLookup | detours/image.cpp:1353-1403 | the lookup table is as long as was counted |
| ImportLayout.AllBound | detours/image.cpp:1843-1852 | the bound table is no longer than was counted |
| ImportReadBack.ReadBack | detours/image.cpp:1830-1877 | a loader that reads the written tables finds for every file its name and its imports, names with hints and ordinals, in order |
| ImportReadBack.ReadBackBound | detours/image.cpp:1843-1852 | the table that the loader binds is, for a byway, one that asks for the function with ordinal 1, and for any other file the one it had |
| DetourSection.WriteDetourSection | detours/image.cpp:1785-1877 | counting, sizing, allocating and writing end to end: fails exactly for want of memory, or when the sized buffer is too short, which it is not if the old headers or the file alignment are multiples of eight; then header, old headers, payloads and tables are in place |
| DetourSection.FillTables | detours/image.cpp:1830-1877 | tables of the counted sizes, side by side in the buffer, are filled without a failed allocation |
| DetourSection.SectionLoads | detours/image.cpp:1830-1877 | from the bytes of the section, a loader finds for every file its name, its imports, the table to bind and the forwarder chain |
| ImportEdit.CImageImportFile.Edit | detours/image.cpp:1502-1566 | edits the name and the imports of a file as the callbacks answer, up to the first failure, and says what is left then; `ImportEdit.NameGivenBack` says what it leaves alone |
| ImportEdit.CImage.Unlink | detours/image.cpp:1495-1499 | takes one node out of the linked list; the others stay linked in order |
| ImportEdit.CImage.Link | detours/image.cpp:1476-1480 | puts a new node into the linked list; the others stay linked in order |
| ImportEdit.CImage.AddByway | detours/image.cpp:1467-1481 | adds a byway before the file that the walk is at, if its name can be copied |
| ImportEdit.CImage.EditImports | detours/image.cpp:1440-1604 | the walk over the linked list ends; it adds the byways that the callback asks for, deletes those without a name, edits the other files and keeps their order; a failure leaves the rest as it was; with callbacks that give everything back, the files are the old ones with the byways that were added, and nothing changes when none are |
| ImportEdit.NameGivenBack | detours/image.cpp:1526-1560 | an import whose name is given back stays as it is, whatever the callbacks do to others |
| ImportEdit.BywayGivenBack | detours/image.cpp:1473-1500 | a byway whose name is given back stays |
| ImportEdit.OnlyAdds | detours/image.cpp:1440-1604 | with callbacks that give everything back, editing succeeds and adds the byways where they are given, and nothing else |
| ImportEdit.AllGivenBack | detours/image.cpp:1440-1604 | with callbacks that also add nothing, the files are the same |
| ImportReset.FilesReset | detours/image.cpp:2136-2188 | resetting succeeds exactly when the original names can be copied; then the byways are gone and every other file has its original names and ordinals, in order |
| ImportReset.ResetRestores | detours/image.cpp:1342-1403 | after a reset no import counts as edited, exactly when none had neither an original name nor an original ordinal |
| ImportReset.ResetImports | detours/image.cpp:2175-2188 | resets the list in place |
| DesShuffle.InverseOfShuffle | des/des.c:226-243 | undoing a shuffle gives back the bits that the table lists |
| DesShuffle.ShuffleOfInverse | des/des.c:226-243 | shuffling what the reverse put in place gives the word back, for a table without repetition |
| DesShuffle.ShuffleXor | des/des.c:226-232 | shuffling is linear |
| DesShuffle.ShuffleNot | des/des.c:226-232 | complementing a word complements the bits picked from it |
| DesShuffle.ShuffleLoop | des/des.c:226-232 | the loop computes the shuffle |
| DesShuffle.ShuffleInvLoop | des/des.c:234-243 | the loop computes the reverse |
| DesTables.IpListsAll | des/des.c:57-66 | the initial permutation lists every bit exactly once |
| DesBoxes.BoxAgrees | des/des.c:109-223 | each entry of the combined table is the permuted entry of its S-box |
| DesBoxes.FastIsSmall | des/des.c:245-269 | the round function with the combined table equals the one with S-boxes and permutation, for all halves and round keys |
| DesCipher.RoundUndone | des/des.c:302-307 | a round undoes itself between swaps of the halves |
| DesCipher.EncDecInverse | des/des.c:297-313 | decryption undoes encryption and the other way round, for all blocks and round keys |
| DesCipher.DesEncDec | des/des.c:297-313 | the loop computes the cipher |
| DesCipher.GenRoundKeys | des/des.c:285-295 | the loop fills in the round keys of the schedule |
| DesRefinement.RoundKeyIs | des/des.c:277-295 | every round key is the one of FIPS PUB 46-3 for every key: permuted choice 1, left shifts of the halves, permuted choice 2 |
| DesRefinement.ValueSelects | des/des.c:109-136 | every entry of every packed S-box is that of the standard's selection function, by row and column |
| DesRefinement.FIs | des/des.c:245-269 | the round function with its rotations is the cipher function of the standard: expansion, sum with the key, selection functions, permutation |
| DesRefinement.DesIsTheStandard | des/des.c:226-313 | encryption and decryption of any block with any key are those of the standard |
| DesRefinement.KeyBytes | des/des.c:44-53 | the bits of a key are those of its bytes, in order |
| DesRefinement.BlockBytes | des/des.c:29-46 | so are those of a block that a little-endian processor reads |
| DesRefinement.BlockIsTheStandard | des/des.c:315-346 | from the bytes of the keys, one block is encrypted and decrypted with one key as the standard says, and with three as triple DES |
| DesComplement.RoundKeyNot | des/des.c:277-295 | complementing the key complements all 48 bits of every round key, whatever the rotations leave above bit 55 |
| DesComplement.FSame | des/des.c:245-269 | complementing both the half and the round key leaves the round function |
| DesComplement.Complementation | des/des.c:226-313 | complementing key and block complements the result, in both directions |
| DesCrypt.Be2meTwice | des/des.c:29-46 | reversing the bytes twice changes nothing |
| DesCrypt.BlockInverse | des/des.c:331-346 | a block decrypted after encryption, or the other way round, is itself, for single and triple DES |
| DesCrypt.TripleIsSingle | des/des.c:333-346 | triple DES with the same key twice in a row is single DES with the remaining one |
| DesCrypt.RoundTrip | des/des.c:328-354 | the other direction over the result gives the blocks back and leaves the same chaining value: any keys, any count, chained or not |
| DesCrypt.SplitRun | des/des.c:328-354 | one call on n + m blocks equals two that hand on the chaining value |
| DesCrypt.EncryptionChains | des/des.c:328-354 | encrypting, every output is the encryption of its input combined with the output before it, the first with the initial value, and the last output is left as the chaining value |
| DesCrypt.DecryptionUnchains | des/des.c:328-354 | decrypting, every output is the decryption of its input, combined with the input before it, the first with the initial value, and the last input is left as the chaining value |
| DesCrypt.EachByItself | des/des.c:328-354 | without a chaining value every block is encrypted or decrypted by itself |
| DesCrypt.WordsRoundTrip | des/des.c:328-354 | the same for the words as memory holds them |
| DesCrypt.AVDES.Init | des/des.c:315-326 | accepts 64 and 192 bits and fills in one or three key schedules |
| DesCrypt.AVDES.CryptBlock | des/des.c:333-346 | one block through one cipher or three |
| DesCrypt.AVDES.CryptBlocks | des/des.c:330-351 | the loop over the blocks, in place or not |
| DesCrypt.AVDES.Crypt | des/des.c:328-354 | the buffer and the chaining value after a call, in place too: every block is chained to the ciphertext before it; what lies behind the blocks stays |
| DesCrypt.EncryptAndDecrypt | des/des.c:328-354 | a buffer encrypted and decrypted in place is as before |

## Left out

- Arm64RelocationData.AdrFaithful: has the condition that `Arm64Exactness.AdrExact` shows to be exact; the ADRP and ADD form adds in 32 bits.
- Arm64RelocationData.LiteralFaithful: has the condition that `Arm64Exactness.RelocatableExact` shows to be exact, for the encodings that are allocated; the one that is not is left to the parameter for other instructions.
- Arm64Relocation.CbzFaithful: excludes x17 in the far form, exactly (`Arm64Exactness.CbzExact`).
- Arm64Relocation.TbzFaithful: excludes x17 in the far form, exactly (`Arm64Exactness.TbzExact`).
- Arm64Trampoline.TrampolineExact: has no condition on the state, so that a block with a register branch, which can lead anywhere, falls under `Arm64Trampoline.TrampolineRefinesBlock` instead.
- TransactionUndo.Undo: asks that other attachments meanwhile touch neither the detour's bytes nor its pointer; overlapping detours are not undone independently by the code either.
- TransactionSafety.NextKeeps: asks callers not to detach a trampoline twice in one transaction, which the code accepts (`TransactionUndo.DetachTwice`) and which frees it twice (`TrampolineRegions.FreedTwice`).
- DetourTransactions.Transactions.Detach: asks the same.
- ThreadFixup.ThreadGoesOn: excludes an out-of-range LOOP or JCXZ, which is marked as not supported when moved, and needs the condition of `ThreadFixup.FirstInstruction` at offset zero.
- Ia64Relocation.MovedArrives: an instruction that reads its own address (`mov r = ip`) is copied as it is and reads the new address, as the code has it.
- ThreadFixup.ThreadComesBack: says nothing about the start of the first instruction, which no entry of the table is for.
- PayloadStore.CImageData.Find: requires well-formed records; on a record of length zero the loop of the source does not end.
- PayloadSection.Module.FindPayload: requires well-formed records, for the same reason.
- ImportEdit.CImage.EditImports: memory does not run out, and callbacks change nothing but their context.
- DesCrypt.AVDES.Crypt: a null source with more than one block, which the source reads from address 8 on, is excluded.
- The jump by which ARM64 code is patched, the ARM and Thumb copier, the x86 and x64 opcode tables and the VEX, EVEX and XOP decoding.
- `DetourUpdateThread`, which has no check of the owner. The fix-up of threads when a detour is removed measures a pointer instead of a trampoline; it is modelled as it is, but not shown to be right.
- The search of the address map for a free region (`detour_alloc_region_from_lo` and `_hi`); what it returns is a parameter, checked against the bounds afterwards.
- Page protection, instruction cache, thread contexts and their suspension, exception handling, and the trace output.
- The out-parameters of `DetourAttachEx` and `DetourTransactionCommitEx`, of which the latter is read before the owner is checked and again after it is given up, and `DetourSetIgnoreTooSmall` and its like, which set one flag.
- `CImageData::IsValid`, whose result nothing uses, and `Purge`.
- The rest of `CImage::Read` and `CImage::Write`: other sections, checksums, debug directory, CLR flags, trailing data; and 32-bit binaries.
- `detours/creatwth.cpp`, `detours/uimports.cpp`, the PNG, compression, UI, JSON and Lua files.

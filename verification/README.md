# Lua runtime and packet framing of DDServerFramework, modelled in Dafny

The server framework embeds the Lua 5.1.4 runtime and cuts its network streams into packets. This project models the
parts whose correctness rests on protocols, in-place data structures and algorithms, and proves what they keep and what
they compute. Run `dafny verify dfyconfig.toml` to check everything.

- Garbage collector (`Gc*.dfy`): the incremental tri-colour collector with its two whites, both barriers, weak tables,
  open upvalues and interned strings, as functions on a state, with an invariant over all phases. `GcSafety` proves
  safety over every run, `GcGarbage` says exactly which objects a full collection leaves, `GcWeak` what is left in them,
  weak tables above all, and `GcEffects` what each operation does to what the program sees. `GcCollector` holds the
  collector as a class whose methods change the lists and colours in place, each proved equal to its function on states.
- Bytecode verifier (`Bytecode`, `Verifier`, `Machine`): the single pass with its parity argument, and the interpreter,
  opcode by opcode, that it must keep inside the code and its operands.
- Code generator for boolean expressions (`JumpCode`, `JumpLists`, `CodeGen*`): the code and its meaning, with jump
  lists as sequences; `CodeGenerator` holds the generator as a class that threads the lists through the jump offsets of
  the code. A jump may carry the value of a TESTSET. The meaning of compiled code is total: it says which value is
  carried where, so the theorems hold for all expressions, and a separate analysis says when that is what the language
  means.
- Tables (`Table*.dfy`): array part and chained scatter table with Brent's variation, in place.
- Strings (`Patterns`, `PatternRules`, `Matcher`, `StringFind`, `StringBuffer`, `Substitution`, `SubstitutionRules`,
  `Quoted`, `Literals`): pattern matching and what each construct means, find, the string buffer, `gsub` told by its
  matches, and `%q` with the lexer that reads string literals.
- Sorting, precedence climbing with the grammar that it reads, precompiled chunks with their bytes, and the packet framing
  (`Sort`, `Priorities`, `Chunk`, `ChunkState`, `ChunkFormat`, `PacketStream`).

Where the source works in place the model has a class or a method, proved against functions on values; the theorems are
about these functions.

## What fails

Four promises do not hold of the code as it is. Each has an input that shows it, and the exact condition under which
the code is right. The last point is a comment that the code does not follow.

- Compiled values (`lcode.c:59-66`, `lcode.c:547-550`, `lcode.c:579-582`): a literal `false` or `true` on the left of
  `and` or `or` jumps, and takes over the pending jumps with the values they carry. `(a or b) and (false and c)` gives
  `a`, and `if a then end local x = false and b` gives nil where `a` is nil, through a jump of the earlier statement.
  `CodeGenExact.MergedJumpSpoilsValue`, `CodeGenExact.EarlierJumpSpoilsValue`; right from every way in if and only if
  `ValueRight` holds without a carried value, and with one where a jump to the expression carries one
  (`CodeGenExact.ValueExact`). No expression without such literals violates it.
- Compiled conditions: a comparison can get such a value as its operand, and then takes the wrong branch.
  `CodeGenExact.SpoiltConditionFails`, `CodeGenExact.EarlierJumpSpoilsBranch`; right from every way in if and only if
  `BranchRight` holds in the same two cases (`CodeGenExact.BranchExact`).
- Verified code stays in the code: the verifier checks the skip of LOADBOOL for C of 1 only (`ldebug.c:375`), and the
  interpreter skips for any C but 0 (`lvm.c:413`). `Machine.SkipOntoCount`, `Machine.SkipOutOfCode`,
  `Machine.StepsStayIff`.
- Plain search as a short cut (`lstrlib.c:183`, `lstrlib.c:501-512`): the list of special characters lacks `)`, and the
  test stops at a zero. `StringFind.StopDiffers`, `StringFind.PlainExact`.
- Array sizes: the comment in `ltable.c:10-13` says at least half of the slots, the code wants more than half
  (`ltable.c:198`). The model follows the code (`TableSizes.ComputeSizes`).

## Model

| member | source | states |
|---|---|---|
| `GcSafety.RunIsSafe` | DDServerFramework/3rdparty/lua-5.1.4/src/lgc.c:556-607 | After any interleaving of collector steps, full collections and enabled program operations from the initial state, every object reachable from the roots is in the heap, and the next collector step keeps it there. |
| `GcSafety.StepFreesNothingReachable` | DDServerFramework/3rdparty/lua-5.1.4/src/lgc.c:407-428 | In every state with the invariant, whatever its phase, one collector step (finalizer call included) frees no object that a path of references leads to. |
| `GcSafety.BlackNeverSeesWhite` | DDServerFramework/3rdparty/lua-5.1.4/src/lgc.c:69-112 | In the propagate phase of any run, what a black object refers to is in the heap and not white; the black object is no thread and no open upvalue. |
| `GcSafety.GrayWaits` | DDServerFramework/3rdparty/lua-5.1.4/src/lgc.c:277-320 | In the propagate phase of any run, the lists gray, grayagain and weak hold just the gray objects that have references to traverse, each once; in grayagain and weak, where tables caught by the back barrier wait, are only tables and threads. |
| `GcOps.ApplyKeepsInv` | DDServerFramework/3rdparty/lua-5.1.4/src/lgc.c:662-710 | Every operation of the program keeps the invariant of the collector in every phase: allocation, store with its barrier, stack store, store through an open upvalue, upvalue lookup and closing, interning, metatable and thread switches, string fixing and string-table resizing. |
| `GcSweep.SingleStepKeepsInv` | DDServerFramework/3rdparty/lua-5.1.4/src/lgc.c:556-607 | Every case of `singlestep` keeps the invariant: linking of all lists, no reachable dead object, and the colours that belong to the phase. |
| `GcAlloc.InternKeepsInv` | DDServerFramework/3rdparty/lua-5.1.4/src/lstring.c:75-94 | Interning keeps the invariant and one object per text, also when it finds a dead string that the sweep has not reached and revives it. |
| `GcOps.FindUpvalKeepsInv` | DDServerFramework/3rdparty/lua-5.1.4/src/lfunc.c:53-79 | Looking up an upvalue keeps the invariant, sorted lists and one open upvalue per stack slot included, whether one is found, revived, or made. |
| `GcClose.CloseKeepsInv` | DDServerFramework/3rdparty/lua-5.1.4/src/lfunc.c:96-112 | Closing upvalues down to a level keeps the invariant in all phases: dead ones are freed, gray ones become black with their value marked, or white, and all others are linked. |
| `GcOps.ResizeKeepsInv` | DDServerFramework/3rdparty/lua-5.1.4/src/lstring.c:22-47 | Rehashing the string table loses no string, doubles none, and puts each into its bucket; nothing changes while strings are swept. |
| `GcFull.StepProgress` | DDServerFramework/3rdparty/lua-5.1.4/src/lgc.c:556-607 | Outside of the pause every step goes on to a later phase, marks an object or shortens the work of its phase, so each cycle ends. |
| `GcGarbage.FullGcExact` | DDServerFramework/3rdparty/lua-5.1.4/src/lgc.c:636-659 | From any phase, where no userdata has or awaits a finalizer, an object is in the heap after a full collection if and only if it is strongly reachable, or is a string held by a reachable table, weak or not, or is fixed. |
| `GcGarbage.FullGcLeavesNoDangling` | DDServerFramework/3rdparty/lua-5.1.4/src/lgc.c:351-375 | After a full collection no reference leads to a freed object, be it from a weak table with a value that is not nil. |
| `GcWeak.FullGcLeaves` | DDServerFramework/3rdparty/lua-5.1.4/src/lgc.c:636-659 | From any phase, without finalizers, every strongly reachable object is left as it was: upvalues keep their values, and a weak table loses just the entries that hold an object, other than a string, that is not strongly reachable, or a finalized userdata as a value. |
| `GcWeak.AtomicClears` | DDServerFramework/3rdparty/lua-5.1.4/src/lgc.c:337-375 | In any collection, finalizers or not: an array place or node of a table in the weak list keeps its contents if and only if it holds no unmarked object other than a string, and no finalized userdata as a value. |
| `GcWeak.AtomicFinalizes` | DDServerFramework/3rdparty/lua-5.1.4/src/lgc.c:128-155 | The userdata that wait for finalizers grow by just those that are unmarked at the end of marking, have a finalizer and were not finalized, latest first; they are then noted as finalized. |
| `GcEffects.OperationExact` | DDServerFramework/3rdparty/lua-5.1.4/src/lgc.c:662-710 | After every enabled operation of the program, in every phase, the program sees just the change that it asked for: contents stored, value pushed, upvalue found or closed, string interned or fixed; no other body, stack or slot changes. |
| `GcEffects.CloseExact` | DDServerFramework/3rdparty/lua-5.1.4/src/lfunc.c:96-112 | Just the open upvalues of the thread at the level and above are closed, each with the value of its slot, or freed if dead; none is left open there. |
| `GcEffects.FindUpvalExact` | DDServerFramework/3rdparty/lua-5.1.4/src/lfunc.c:53-79 | The upvalue found is open, alive and of that slot, was there before or is new because there was none, and is what the program gets. |
| `GcEffects.FinalizerTakes` | DDServerFramework/3rdparty/lua-5.1.4/src/lgc.c:445-474 | The finalizer that is called is that of the first userdata that waits; the userdata is on the stack, and white and behind the main thread in the root list again. |
| `GcCollector.Collector.ReallyMark` | DDServerFramework/3rdparty/lua-5.1.4/src/lgc.c:69-112 | In place: the object and what it holds without a list are marked, the others put on the gray list, as the function on states says; it ends because the set of white objects shrinks. |
| `GcCollector.Collector.MarkTmu` | DDServerFramework/3rdparty/lua-5.1.4/src/lgc.c:115-124 | In place: every userdata that awaits its finalizer is whitened and marked again. |
| `GcCollector.Collector.SeparateUdata` | DDServerFramework/3rdparty/lua-5.1.4/src/lgc.c:128-155 | In place: the unmarked userdata behind the main thread that have finalizers leave the root list for the finalizer list, in order; those without are marked as finalized. |
| `GcCollector.Collector.TraverseTable` | DDServerFramework/3rdparty/lua-5.1.4/src/lgc.c:158-197 | In place: marks what the table holds strongly, clears the keys of empty entries, and puts a weak table on the weak list. |
| `GcCollector.Collector.PropagateMark` | DDServerFramework/3rdparty/lua-5.1.4/src/lgc.c:277-320 | In place: traverses the first gray object; threads wait in grayagain and weak tables stay gray. |
| `GcCollector.Collector.IsCleared` | DDServerFramework/3rdparty/lua-5.1.4/src/lgc.c:337-345 | In place: true just for an unmarked object that is no string, and for a finalized userdata as a value; strings count as values and are marked. |
| `GcCollector.Collector.ClearTable` | DDServerFramework/3rdparty/lua-5.1.4/src/lgc.c:351-375 | In place: the entries that hold such an object lose value and key, in the array part only where values are weak, and all others stay. |
| `GcCollector.Collector.RemarkUpvals` | DDServerFramework/3rdparty/lua-5.1.4/src/lgc.c:515-522 | In place: the values of all gray open upvalues are marked. |
| `GcCollector.Collector.MarkRoot` | DDServerFramework/3rdparty/lua-5.1.4/src/lgc.c:501-512 | In place: empties the lists and marks the main thread, its globals, the registry and the basic metatables. |
| `GcCollector.Collector.Atomic` | DDServerFramework/3rdparty/lua-5.1.4/src/lgc.c:525-553 | In place: remarks upvalues, weak tables and the running thread, traverses again, separates userdata, clears weak tables and flips the white, in that order. |
| `GcCollector.Collector.FreeObj` | DDServerFramework/3rdparty/lua-5.1.4/src/lgc.c:378-400 | In place: freeing a thread closes its upvalues first; an open upvalue leaves its list. |
| `GcCollector.Collector.SweepList` | DDServerFramework/3rdparty/lua-5.1.4/src/lgc.c:407-428 | In place: up to the given number of objects are whitened or freed, with the open upvalues of each thread; the invariant holds after it. |
| `GcCollector.Collector.CallFinalizer` | DDServerFramework/3rdparty/lua-5.1.4/src/lgc.c:445-474 | In place: the next userdata returns to the root list behind the main thread, white, and can be reached by its finalizer; the invariant holds after it. |
| `GcCollector.Collector.SingleStep` | DDServerFramework/3rdparty/lua-5.1.4/src/lgc.c:556-607 | In place: the state after each case is that of the step of a run, so that the theorems about runs hold for it, and the invariant holds. |
| `GcCollector.Collector.FullGc` | DDServerFramework/3rdparty/lua-5.1.4/src/lgc.c:636-659 | In place: from any phase, finalizers included, both loops end in the pause in the state of the full collection; without finalizers the heap is just what is to be kept, and reachable objects keep their contents. |
| `GcCollector.Collector.BarrierForward` | DDServerFramework/3rdparty/lua-5.1.4/src/lgc.c:662-672 | In place: marks the new value while marking, or else whitens the object that holds it. |
| `GcCollector.Collector.BarrierBack` | DDServerFramework/3rdparty/lua-5.1.4/src/lgc.c:675-683 | In place: a black table that gets a white value turns gray and waits in grayagain. |
| `GcCollector.Collector.Store` | DDServerFramework/3rdparty/lua-5.1.4/src/lgc.h:86-97 | In place: a store with the barrier of its kind gives the state of the operation of a run, with the invariant. |
| `GcCollector.Collector.Link` | DDServerFramework/3rdparty/lua-5.1.4/src/lgc.c:686-692 | In place: a new object is white and in the root list, and the sweep pointer stays on its object. |
| `GcCollector.Collector.LinkUpval` | DDServerFramework/3rdparty/lua-5.1.4/src/lgc.c:695-710 | In place: a gray upvalue that is linked turns black with a barrier while marking, and white otherwise. |
| `GcCollector.Collector.Close` | DDServerFramework/3rdparty/lua-5.1.4/src/lfunc.c:96-112 | In place: the loop closes exactly the upvalues at the level and above, first to last, and the invariant holds. |
| `GcCollector.Collector.FindUpval` | DDServerFramework/3rdparty/lua-5.1.4/src/lfunc.c:53-79 | In place: walks the sorted list, revives a dead upvalue it finds, or links a new one at its place in both lists; the invariant holds. |
| `GcCollector.Collector.Intern` | DDServerFramework/3rdparty/lua-5.1.4/src/lstring.c:75-94 | In place: the result is in the heap with the given text, and a string with that text is made only if there was none; the invariant holds. |
| `GcCollector.Collector.ResizeStrings` | DDServerFramework/3rdparty/lua-5.1.4/src/lstring.c:22-47 | In place: moves every string to its new bucket; the invariant holds. |
| `Verifier.CheckCode` | DDServerFramework/3rdparty/lua-5.1.4/src/ldebug.c:484-486 | The one pass over the code accepts a function if and only if its header is right (stack size, parameters, vararg flags, upvalue names, lines, final RETURN) and every word that is an instruction, and no SETLIST count, passes all checks. |
| `Verifier.SymbExec` | DDServerFramework/3rdparty/lua-5.1.4/src/ldebug.c:317-475 | When nothing is traced, the result is not zero just for accepted functions. For them, when a register is traced, it is the last instruction that changes the register on the way that the tracing follows to the given place, or the final RETURN if none does. |
| `Verifier.CheckInstr` | DDServerFramework/3rdparty/lua-5.1.4/src/ldebug.c:322-472 | The checks of one instruction succeed if and only if operands, jump target, skip, open results and captured variables are all in range. |
| `Verifier.CheckJump` | DDServerFramework/3rdparty/lua-5.1.4/src/ldebug.c:346-361 | Walking back over words that look like SETLIST decides by parity whether the target of a jump is an instruction. |
| `Verifier.ParityDecides` | DDServerFramework/3rdparty/lua-5.1.4/src/ldebug.c:350-360 | Behind a row of words that look like SETLIST with a count, the target is an instruction if and only if the row has even length, though some words of the row are counts. |
| `Verifier.CheckUpvalues` | DDServerFramework/3rdparty/lua-5.1.4/src/ldebug.c:454-458 | The words after a CLOSURE are accepted if and only if they are all in the code and each is a MOVE or a GETUPVAL. |
| `Machine.RunIsSound` | DDServerFramework/3rdparty/lua-5.1.4/src/lvm.c:373-760 | In every run of an accepted function whose LOADBOOL skips are checked, execution is always at an instruction of the function, and all constants, upvalues, nested functions, operand words and registers exist that the interpreter uses in the case of its opcode. |
| `Machine.CheckExact` | DDServerFramework/3rdparty/lua-5.1.4/src/ldebug.c:317-475 | The checks of an instruction other than CLOSURE succeed if and only if everything exists that the interpreter uses in its case, its jumps and skips lead to instructions, values up to the top are taken by the next instruction, unused operands are zero, and the few rules hold that are about its form alone. |
| `Machine.ClosureExact` | DDServerFramework/3rdparty/lua-5.1.4/src/ldebug.c:450-462 | Those of a CLOSURE succeed if and only if its function exists, and the words behind it are in the code and each a MOVE or a GETUPVAL. |
| `Machine.ChangesExact` | DDServerFramework/3rdparty/lua-5.1.4/src/ldebug.c:367-445 | What the tracing takes for a change of a register is what the interpreter writes, but of loops, concatenations and varargs it notes register A alone, and of TEST register A too. |
| `Bytecode.FieldsExact` | DDServerFramework/3rdparty/lua-5.1.4/src/lopcodes.h:34-48 | The fields cover the instruction word, each bit in one of them, and Bx is B above C. |
| `Machine.RunGoesOn` | DDServerFramework/3rdparty/lua-5.1.4/src/lvm.c:373-760 | Such a run is at a RETURN or can go on, so it never leaves the code otherwise. |
| `Machine.StepsStayIff` | DDServerFramework/3rdparty/lua-5.1.4/src/lvm.c:411-415 | Of an accepted function, every step from an instruction ends at an instruction if and only if each LOADBOOL with C of 2 or more skips an instruction that can be skipped: the verifier checks only C of 1, the interpreter skips for any but 0. |
| `Machine.SkipOntoCount` | DDServerFramework/3rdparty/lua-5.1.4/src/lvm.c:411-415 | The failure: an accepted function that executes the count of a SETLIST. |
| `Machine.SkipOutOfCode` | DDServerFramework/3rdparty/lua-5.1.4/src/lvm.c:411-415 | The failure: an accepted function that leaves its code. |
| `CodeGenTheorem.ValueTheorem` | DDServerFramework/3rdparty/lua-5.1.4/src/lcode.c:390-420 | For every expression over locals, upvalues and literals, and every state between statements, behind loops and any other code, from every point from which control enters, the emitted code ends behind itself, changes no register in use but the next one, and leaves in it the value that the outcome of the expression names; merged jumps with a stale value are part of the outcome. |
| `CodeGenTheorem.AssignTheorem` | DDServerFramework/3rdparty/lua-5.1.4/src/lcode.c:472-487 | The same for an assignment to a local variable that the expression may use. |
| `CodeGenTheorem.ConditionTheorem` | DDServerFramework/3rdparty/lua-5.1.4/src/lparser.c:965-972 | For every such expression the code of a condition falls through exactly when the outcome is true and else leaves through one of the returned exits, which are distinct and still without target; no register in use changes. |
| `CodeGenTheorem.ActIsEval` | DDServerFramework/3rdparty/lua-5.1.4/src/lcode.c:539-591 | The outcome has the truth of the expression in the language unless a comparison gets a stale operand, and its value unless a stale value can be carried out of it; both conditions are found from the expression and the state before it. |
| `CodeGenTheorem.ValueWithoutStops` | DDServerFramework/3rdparty/lua-5.1.4/src/lcode.c:390-411 | If no literal stops an `and` or `or`, as in every expression without literals, the register gets the value of the expression in the language, from every entry. |
| `CodeGenTheorem.ConditionWithoutComparisons` | DDServerFramework/3rdparty/lua-5.1.4/src/lcode.c:539-591 | Without comparisons, literals included, or without stopping literals, a condition always branches on the truth of the expression. |
| `CodeGenExact.ValueExact` | DDServerFramework/3rdparty/lua-5.1.4/src/lcode.c:59-66 | For an expression that uses each variable and comparison once, in which no right operand of fixed truth hides a comparison (or all compare the right values): from every way in, the pending jumps of earlier statements included, the register gets the value in all environments if and only if no comparison can get and no jump out can carry a stale value; where a pending jump carries a value, the same is asked for that entry. |
| `CodeGenExact.BranchExact` | DDServerFramework/3rdparty/lua-5.1.4/src/lcode.c:681-694 | For every condition that uses each variable and comparison once, with comparisons nested in operands where nothing hides them: from every way in, the branch is right in all environments if and only if no comparison whose answer can matter can get a stale operand; where a pending jump of an earlier statement carries a value, the same is asked for that entry. |
| `CodeGenBranch.BranchSuffices` | DDServerFramework/3rdparty/lua-5.1.4/src/lcode.c:539-591 | For each kind of entry, carrying a value or not: under the condition computed for that kind, whatever the form of the expression and however often it uses a variable, the branch is right for all registers and comparisons. |
| `CodeGenExact.MergedJumpSpoilsValue` | DDServerFramework/3rdparty/lua-5.1.4/src/lcode.c:59-66 | The failure: for `(a or b) and (false and c)` with `a` true the register gets `a`, and the language says `false`. |
| `CodeGenExact.SpoiltConditionFails` | DDServerFramework/3rdparty/lua-5.1.4/src/lcode.c:681-694 | The failure: `((a or b) and (false and c)) == false` takes the wrong branch, and the condition of BranchExact refuses it. |
| `CodeGenExact.SpoiltMasked` | DDServerFramework/3rdparty/lua-5.1.4/src/lcode.c:539-565 | On the left of `and false` the same comparison does no harm. |
| `CodeGenExact.EarlierJumpSpoilsValue` | DDServerFramework/3rdparty/lua-5.1.4/src/lcode.c:163-166 | The failure: in `if a then end local x = false and b` the jump of the first statement gives `x` the value nil; the condition holds for control that falls in, and fails for that jump. |
| `CodeGenExact.EarlierJumpSpoilsBranch` | DDServerFramework/3rdparty/lua-5.1.4/src/lcode.c:163-166 | The failure: after `if a then end`, the condition `(false and b) == false` branches as false where `a` is nil; again the condition fails for the jump only. |
| `CodeGenExact.SpoiltUnderOr` | DDServerFramework/3rdparty/lua-5.1.4/src/lcode.c:567-591 | Under `or` the same subexpression is compiled rightly. |
| `CodeGenMeaning.CompileOk` | DDServerFramework/3rdparty/lua-5.1.4/src/lcode.c:718-790 | By induction over every expression: the generated code behaves as its outcome says from every entry, its pending jumps stay distinct, and older code changes only where its jumps were waiting. |
| `CodeGen.CompareRules` | DDServerFramework/3rdparty/lua-5.1.4/src/lcode.c:681-694 | The comparisons of the language: greater is less with its operands exchanged, and `~=` is the negation of `==`. |
| `CodeGen.LogicRules` | DDServerFramework/3rdparty/lua-5.1.4/src/lcode.c:539-626 | `and`, `or` and `not` of the language: operands are returned, and only nil and false are false. |
| `CodeGenerator.FuncState.Concat` | DDServerFramework/3rdparty/lua-5.1.4/src/lcode.c:185-196 | In place: following the links of the first list to its end appends the second; the lists are the sequences of jumps they stand for, without cycles, and no other list changes. |
| `CodeGenerator.FuncState.PatchListAux` | DDServerFramework/3rdparty/lua-5.1.4/src/lcode.c:150-160 | In place: exactly the jumps of the list get their targets, those that carry a value the one and the register, the others the other; all other waiting jumps keep their links. |
| `CodeGenerator.FuncState.Jump` | DDServerFramework/3rdparty/lua-5.1.4/src/lcode.c:59-66 | In place: the new jump takes over the pending jumps, which keep their own instructions. |
| `CodeGenerator.FuncState.Exp2Reg` | DDServerFramework/3rdparty/lua-5.1.4/src/lcode.c:390-411 | In place: lands both lists in the register, with LOADBOOLs only where a jump without a value is left. |
| `CodeGenerator.FuncState.GoIf` | DDServerFramework/3rdparty/lua-5.1.4/src/lcode.c:539-591 | In place: one list of the operand goes on here and the other is extended, as `luaK_goiftrue` and `luaK_goiffalse` do. |
| `CodeGenerator.FuncState.CodeNot` | DDServerFramework/3rdparty/lua-5.1.4/src/lcode.c:594-626 | In place: exchanges the lists and takes the values off their jumps. |
| `CodeGenerator.FuncState.CodeComp` | DDServerFramework/3rdparty/lua-5.1.4/src/lcode.c:681-694 | In place: operands in order, registers freed in reverse order, and a jump without a value. |
| `CodeGenerator.FuncState.Expression` | DDServerFramework/3rdparty/lua-5.1.4/src/lcode.c:718-790 | In place: for every expression the threaded lists in the jump offsets are disjoint and acyclic and stand for the lists of the compiled form that the theorems are about; lists of other expressions are kept. |
| `CodeGenerator.FuncState.Condition` | DDServerFramework/3rdparty/lua-5.1.4/src/lparser.c:965-972 | In place: the same for a condition, with the list of its exits. |
| `TableModel.Table.Put` | DDServerFramework/3rdparty/lua-5.1.4/src/ltable.c:494-505 | A store makes the table agree with the finite map updated at that key, whatever rehashing it takes; a nil or NaN key is refused and changes nothing; a store to a key that is there keeps the numbering of a traversal. |
| `TableModel.Table.Get` | DDServerFramework/3rdparty/lua-5.1.4/src/ltable.c:469-491 | A lookup gives the value of the map, nil for keys that are not there. |
| `TableModel.Table.Set` | DDServerFramework/3rdparty/lua-5.1.4/src/ltable.c:494-505 | Finds or makes the slot of the key, with all values as before. |
| `TableModel.Table.NewKey` | DDServerFramework/3rdparty/lua-5.1.4/src/ltable.c:399-429 | A new key gets a node, by Brent's variation or after one rehash, and no value changes; with a free node the sizes stay. |
| `TableModel.Table.InsertColliding` | DDServerFramework/3rdparty/lua-5.1.4/src/ltable.c:409-425 | A colliding node that is out of its main position moves to the free one, with the link to it; one in its main position gets the new key linked behind it; the chains stay whole. |
| `TableModel.Table.GetFreePos` | DDServerFramework/3rdparty/lua-5.1.4/src/ltable.c:382-388 | The result is a node without a key, and no such node lies at or above the pointer; without one, all nodes have keys. |
| `TableModel.Table.Rehash` | DDServerFramework/3rdparty/lua-5.1.4/src/ltable.c:333-349 | Keeps the map, gives the array part the optimal size, and leaves a place for the new key in the array or a free node, so that the retry needs no other rehash. |
| `TableModel.Table.Resize` | DDServerFramework/3rdparty/lua-5.1.4/src/ltable.c:297-324 | Keeps the map for every array size, and leaves as many nodes free as the new hash part has beyond the entries that were put back. |
| `TableModel.Table.Next` | DDServerFramework/3rdparty/lua-5.1.4/src/ltable.c:162-179 | From nil or a key that is in the table, be its value nil, the result is the entry with the next higher number among those with values, or the end; any other key is an error. |
| `TableModel.Table.FindIndex` | DDServerFramework/3rdparty/lua-5.1.4/src/ltable.c:137-159 | The number of a key is the position that holds it, and a key that is not there is refused. |
| `TableModel.Table.GetN` | DDServerFramework/3rdparty/lua-5.1.4/src/ltable.c:560-579 | The result is a border: 0 with no first element, or a filled place with an empty one behind it. |
| `TableModel.Table.UnboundSearch` | DDServerFramework/3rdparty/lua-5.1.4/src/ltable.c:532-554 | Doubling and bisection in the hash part, or the linear search beyond MAX_INT, end at a border. |
| `TableSizes.ComputeSizes` | DDServerFramework/3rdparty/lua-5.1.4/src/ltable.c:189-208 | The result is the largest power of two with more than half of its slots used, or 0, and the number of keys up to it. |
| `TableSizes.CountInt` | DDServerFramework/3rdparty/lua-5.1.4/src/ltable.c:211-219 | Each integer key is counted in the slice of powers of two that it lies in, once. |
| `TableModel.Table.NumUseArray` | DDServerFramework/3rdparty/lua-5.1.4/src/ltable.c:222-244 | The slices count exactly the filled places of the array part. |
| `TableModel.Table.NumUseHash` | DDServerFramework/3rdparty/lua-5.1.4/src/ltable.c:247-260 | The slices and the totals count exactly the live nodes. |
| `TableNodes.ChainsAcyclic` | DDServerFramework/3rdparty/lua-5.1.4/src/ltable.c:399-429 | Following links never comes back to a node. |
| `TableNodes.OnePrevious` | DDServerFramework/3rdparty/lua-5.1.4/src/ltable.c:411-415 | At most one node links to a node. |
| `TableNodes.KeysReachable` | DDServerFramework/3rdparty/lua-5.1.4/src/ltable.c:399-429 | Every key is reached from its main position by following links. |
| `TableNodes.DisplacedByOwner` | DDServerFramework/3rdparty/lua-5.1.4/src/ltable.c:14-17 | The main position of a key that is elsewhere holds a key that belongs there. |
| `TableValues.TraversalComplete` | DDServerFramework/3rdparty/lua-5.1.4/src/ltable.c:162-179 | Calls of `luaH_next` from nil to the end, each with the key that the call before gave, with values changed or set to nil between them but no key added: every key that has a value all the time is given exactly once, no key twice, each with its value at the time, and the calls are not more than the places. |
| `TableValues.KeysNumbered` | DDServerFramework/3rdparty/lua-5.1.4/src/ltable.c:137-159 | No two entries of a table have the same key, so the numbering can be inverted. |
| `Patterns.MatchIsFirst` | DDServerFramework/3rdparty/lua-5.1.4/src/lstrlib.c:365-440 | The matcher ends for all patterns, gives the result of the first way to match in the order of preference, more repetitions first but fewer after `-`, and fails only if every way fails. |
| `Patterns.BeforeDecides` | DDServerFramework/3rdparty/lua-5.1.4/src/lstrlib.c:301-326 | Of two different ways that do not fail, exactly one comes before the other, so that the first is well defined. |
| `PatternRules.MarkRule` | DDServerFramework/3rdparty/lua-5.1.4/src/lstrlib.c:414-437 | What a mark behind a class means, when n characters from here belong to the class: `*` the most repetitions that let the rest match, `+` the most but at least one, `-` the fewest, `?` one and then none; without a mark just one. |
| `PatternRules.ClassMeans` | DDServerFramework/3rdparty/lua-5.1.4/src/lstrlib.c:202-275 | A class written as `.`, as a character, behind `%`, or as a set of characters, ranges and classes, complemented or not, ends where its text ends, and holds just the characters that are meant. |
| `PatternRules.ClassLetters` | DDServerFramework/3rdparty/lua-5.1.4/src/lstrlib.c:226-242 | Each class letter stands for its characters, by their codes, and in upper case for all others. |
| `PatternRules.EndRule` | DDServerFramework/3rdparty/lua-5.1.4/src/lstrlib.c:406-413 | The end of the pattern matches; a final `$` only at the end of the source. |
| `PatternRules.OpenRule` | DDServerFramework/3rdparty/lua-5.1.4/src/lstrlib.c:368-373 | `(` opens a capture and `()` captures the position, up to 32 captures. |
| `PatternRules.CloseRule` | DDServerFramework/3rdparty/lua-5.1.4/src/lstrlib.c:374-376 | `)` closes the last capture that is open, with its length up to here, and is an error if none is. |
| `PatternRules.BackRule` | DDServerFramework/3rdparty/lua-5.1.4/src/lstrlib.c:397-401 | `%1` to `%9` match the text of a closed capture again; other captures are an error. |
| `PatternRules.FrontierRule` | DDServerFramework/3rdparty/lua-5.1.4/src/lstrlib.c:384-395 | `%f` matches between a character that is not in the set and one that is, with zeros at both ends of the source. |
| `PatternRules.BalanceRule` | DDServerFramework/3rdparty/lua-5.1.4/src/lstrlib.c:281-298 | `%b` matches up to where the closings catch up with the openings for the first time. |
| `PatternRules.MalformedRule` | DDServerFramework/3rdparty/lua-5.1.4/src/lstrlib.c:202-223 | A pattern that ends behind `%` or within a set is an error. |
| `Matcher.MatchState.Match` | DDServerFramework/3rdparty/lua-5.1.4/src/lstrlib.c:365-440 | In place: the result and the captures are those of the matcher; a failed match leaves the level and the captures below it as before. |
| `Matcher.MatchState.MaxExpand` | DDServerFramework/3rdparty/lua-5.1.4/src/lstrlib.c:301-313 | In place: tries all numbers of repetitions downwards, and restores the captures between them. |
| `Matcher.MatchState.MinExpand` | DDServerFramework/3rdparty/lua-5.1.4/src/lstrlib.c:316-326 | In place: the same upwards. |
| `Matcher.MatchState.MatchBalance` | DDServerFramework/3rdparty/lua-5.1.4/src/lstrlib.c:281-298 | In place: the end of the shortest balanced part, or failure. |
| `Matcher.MatchState.StartCapture` | DDServerFramework/3rdparty/lua-5.1.4/src/lstrlib.c:329-340 | In place: opens a capture for the rest of the pattern, closed again on failure; too many are an error. |
| `Matcher.MatchState.EndCapture` | DDServerFramework/3rdparty/lua-5.1.4/src/lstrlib.c:343-352 | In place: closes the innermost open capture for the rest of the pattern, reopened on failure. |
| `StringFind.PlainExact` | DDServerFramework/3rdparty/lua-5.1.4/src/lstrlib.c:501-512 | For a pattern that the test for special characters lets through, plain search and pattern search agree on all sources if and only if it has neither `)` nor a zero. |
| `StringFind.StopDiffers` | DDServerFramework/3rdparty/lua-5.1.4/src/lstrlib.c:501-512 | The failure: for every other such pattern a source on which they differ: an error for `)`, a match too early for a zero. |
| `StringFind.ParenthesisDiffers` | DDServerFramework/3rdparty/lua-5.1.4/src/lstrlib.c:183 | Two inputs: `)` is found by plain search and an error for the matcher, and with a zero in the pattern the matcher finds what plain search does not. |
| `StringFind.Lmemfind` | DDServerFramework/3rdparty/lua-5.1.4/src/lstrlib.c:444-463 | The search by first characters finds the first occurrence, or there is none; the empty string is found at once. |
| `StringFind.StrFindAux` | DDServerFramework/3rdparty/lua-5.1.4/src/lstrlib.c:495-535 | In place: the result of `find` and `match`, for plain and other searches. |
| `StringFind.FindRule` | DDServerFramework/3rdparty/lua-5.1.4/src/lstrlib.c:495-535 | The search begins at the position, counted from the end if it is negative and bounded by both ends; the result is the first occurrence of a plain text, what an anchored pattern gives there, or what any other gives at the first place where it does not fail. |
| `StringBuffer.Buffer.AddString` | DDServerFramework/3rdparty/lua-5.1.4/src/lauxlib.c:436-439 | The strings that wait on the stack and the bytes in the buffer are together what was added, in order; fewer than the limit wait. |
| `StringBuffer.Buffer.AddValue` | DDServerFramework/3rdparty/lua-5.1.4/src/lauxlib.c:454-469 | The same for a string from the top of the stack, which may be put below it. |
| `StringBuffer.Buffer.AdjustStack` | DDServerFramework/3rdparty/lua-5.1.4/src/lauxlib.c:410-426 | Joining strings of similar length changes nothing of the contents and leaves fewer than the limit. |
| `StringBuffer.Buffer.PushResult` | DDServerFramework/3rdparty/lua-5.1.4/src/lauxlib.c:447-451 | One string is left on the stack, the concatenation of everything added. |
| `Substitution.WholeReplacement` | DDServerFramework/3rdparty/lua-5.1.4/src/lstrlib.c:644-680 | Replacing by `%0` gives the source back for every pattern and every limit that raise no error. |
| `Substitution.StrGsub` | DDServerFramework/3rdparty/lua-5.1.4/src/lstrlib.c:644-680 | In place: the loop with the buffer gives the text and the count, or the error, of the definition. |
| `SubstitutionRules.GsubRule` | DDServerFramework/3rdparty/lua-5.1.4/src/lstrlib.c:644-680 | The result is the source with just the matches replaced, and their number: the first match, and then each the first behind the one before, up to the limit or to the end, an anchored pattern at the beginning only; it is an error just when the matcher raises one, or a match cannot be replaced, before that. |
| `SubstitutionRules.ReplacementRule` | DDServerFramework/3rdparty/lua-5.1.4/src/lstrlib.c:590-609 | In a replacement `%0` stands for the match, and so does `%1` without captures; `%1` to `%9` stand for the captures, by text or as a decimal position; `%` before another character for that character; a capture that does not exist is an error. |
| `Substitution.AddS` | DDServerFramework/3rdparty/lua-5.1.4/src/lstrlib.c:590-609 | The replacement text is copied with its captures put in; `%` before another character stands for that character. |
| `Quoted.ReadsQuoted` | DDServerFramework/3rdparty/lua-5.1.4/src/lstrlib.c:696-721 | Reading what `%q` wrote gives every string back, zeros before digits and line ends included, whatever follows it, and counts its line ends. |
| `Quoted.AddQuoted` | DDServerFramework/3rdparty/lua-5.1.4/src/lstrlib.c:696-721 | In place: adds the quoted form to the buffer and nothing else. |
| `Quoted.Lexer.ReadString` | DDServerFramework/3rdparty/lua-5.1.4/src/llex.c:276-329 | In place: the string, the rest of the input, the line count and the two errors are those of the definition, escapes and line ends included. |
| `Quoted.Lexer.IncLineNumber` | DDServerFramework/3rdparty/lua-5.1.4/src/llex.c:127-135 | In place: a line end of two different characters is passed as one line. |
| `Literals.LiteralReads` | DDServerFramework/3rdparty/lua-5.1.4/src/llex.c:276-329 | A string literal of characters, escaped letters and characters, escaped line ends and decimal codes of up to three digits is read as the string that section 2.1 of the reference manual says, with its line ends counted. |
| `Literals.CodeTooLarge` | DDServerFramework/3rdparty/lua-5.1.4/src/llex.c:304-313 | A decimal code beyond 255 is an error. |
| `Sort.AuxSort` | DDServerFramework/3rdparty/lua-5.1.4/src/ltablib.c:193-254 | For every strict weak order the part ends up sorted, as a permutation, with everything else in place; no index leaves the part, the order is never called invalid, and calls nest no deeper than the binary logarithm of the length plus one. |
| `Sort.Meet` | DDServerFramework/3rdparty/lua-5.1.4/src/ltablib.c:222-242 | The two scans stay within the part and meet with nothing greater before and nothing less behind. |
| `Sort.TableSort` | DDServerFramework/3rdparty/lua-5.1.4/src/ltablib.c:256-265 | The whole list ends up sorted, with the same elements. |
| `Priorities.SubExprExact` | DDServerFramework/3rdparty/lua-5.1.4/src/lparser.c:828-852 | The parser reads a tree and stops before a rest if and only if the tokens are the tree and the rest, the priorities allow the tree under the limit, and neither it nor the limit lets the next operator in. |
| `Priorities.ParsesBack` | DDServerFramework/3rdparty/lua-5.1.4/src/lparser.c:828-852 | Every tree that the priorities allow is parsed back from its tokens. |
| `Priorities.TreeUnique` | DDServerFramework/3rdparty/lua-5.1.4/src/lparser.c:810-821 | No two allowed trees have the same tokens. |
| `Priorities.PrintedParsesBack` | DDServerFramework/3rdparty/lua-5.1.4/src/lparser.c:828-852 | Every tree, printed with parentheses where the priorities need them, is parsed back. |
| `Priorities.TwoOperators` | DDServerFramework/3rdparty/lua-5.1.4/src/lparser.c:810-821 | Of any two operators in a row the one of higher precedence in the order of the reference manual is the inner one; of the same precedence the left one, but the right one of `..` and `^`. |
| `Priorities.UnaryOperators` | DDServerFramework/3rdparty/lua-5.1.4/src/lparser.c:821-838 | A unary operator takes only `^` into its operand, as in `-x^2`, and belongs to the right operand behind any binary one. |
| `Priorities.GrammarExact` | DDServerFramework/3rdparty/lua-5.1.4/src/lparser.c:810-852 | An expression is read as a tree if and only if that is its tree in the grammar of section 2.5.6 of the reference manual, which has a level for each precedence and names no priorities. |
| `Priorities.Parser.ReadSubExpr` | DDServerFramework/3rdparty/lua-5.1.4/src/lparser.c:828-852 | In place: the loop reads the tree of the definition and leaves the tokens behind it. |
| `Chunk.UndumpExact` | DDServerFramework/3rdparty/lua-5.1.4/src/lundump.c:161-181 | Undumping a dump gives the function back, or with `strip` the function without debug information and with all sources `=?`, if and only if the verifier accepts what comes back, the nesting is within its limit, and without `strip` no source is null. |
| `Chunk.StripLoads` | DDServerFramework/3rdparty/lua-5.1.4/src/ldump.c:111-127 | A function that comes back whole comes back with `strip`: the verifier does not depend on what is erased. |
| `Chunk.LoadedAccepted` | DDServerFramework/3rdparty/lua-5.1.4/src/lundump.c:161-181 | Whatever bytes are loaded, every function that comes out was accepted by the verifier, nested ones included, and is not nested too deep. |
| `ChunkFormat.ChunkBytes` | DDServerFramework/3rdparty/lua-5.1.4/src/ldump.c:55-165 | A chunk with one of everything, whole and stripped, byte by byte: signature, strings with their sizes, integers, code, constants by their tags, nested functions and debug information in their order. |
| `ChunkFormat.HeaderRule` | DDServerFramework/3rdparty/lua-5.1.4/src/lundump.c:183-190 | A chunk that is too short for the signature, or has another one, is refused. |
| `ChunkFormat.IntRule` | DDServerFramework/3rdparty/lua-5.1.4/src/lundump.c:61-67 | Four bytes are read as an integer, least significant first, unless its sign bit is set. |
| `ChunkFormat.ConstantRule` | DDServerFramework/3rdparty/lua-5.1.4/src/lundump.c:100-128 | Constants are read by their tags, any byte but zero as true; another tag is an error. |
| `ChunkFormat.DepthRule` | DDServerFramework/3rdparty/lua-5.1.4/src/lundump.c:161-164 | With 200 calls active no function is loaded. |
| `ChunkState.DumpState.DumpChunk` | DDServerFramework/3rdparty/lua-5.1.4/src/ldump.c:153-165 | In place: writes the bytes of the definition, header first. |
| `ChunkState.DumpState.DumpFunctionOf` | DDServerFramework/3rdparty/lua-5.1.4/src/ldump.c:129-141 | In place: a source that is the source of the parent, or any with `strip`, is left out. |
| `ChunkState.LoadState.LoadChunk` | DDServerFramework/3rdparty/lua-5.1.4/src/lundump.c:195-209 | In place: reads what the definition reads, and raises its error for every malformed input. |
| `ChunkState.LoadState.LoadFunctionOf` | DDServerFramework/3rdparty/lua-5.1.4/src/lundump.c:161-181 | In place: a missing source is that of the parent, and the count of nested calls is as before on success. |
| `PacketStream.ChunksDoNotMatter` | DDServerFramework/src/Common/UsePacketExtNetSession.cpp:5-37 | However a stream is cut into chunks, each unused tail put before the next chunk, the packets are those of the whole stream; they and the last tail make up the stream. |
| `PacketStream.CutMore` | DDServerFramework/src/Common/UsePacketExtNetSession.cpp:5-37 | Bytes that arrive later change no packet that was cut already. |
| `PacketStream.CutExact` | DDServerFramework/src/Common/UsePacketExtNetSession.cpp:5-37 | The packets are those of which the stream consists, each with the length that its head tells, and what is left is no whole packet, or has a length that is less than that of a head. |
| `PacketStream.Session.OnMsg` | DDServerFramework/src/Common/UsePacketExtNetSession.cpp:5-37 | In place: delivers exactly the whole packets at the front of the buffer, in order, and returns how many bytes they have. |

## Left out

- GcGarbage.FullGcExact: assumes that no userdata has or awaits a finalizer, because a finalizer may run any code during the collection; with finalizers the invariant and safety are proved, not the exact contents.
- CodeGenExact.ValueExact: the converse is for expressions that use each variable and comparison once, and of whose variables the ways in tell nothing (no test of a pending jump and no LOADNIL just before); an expression that repeats a variable can be right by coincidence. Where a constant hides a comparison that gets a stale operand, as in `cmp and nil`, the value can be right all the same, and only the sufficient half is proved (`CodeGenTheorem.ActIsEval`, for all expressions and states).
- CodeGenExact.BranchExact: the same, with constants that hide comparisons left out only within the operands of other comparisons. The meaning of a comparison is any relation, another one at each place, as a metamethod may give any answer; so right in all environments means for all relations.
- GcSafety.RunIsSafe: the two whites, colours and lists are modelled, the pacing of steps (threshold, estimate, debt) is not: runs may take a step at any time.
- GcCollector.Collector.CallFinalizer: the call itself is left out; its effects are operations that may follow the step. Between the steps of one full collection none follow.
- GcCollector.Collector.FreeObj: the order within the freeing of a thread (upvalues closed, then the stack freed) is one step.
- The weak mode of a table is a field of the table that stores may change; it is not read from a metatable.
- `checkSizes` and `luaD_reallocstack` shrink buffers; only the resizing of the string table is modelled, as an operation of the program that may happen at any time.
- `lua_setupvalue` and other stores of the C interface are stores like those of the interpreter.
- TableModel.Table.Put: sizes beyond 2^26 raise errors in the source; here a table is asked to be small enough before a new key.
- TableModel.Table.Resize: `luaH_resizearray`, which shrinks from outside, and dead keys (they compare by address) are left out; keys are abstract values with a hash.
- Floating point keys and NaN are told apart only as far as tables do; number formatting and constant folding are left out.
- CodeGenTheorem.ValueTheorem: arithmetic, calls, indexed variables and globals as operands are left out, as they leave no jumps; so are limits on registers, constants and jump distances, which raise errors. Other instructions in earlier code are opaque words, and no run that begins here comes to one.
- CodeGenerator.FuncState.Expression: register and constant overflow, and line information, are left out.
- GcWeak.FullGcLeaves: the same assumption on finalizers; with them `GcWeak.AtomicClears` says what each clearing does, by the marks that it finds.
- Machine.ChangesExact: the tracing of `symbexec` does not notice all registers that loops, concatenations and varargs write; it serves names in messages only, and the model follows it.
- PatternRules.ClassMeans: a range that ends with `%` is not among the sets that are written; the matcher and `MatchIsFirst` are on all patterns.
- SubstitutionRules.ReplacementRule: a lone `%` at the end of a replacement, which adds the zero behind it, is not among the parts.
- Machine.RunIsSound: register use of TFORLOOP above its checked range is not claimed; values, calls and metamethods are not modelled.
- Matcher.MatchState.Match: the C stack that deep patterns use is not modelled; character classes are those of the C locale.
- Substitution.StrGsub: only a replacement string, not a table or a function; `gmatch` is left out.
- Quoted.Lexer.ReadString: the rest of the lexer, and its token buffer with the delimiters, are left out.
- Sort.AuxSort: the order is a function on values; a comparison that is no strict weak order, or changes the table, is left out.
- Priorities.Parser.ReadSubExpr: a simple expression is one token or an expression in parentheses; the limit on nesting is left out.
- Chunk.UndumpExact: numbers are eight bytes that are not interpreted, the header is that of a little-endian machine with 8-byte sizes, a null string constant reads as an empty one, and writers never fail.
- PacketStream.Session.OnMsg: the width of the head and the reading of the length are parameters, as `packet.h` is not part of this model; the head has at least one byte.
- Sockets, threads, sessions, protobuf messages and msgpack are not part of this model.

# FindExits — a Dafny model

FindExits is an LLVM function pass (transforms/FindExits.cpp). For every
basic block of a function whose terminator has no successor blocks (a `ret`,
an `unreachable`, ...), it splices a call `__VERIFIER_silent_exit(0)` into the
block immediately before the terminator and gives that call the terminator's
metadata. For every block it visits, it looks up or declares the module-level
function `__VERIFIER_silent_exit : (i32) -> void` and flags it `noreturn`.

The model has three modules:

- `IR` (ir.dfy): the part of the host IR the pass touches. An instruction is
  a `Call`, some other non-terminator `Op`, or a `Term`inator with its list of
  successor blocks. A well-formed block is a non-empty instruction sequence
  whose last instruction, and only that one, is a terminator. `Module` is a
  class holding the declaration table (`map<string, Decl>`, keyed by name).
  `BasicBlock` is a class holding the block's instruction sequence, which the
  pass reassigns in place. `Function` is a class holding its blocks in layout
  order; the pass never adds, removes or reorders blocks, so that list is a
  constant. The table operations `getOrInsertFunction` and `addFnAttr` and
  the splice `insertBefore` are functions on values, and class methods
  perform them in place. The metadata copy is a function on values that
  `ProcessBlock` applies to the new call before splicing it in.
- `FindExits` (find_exits.dfy): the pass. `Instrument`, `InstrumentAll` and
  `DeclareSilentExit` say what a visit does to a block, to a function's
  blocks and to the declaration table. `ProcessBlock` and `RunOnFunction`
  follow the source statement by statement and are proved against those
  functions.
- `FindExitsProperties` and `FindExitsScenarios` (find_exits_properties.dfy):
  lemmas over the specification functions, and two worked examples of
  `RunOnFunction` (`LoneReturnBlock`, `SelfLoopBlock`).

Three points of the code's behaviour are easy to misread. The model follows
the code in each:

- A pass's `runOnFunction` result is meant to report whether the function
  changed. This pass always returns false, even when it inserted calls,
  because `modified` is assigned only inside commented-out code
  (transforms/FindExits.cpp:47-53, 57, 98, 103). `ProcessBlock` and
  `RunOnFunction` both ensure a false result.
- The registration text (transforms/FindExits.cpp:108-110) speaks of exits
  only, yet the declaration is added for every visited block, before the
  terminal test (transforms/FindExits.cpp:62-75). So a function whose blocks
  all have successors still adds the declaration to the module, as long as
  it has at least one block. `FindExitsScenarios.SelfLoopBlock` is a worked
  example of this.
- Nothing in the code checks for an earlier call before inserting one, so a
  second run inserts a second call. `SecondRunAddsSecondCall` proves this.

## Model

| member | source | states |
|---|---|---|
| IR.InsertBefore | transforms/FindExits.cpp:79 | the new instruction sits at index k; the elements before k stay where they were; those from k on move up by one in the same order; the length grows by one |
| IR.GetOrInsert | transforms/FindExits.cpp:62-67 | the name is in the table afterwards; an existing entry with that name is returned untouched; otherwise the new declaration is added; the only key that can be added is that name; no other entry changes |
| IR.WithAttr | transforms/FindExits.cpp:73 | the named declaration gains the attribute and keeps its signature and its other attributes; the keys and all other entries are unchanged |
| IR.CloneMetadata | transforms/FindExits.cpp:77-78 | the new call carries the terminator's metadata and is otherwise unchanged |
| IR.Module.GetOrInsertFunction | transforms/FindExits.cpp:62-72 | the table becomes the get-or-insert of the name with signature `ret(params)` and no attributes; the handle returned is the declaration under that name |
| IR.Module.AddFnAttr | transforms/FindExits.cpp:73 | the table becomes the old table with the attribute added to that one declaration |
| IR.BasicBlock.Back | transforms/FindExits.cpp:77 | the block's last instruction is its terminator |
| IR.BasicBlock.NoSuccessors | transforms/FindExits.cpp:75 | true exactly when the terminator's successor list is empty |
| IR.BasicBlock.InsertBeforeBack | transforms/FindExits.cpp:79 | the instruction is spliced in at the index just before the terminator, and the block stays well formed |
| FindExits.Instrument | transforms/FindExits.cpp:75-80 | a block with no successors gains exactly one instruction, at the index where its terminator was. That instruction calls `__VERIFIER_silent_exit` with the single argument i32 0 and carries the terminator's metadata. The earlier instructions keep their places, and the unchanged terminator stays last. A block with successors is returned unchanged. Well-formedness and terminal status are preserved either way |
| FindExits.DeclareSilentExit | transforms/FindExits.cpp:61-73 | after one visit the table holds `__VERIFIER_silent_exit` flagged NoReturn, with at most that one key added. A fresh entry is `(i32) -> void`. A pre-existing entry keeps its signature and attributes and gains NoReturn. Other entries are unchanged |
| FindExits.InstrumentAll | transforms/FindExits.cpp:49-51 | the function keeps its number of blocks, and every block is the instrumented form of the block at the same index |
| FindExits.ProcessBlock | transforms/FindExits.cpp:56-104 | the block's instructions become `Instrument` of the old ones and the module's table becomes `DeclareSilentExit` of the old one, on every call, terminal or not; the result is false |
| FindExits.RunOnFunction | transforms/FindExits.cpp:45-54 | the function keeps the same block objects in the same order, and each block's instructions are instrumented. The table is declared-once if the function has at least one block and untouched otherwise. The ORed result is false |
| FindExits.DeclareSilentExitIdempotent | transforms/FindExits.cpp:62-73 | declaring a second time leaves the table as after the first |
| FindExitsProperties.InstrumentAddsOneExit | transforms/FindExits.cpp:75-79 | a visit adds exactly one call to the silent exit to a block without successors and none to any other block; calls to other functions are not affected |
| FindExitsProperties.ExactlyOneExitBeforeTerminator | transforms/FindExits.cpp:75-79 | a terminal block without a prior silent-exit call ends with exactly one, immediately before its unchanged terminator |
| FindExitsProperties.SecondRunAddsSecondCall | transforms/FindExits.cpp:75-79 | instrumenting an instrumented terminal block changes it again: two adjacent silent-exit calls, and two more calls than originally |
| FindExitsProperties.InstrumentAllAddsOnePerTerminal | transforms/FindExits.cpp:49-79 | across a function, the number of silent-exit calls grows by exactly the number of blocks without successors |
| FindExitsProperties.TerminalBlocksPreserved | transforms/FindExits.cpp:49-75 | the number of blocks is unchanged, the set of terminal block indices is the same before and after, and every block keeps its terminator as its last instruction |
| FindExitsProperties.DeclareTimesIsOnce | transforms/FindExits.cpp:49-73 | declaring once per visited block, any positive number of times, gives the table after one declaration, with at most one more entry than before |
| FindExitsScenarios.LoneTerminator | transforms/FindExits.cpp:75-79 | a block consisting of a `ret` becomes `[call __VERIFIER_silent_exit(0), ret]`, and a block consisting of a branch with a target is unchanged |
| FindExitsScenarios.DeclareIntoEmptyModule | transforms/FindExits.cpp:62-73 | in a module with no declarations, the silent exit becomes the only entry, `(i32) -> void` and NoReturn |

## Left out

- The LLVM API surface is not modelled: `LLVMContext`, `Type::getInt32Ty`, the result type of `getOrInsertFunction`, `cast<Function>`, and the `LLVM_VERSION_MAJOR` branches. Types are the tags `Void` and `Int(32)`. The callee handle is the declaration's name.
- `CloneMetadata` is defined in a file that is not part of this model. It is modelled as copying the terminator's metadata map onto the new call. Its boolean result is ignored, as the pass ignores it.
- A pre-existing declaration of `__VERIFIER_silent_exit` with a different type is not modelled. The callee is then not a function of the requested type: depending on the LLVM version, the cast at transforms/FindExits.cpp:69 or :71 fails, or the call built at transforms/FindExits.cpp:76 is ill-typed. The model treats every pre-existing entry as the callee and only adds `NoReturn` to it.
- The commented-out instrumentation of calls to non-returning functions (transforms/FindExits.cpp:82-101) is dead code and is not modelled.
- Pass registration and the static pass `ID` (transforms/FindExits.cpp:108-111) are driver glue and are not modelled.
- What `noreturn` means at run time is not modelled. It is only an attribute in the declaration's attribute set.
- Malformed blocks are not handled. `ProcessBlock` requires a well-formed block, meaning non-empty and ending in its only terminator, because the host IR does not permit any other block and the pass does not check. The same holds for `RunOnFunction`: its blocks must be distinct objects in the same module.
- Instruction identity is value equality. Two equal instructions in a block are not distinguished.

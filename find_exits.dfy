/**
 The FindExits function pass: in every basic block whose terminator has no
 successors, a call `__VERIFIER_silent_exit(0)` is spliced in immediately
 before the terminator, carrying the terminator's metadata; the callee is
 declared in the module (`(i32) -> void`, `noreturn`) whenever a block is
 visited.

 The pure functions below say what one visit does to a block and to the
 declaration table; the methods ProcessBlock and RunOnFunction perform the
 same steps in place and are proved against them.
 */
module FindExits {
  import opened IR

  /** The runtime symbol the pass calls. */
  const SilentExitName: string := "__VERIFIER_silent_exit"

  /** The type of its single argument. */
  const ArgTy: Ty := Int(32)

  /** The call the pass builds: the silent exit with the `i32` constant 0, carrying `md`. */
  function SilentExitCall(md: Metadata): Instr
  {
    Call(SilentExitName, [ConstInt(ArgTy, 0)], md)
  }

  /**
   What one visit does to a block's instructions: a block with no successors
   gets the silent-exit call right before its (unchanged) terminator, with the
   terminator's metadata; any other block is left as it is.
   */
  function Instrument(b: seq<Instr>): (r: seq<Instr>)
    requires WellFormed(b)
    ensures WellFormed(r)
    ensures Last(r) == Last(b)
    ensures IsTerminal(r) <==> IsTerminal(b)
    ensures !IsTerminal(b) ==> r == b
    ensures IsTerminal(b) ==>
      && |r| == |b| + 1
      && r[|b| - 1].Call?
      && r[|b| - 1].callee == SilentExitName
      && r[|b| - 1].args == [ConstInt(Int(32), 0)]
      && r[|b| - 1].md == Last(b).md
      && (forall j :: 0 <= j < |b| - 1 ==> r[j] == b[j])
  {
    if IsTerminal(b) then InsertBefore(b, |b| - 1, SilentExitCall(Last(b).md)) else b
  }

  /**
   What one visit does to the module's declaration table: the silent exit is
   looked up or declared as `(i32) -> void`, then flagged `NoReturn`. The
   table afterwards holds the name exactly once, a pre-existing declaration
   keeps its signature, and nothing else changes.
   */
  function DeclareSilentExit(decls: map<string, Decl>): (r: map<string, Decl>)
    ensures SilentExitName in r && NoReturn in r[SilentExitName].attrs
    ensures r.Keys == decls.Keys + {SilentExitName}
    ensures SilentExitName !in decls ==> r[SilentExitName] == Decl(Void, [Int(32)], {NoReturn})
    ensures SilentExitName in decls ==>
      r[SilentExitName] == decls[SilentExitName].(attrs := decls[SilentExitName].attrs + {NoReturn})
    ensures forall n :: n in decls && n != SilentExitName ==> r[n] == decls[n]
  {
    WithAttr(GetOrInsert(decls, SilentExitName, Decl(Void, [ArgTy], {})), SilentExitName, NoReturn)
  }

  /** Every block of a function is well formed. */
  predicate AllWellFormed(bs: seq<seq<Instr>>)
  {
    forall i :: 0 <= i < |bs| ==> WellFormed(bs[i])
  }

  /** What the pass does to a function's blocks: each is instrumented on its own. */
  function InstrumentAll(bs: seq<seq<Instr>>): (r: seq<seq<Instr>>)
    requires AllWellFormed(bs)
    ensures |r| == |bs| && AllWellFormed(r)
    ensures forall i :: 0 <= i < |bs| ==> r[i] == Instrument(bs[i])
  {
    if bs == [] then [] else [Instrument(bs[0])] + InstrumentAll(bs[1..])
  }

  /**
   One visit of a block (`processBlock`): declares the silent exit in the
   block's module, then instruments the block if it has no successors. The
   flag it returns is never set.
   */
  method ProcessBlock(B: BasicBlock) returns (modified: bool)
    requires B.Valid()
    modifies B, B.parentModule
    ensures B.Valid()
    ensures !modified
    ensures B.instrs == Instrument(old(B.instrs))
    ensures B.parentModule.decls == DeclareSilentExit(old(B.parentModule.decls))
  {
    modified := false;
    var M := B.parentModule;
    var exitF := M.GetOrInsertFunction(SilentExitName, Void, [ArgTy]);
    M.AddFnAttr(exitF, NoReturn);
    if B.NoSuccessors() {
      var newCall := Call(exitF, [ConstInt(ArgTy, 0)], map[]);
      var back := B.Back();
      newCall := CloneMetadata(back, newCall);
      B.InsertBeforeBack(newCall);
    }
  }

  /**
   The pass over one function (`runOnFunction`): visits every block in order
   and ORs the per-block flags. The blocks themselves, their number and order
   stay (the block list is a constant); each block's instructions become its instrumented form; the module
   gains the declaration as soon as one block is visited; the result is false.
   */
  method RunOnFunction(F: Function) returns (modified: bool)
    requires F.Valid()
    modifies F.blocks, F.parentModule
    ensures F.Valid()
    ensures !modified
    ensures F.Contents() == InstrumentAll(old(F.Contents()))
    ensures F.parentModule.decls ==
      if |F.blocks| == 0 then old(F.parentModule.decls) else DeclareSilentExit(old(F.parentModule.decls))
  {
    ghost var before := F.Contents();
    ghost var decls := F.parentModule.decls;
    var blocks := F.blocks;
    modified := false;
    var i := 0;
    while i < |blocks|
      invariant 0 <= i <= |blocks|
      invariant forall k :: 0 <= k < i ==> blocks[k].Valid() && blocks[k].instrs == Instrument(before[k])
      invariant forall k :: i <= k < |blocks| ==> blocks[k].instrs == before[k]
      invariant !modified
      invariant F.parentModule.decls == if i == 0 then decls else DeclareSilentExit(decls)
    {
      var changed := ProcessBlock(blocks[i]);
      DeclareSilentExitIdempotent(decls);
      modified := modified || changed;
      i := i + 1;
    }
    assert F.Contents() == InstrumentAll(before);
  }

  /** Declaring the silent exit a second time changes nothing. */
  lemma DeclareSilentExitIdempotent(decls: map<string, Decl>)
    ensures DeclareSilentExit(DeclareSilentExit(decls)) == DeclareSilentExit(decls)
  {
  }
}

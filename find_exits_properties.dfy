/**
 Properties of the FindExits pass stated over its specification functions
 (Instrument, InstrumentAll, DeclareSilentExit): how many silent-exit calls a
 block and a function hold afterwards, that terminal status is kept, that a
 second run is not idempotent, and that repeated declaration adds one entry
 at most.
 */
module FindExitsProperties {
  import opened IR
  import opened FindExits

  /** Number of calls to `callee` in a block. */
  function CallsTo(b: seq<Instr>, callee: string): nat
  {
    if b == [] then 0
    else (if b[0].Call? && b[0].callee == callee then 1 else 0) + CallsTo(b[1..], callee)
  }

  lemma {:induction false} CallsToConcat(a: seq<Instr>, b: seq<Instr>, callee: string)
    ensures CallsTo(a + b, callee) == CallsTo(a, callee) + CallsTo(b, callee)
  {
    if a == [] {
      assert a + b == b;
    } else {
      assert (a + b)[1..] == a[1..] + b;
      CallsToConcat(a[1..], b, callee);
    }
  }

  /**
   A visit adds exactly one call to the silent exit when the block has no
   successors and none otherwise; calls to any other function are untouched.
   */
  lemma {:induction false} InstrumentAddsOneExit(b: seq<Instr>, callee: string)
    requires WellFormed(b)
    ensures CallsTo(Instrument(b), callee) ==
      CallsTo(b, callee) + (if IsTerminal(b) && callee == SilentExitName then 1 else 0)
  {
    if IsTerminal(b) {
      var k := |b| - 1;
      var r := Instrument(b);
      assert r == b[..k] + [SilentExitCall(Last(b).md)] + b[k..];
      CallsToConcat(b[..k] + [SilentExitCall(Last(b).md)], b[k..], callee);
      CallsToConcat(b[..k], [SilentExitCall(Last(b).md)], callee);
      CallsToConcat(b[..k], b[k..], callee);
      assert b[..k] + b[k..] == b;
    }
  }

  /**
   A block with no successors and no earlier silent-exit call ends up with
   exactly one, placed immediately before the terminator.
   */
  lemma ExactlyOneExitBeforeTerminator(b: seq<Instr>)
    requires WellFormed(b) && IsTerminal(b) && CallsTo(b, SilentExitName) == 0
    ensures var r := Instrument(b);
      && CallsTo(r, SilentExitName) == 1
      && r[|r| - 2] == SilentExitCall(Last(b).md)
      && r[|r| - 1] == Last(b)
  {
    InstrumentAddsOneExit(b, SilentExitName);
  }

  /**
   Nothing stops a second run: visiting an already instrumented block with no
   successors inserts a second call, so the pass is not idempotent.
   */
  lemma SecondRunAddsSecondCall(b: seq<Instr>)
    requires WellFormed(b) && IsTerminal(b)
    ensures var r2 := Instrument(Instrument(b));
      && r2 != Instrument(b)
      && CallsTo(r2, SilentExitName) == CallsTo(b, SilentExitName) + 2
      && r2[|b| - 1] == SilentExitCall(Last(b).md)
      && r2[|b|] == SilentExitCall(Last(b).md)
  {
    InstrumentAddsOneExit(b, SilentExitName);
    InstrumentAddsOneExit(Instrument(b), SilentExitName);
  }

  /** Silent-exit calls over all blocks of a function. */
  function ExitCalls(bs: seq<seq<Instr>>): nat
  {
    if bs == [] then 0 else CallsTo(bs[0], SilentExitName) + ExitCalls(bs[1..])
  }

  /** Number of blocks with no successors. */
  function TerminalCount(bs: seq<seq<Instr>>): nat
    requires AllWellFormed(bs)
  {
    if bs == [] then 0 else (if IsTerminal(bs[0]) then 1 else 0) + TerminalCount(bs[1..])
  }

  /** The pass adds one silent-exit call per block with no successors, and no more. */
  lemma {:induction false} InstrumentAllAddsOnePerTerminal(bs: seq<seq<Instr>>)
    requires AllWellFormed(bs)
    ensures ExitCalls(InstrumentAll(bs)) == ExitCalls(bs) + TerminalCount(bs)
  {
    if bs != [] {
      var r := InstrumentAll(bs);
      assert r[1..] == InstrumentAll(bs[1..]);
      InstrumentAddsOneExit(bs[0], SilentExitName);
      InstrumentAllAddsOnePerTerminal(bs[1..]);
    }
  }

  /** Indices of the blocks with no successors. */
  function TerminalBlocks(bs: seq<seq<Instr>>): set<nat>
    requires AllWellFormed(bs)
  {
    set i | 0 <= i < |bs| && IsTerminal(bs[i])
  }

  /**
   The pass keeps the number and order of blocks, and the same blocks have
   no successors afterwards; each of them still ends in its own terminator.
   */
  lemma TerminalBlocksPreserved(bs: seq<seq<Instr>>)
    requires AllWellFormed(bs)
    ensures var r := InstrumentAll(bs);
      && |r| == |bs|
      && TerminalBlocks(r) == TerminalBlocks(bs)
      && forall i :: 0 <= i < |bs| ==> Last(r[i]) == Last(bs[i])
  {
  }

  /** `k` successive declarations, one per visited block. */
  function DeclareTimes(decls: map<string, Decl>, k: nat): map<string, Decl>
  {
    if k == 0 then decls else DeclareSilentExit(DeclareTimes(decls, k - 1))
  }

  /**
   However many blocks are visited, the table ends as after the first visit:
   one entry named after the silent exit, flagged `NoReturn`, and at most one
   key more than before.
   */
  lemma {:induction false} DeclareTimesIsOnce(decls: map<string, Decl>, k: nat)
    requires k > 0
    ensures DeclareTimes(decls, k) == DeclareSilentExit(decls)
    ensures |DeclareTimes(decls, k).Keys| == |decls.Keys| + (if SilentExitName in decls then 0 else 1)
  {
    if k > 1 {
      DeclareTimesIsOnce(decls, k - 1);
      DeclareSilentExitIdempotent(decls);
    }
    var r := DeclareSilentExit(decls);
    if SilentExitName in decls {
      assert r.Keys == decls.Keys;
    } else {
      assert r.Keys == decls.Keys + {SilentExitName};
    }
  }
}

/**
 Two worked examples of RunOnFunction on fresh modules: a lone `ret` block
 is instrumented and the pass still answers false; a lone self-loop block is
 left alone, yet the module gains the declaration all the same.
 */
module FindExitsScenarios {
  import opened IR
  import opened FindExits

  /** A block made of one terminator: instrumented iff the terminator has no successors. */
  lemma LoneTerminator(t: Instr)
    requires t.Term?
    ensures Instrument([t]) == if t.succs == [] then [SilentExitCall(t.md), t] else [t]
  {
    if t.succs == [] {
      assert [t][..0] + [SilentExitCall(t.md)] + [t][0..] == [SilentExitCall(t.md), t];
    }
  }

  /** In a module without declarations, the silent exit is the only entry afterwards. */
  lemma DeclareIntoEmptyModule()
    ensures DeclareSilentExit(map[]) == map[SilentExitName := Decl(Void, [Int(32)], {NoReturn})]
  {
  }

  method LoneReturnBlock()
  {
    var m := new Module(map[]);
    var ret := Term("ret", [], map[0 := 7]);
    var b := new BasicBlock(m, [ret]);
    var f := new Function(m, [b]);
    var modified := RunOnFunction(f);
    assert b.instrs == Instrument([ret]) by { assert f.Contents()[0] == b.instrs; }
    LoneTerminator(ret);
    assert b.instrs == [SilentExitCall(ret.md), ret];
    assert !modified;
    assert m.decls == DeclareSilentExit(map[]) by { assert |f.blocks| == 1; }
    DeclareIntoEmptyModule();
    assert m.decls == map[SilentExitName := Decl(Void, [Int(32)], {NoReturn})];
  }

  method SelfLoopBlock()
  {
    var m := new Module(map[]);
    var br := Term("br", [0], map[]);
    var b := new BasicBlock(m, [br]);
    var f := new Function(m, [b]);
    var modified := RunOnFunction(f);
    assert b.instrs == Instrument([br]) by { assert f.Contents()[0] == b.instrs; }
    assert !IsTerminal([br]);
    assert b.instrs == [br];
    assert !modified;
    assert m.decls == DeclareSilentExit(map[]) by { assert |f.blocks| == 1; }
    DeclareIntoEmptyModule();
    assert m.decls == map[SilentExitName := Decl(Void, [Int(32)], {NoReturn})];
  }
}

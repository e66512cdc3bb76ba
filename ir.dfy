/**
 The slice of the host compiler's intermediate representation that the
 FindExits pass reads and mutates: instructions, basic blocks, functions and
 the module's table of function declarations. Types, callees and metadata are
 abstract tags; only what the pass observes is kept.
 */
module IR {

  /** Types the pass mentions: the `void` result and the `i32` argument. */
  datatype Ty = Void | Int(width: nat) | OtherTy(name: string)

  /** Function attributes; the pass only ever adds `NoReturn`. */
  datatype FnAttr = NoReturn | OtherAttr(name: string)

  /** Operands of an instruction: an integer constant of a given type, or any other value. */
  datatype Value = ConstInt(ty: Ty, v: int) | Ref(id: nat)

  /** Metadata attached to an instruction: metadata kind id to metadata node. */
  type Metadata = map<nat, nat>

  /** Index of a basic block inside its function. */
  type BlockId = nat

  /**
   An instruction. A `Term` is a block terminator (ret, br, switch,
   unreachable, ...) with the list of its successor blocks; `Call` and `Op`
   never end a block.
   */
  datatype Instr =
    | Call(callee: string, args: seq<Value>, md: Metadata)
    | Op(opcode: string, operands: seq<Value>, md: Metadata)
    | Term(opcode: string, succs: seq<BlockId>, md: Metadata)

  /** A declaration in the module's symbol table: signature and attributes. */
  datatype Decl = Decl(ret: Ty, params: seq<Ty>, attrs: set<FnAttr>)

  /** The successor targets of an instruction; only terminators have any. */
  function Successors(i: Instr): seq<BlockId>
  {
    if i.Term? then i.succs else []
  }

  /** A well-formed block: non-empty, ends in exactly one terminator. */
  predicate WellFormed(b: seq<Instr>)
  {
    && |b| > 0
    && b[|b| - 1].Term?
    && forall k :: 0 <= k < |b| - 1 ==> !b[k].Term?
  }

  /** The block's last instruction (`BasicBlock::back`). */
  function Last(b: seq<Instr>): (t: Instr)
    requires WellFormed(b)
    ensures t.Term?
  {
    b[|b| - 1]
  }

  /** A block with no successors: its terminator names no target. */
  predicate IsTerminal(b: seq<Instr>)
    requires WellFormed(b)
  {
    Successors(Last(b)) == []
  }

  /**
   Splices `x` into `s` immediately before position `k`
   (`Instruction::insertBefore`): `x` lands at index `k`, what was before it
   stays, what was at `k` and after moves up by one, in the same order: taking
   index `k` out again gives back `s`.
   */
  function InsertBefore<T>(s: seq<T>, k: nat, x: T): (r: seq<T>)
    requires k < |s|
    ensures |r| == |s| + 1
    ensures r[k] == x
    ensures forall j :: 0 <= j < k ==> r[j] == s[j]
    ensures forall j :: k <= j < |s| ==> r[j + 1] == s[j]
  {
    s[..k] + [x] + s[k..]
  }

  /**
   `Module::getOrInsertFunction` on the table: an existing entry named `name`
   is returned untouched; otherwise `d` is added under that name. No other
   entry changes and at most one key is added.
   */
  function GetOrInsert(decls: map<string, Decl>, name: string, d: Decl): (r: map<string, Decl>)
    ensures name in r
    ensures r.Keys == decls.Keys + {name}
    ensures name in decls ==> r == decls
    ensures name !in decls ==> r[name] == d
    ensures forall n :: n in decls ==> n in r && r[n] == decls[n]
  {
    if name in decls then decls else decls[name := d]
  }

  /**
   `Function::addFnAttr` on the table: the entry named `name` gains attribute
   `a`, keeps its signature and other attributes; no other entry changes.
   */
  function WithAttr(decls: map<string, Decl>, name: string, a: FnAttr): (r: map<string, Decl>)
    requires name in decls
    ensures r.Keys == decls.Keys
    ensures a in r[name].attrs && r[name].attrs == decls[name].attrs + {a}
    ensures r[name].ret == decls[name].ret && r[name].params == decls[name].params
    ensures forall n :: n in decls && n != name ==> r[n] == decls[n]
  {
    decls[name := decls[name].(attrs := decls[name].attrs + {a})]
  }

  /**
   The metadata-cloning helper: the new instruction takes over the metadata
   of `from` and is otherwise the instruction it was.
   */
  function CloneMetadata(from: Instr, to: Instr): (r: Instr)
    ensures r.md == from.md
    ensures r.(md := to.md) == to
  {
    to.(md := from.md)
  }

  /** The module: its table of function declarations, keyed by name. */
  class Module {
    var decls: map<string, Decl>

    constructor (decls: map<string, Decl>)
      ensures this.decls == decls
    {
      this.decls := decls;
    }

    /** Looks `name` up and declares it with the given signature when absent. */
    method GetOrInsertFunction(name: string, ret: Ty, params: seq<Ty>) returns (callee: string)
      modifies this
      ensures callee == name && callee in decls
      ensures decls == GetOrInsert(old(decls), name, Decl(ret, params, {}))
    {
      decls := GetOrInsert(decls, name, Decl(ret, params, {}));
      callee := name;
    }

    /** Adds a function attribute to the declaration named `fn`. */
    method AddFnAttr(fn: string, a: FnAttr)
      requires fn in decls
      modifies this
      ensures decls == WithAttr(old(decls), fn, a)
    {
      decls := WithAttr(decls, fn, a);
    }
  }

  /** A basic block: its instruction list, and the module it lives in. */
  class BasicBlock {
    var instrs: seq<Instr>
    const parentModule: Module

    ghost predicate Valid()
      reads this
    {
      WellFormed(instrs)
    }

    constructor (parentModule: Module, instrs: seq<Instr>)
      requires WellFormed(instrs)
      ensures Valid() && this.parentModule == parentModule && this.instrs == instrs
    {
      this.parentModule := parentModule;
      this.instrs := instrs;
    }

    /** The block's terminator. */
    function Back(): (t: Instr)
      requires Valid()
      reads this
      ensures t == Last(instrs)
    {
      instrs[|instrs| - 1]
    }

    /** Whether the successor range of the block is empty. */
    function NoSuccessors(): (b: bool)
      requires Valid()
      reads this
      ensures b <==> IsTerminal(instrs)
    {
      Successors(Back()) == []
    }

    /** Splices `x` in immediately before the terminator. */
    method InsertBeforeBack(x: Instr)
      requires Valid() && !x.Term?
      modifies this
      ensures Valid()
      ensures instrs == InsertBefore(old(instrs), |old(instrs)| - 1, x)
    {
      instrs := InsertBefore(instrs, |instrs| - 1, x);
    }
  }

  /** A function: its basic blocks in layout order, all in one module. */
  class Function {
    const blocks: seq<BasicBlock>
    const parentModule: Module

    ghost predicate Valid()
      reads this, blocks
    {
      && (forall i, j :: 0 <= i < j < |blocks| ==> blocks[i] != blocks[j])
      && (forall i :: 0 <= i < |blocks| ==> blocks[i].parentModule == parentModule && blocks[i].Valid())
    }

    /** The instruction lists of the blocks, in order. */
    ghost function Contents(): (c: seq<seq<Instr>>)
      reads this, blocks
      ensures |c| == |blocks|
      ensures forall i :: 0 <= i < |blocks| ==> c[i] == blocks[i].instrs
    {
      seq(|blocks|, i reads this, blocks requires 0 <= i < |blocks| => blocks[i].instrs)
    }

    constructor (parentModule: Module, blocks: seq<BasicBlock>)
      requires forall i, j :: 0 <= i < j < |blocks| ==> blocks[i] != blocks[j]
      requires forall i :: 0 <= i < |blocks| ==> blocks[i].parentModule == parentModule && blocks[i].Valid()
      ensures Valid() && this.parentModule == parentModule && this.blocks == blocks
    {
      this.parentModule := parentModule;
      this.blocks := blocks;
    }
  }
}

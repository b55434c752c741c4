/** The types of LightIR, as far as the optimiser relies on them. */
module Types {
  import opened IR
  import opened FuncInfo

  /** A number, the address of numbers in memory, or the address of a slot. */
  datatype Type = NumT | AddrT | SlotT(slot: SlotType)

  /** The types of the registers of a function. */
  type Types = map<nat, Type>

  /** The parameters of every function of a module. */
  type Sigs = seq<seq<ParamType>>

  function TypeOfParam(p: ParamType): Type {
    if p.PtrParam? then AddrT else NumT
  }

  function TypeOf(params: seq<ParamType>, types: Types, o: Operand): Option<Type> {
    match o
    case ConstInt(_) => Some(NumT)
    case ConstFp(_) => Some(NumT)
    case Arg(i) => if i < |params| then Some(TypeOfParam(params[i])) else None
    case GlobalAddr(_) => Some(AddrT)
    case Reg(r) => if r in types then Some(types[r]) else None
  }

  function Content(s: SlotType): Type {
    if s.PtrSlot? then AddrT else NumT
  }

  /** What can be read through an address of this type. */
  function Target(t: Option<Type>): Option<Type> {
    match t case Some(AddrT) => Some(NumT) case Some(SlotT(s)) => Some(Content(s)) case _ => None
  }

  predicate Typed(params: seq<ParamType>, types: Types, o: Operand) {
    TypeOf(params, types, o).Some?
  }

  /** The instruction uses its operands as their types say, and sets a register of its type; for a call,
      see `CallTyped`. */
  predicate Fitting(params: seq<ParamType>, types: Types, i: Instr) {
    && (forall o :: o in Operands(i) ==> Typed(params, types, o))
    && (HasDst(i) ==> i.dst in types)
    && match i
       case Alloca(d, s) => types[d] == if s.ArraySlot? then AddrT else SlotT(s)
       case Load(d, p) => Target(TypeOf(params, types, p)) == Some(types[d])
       case Store(v, p) => Target(TypeOf(params, types, p)) == TypeOf(params, types, v)
       case Gep(d, b, _) => types[d] == AddrT && TypeOf(params, types, b) != Some(NumT)
       case Call(d, _, _) => types[d] == NumT
       case Ret(Some(v)) => TypeOf(params, types, v) == Some(NumT)
       case Bin(d, _, _, _) => types[d] == NumT
       case Cmp(d, _, _, _) => types[d] == NumT
       case Conv(d, _, _) => types[d] == NumT
       case _ => true
  }

  /** The arguments have the types of the parameters. */
  predicate CallTyped(sigs: Sigs, params: seq<ParamType>, types: Types, i: Instr) {
    i.Call? ==>
      && i.fn < |sigs| && |i.args| == |sigs[i.fn]|
      && forall k :: 0 <= k < |i.args| ==> TypeOf(params, types, i.args[k]) == Some(TypeOfParam(sigs[i.fn][k]))
  }

  predicate InstrTyped(sigs: Sigs, params: seq<ParamType>, types: Types, i: Instr) {
    Fitting(params, types, i) && CallTyped(sigs, params, types, i)
  }

  ghost predicate Extends(types: Types, types': Types) {
    forall r :: r in types ==> r in types' && types'[r] == types[r]
  }

  lemma FittingMore(params: seq<ParamType>, types: Types, types': Types, i: Instr)
    requires Fitting(params, types, i) && Extends(types, types')
    ensures Fitting(params, types', i)
  {
    forall o | Typed(params, types, o) ensures TypeOf(params, types', o) == TypeOf(params, types, o) {}
    if i.Load? { assert i.ptr in Operands(i); }
    if i.Store? { assert Operands(i) == [i.val, i.ptr] && i.val in Operands(i) && i.ptr in Operands(i); }
    if i.Gep? { assert Operands(i)[0] == i.base; }
    if i.Ret? && i.ret.Some? { assert i.ret.value in Operands(i); }
  }

  /** On every edge the phi takes a value of its type. */
  ghost predicate PhiTyped(params: seq<ParamType>, types: Types, n: nat, p: Phi) {
    p.dst in types
    && forall from: nat :: from < n && PairFor(p.pairs, from).Some? ==>
         TypeOf(params, types, PairFor(p.pairs, from).value) == Some(types[p.dst])
  }

  ghost predicate BlockTyped(sigs: Sigs, params: seq<ParamType>, types: Types, n: nat, k: Block) {
    && (forall p :: p in k.phis ==> PhiTyped(params, types, n, p))
    && (forall i :: i in k.body ==> InstrTyped(sigs, params, types, i))
  }

  ghost predicate CodeTyped(sigs: Sigs, params: seq<ParamType>, types: Types, f: seq<Block>) {
    forall b :: 0 <= b < |f| ==> BlockTyped(sigs, params, types, |f|, f[b])
  }

  function SigsOf(m: Module): Sigs {
    seq(|m|, k requires 0 <= k < |m| => m[k].params)
  }

  ghost predicate FunctionTyped(sigs: Sigs, fn: Function) {
    exists types :: CodeTyped(sigs, fn.params, types, fn.blocks)
  }

  ghost predicate ModuleTyped(m: Module) {
    forall f: nat :: f < |m| ==> FunctionTyped(SigsOf(m), m[f])
  }
}

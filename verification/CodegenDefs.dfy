/** Definitions in generated code dominate their uses: what SSA construction asks of its input. */
module CodegenDefs {
  import opened IR
  import opened Cminus
  import opened Codegen
  import opened CodegenCfg
  import G = Graph
  import opened CodegenStmt
  import opened Types
  import F = FuncInfo

  /** For each block some of its dominators, for each register where it is set and its type, and the
      parameters. */
  datatype Marks = Marks(dom: seq<set<nat>>, def: map<nat, (nat, nat)>, types: Types, params: seq<F.ParamType>)

  ghost function TypeIn(m: Marks, o: Operand): Option<Type> {
    TypeOf(m.params, m.types, o)
  }

  /** The type of the register that an instruction sets. */
  ghost function TypeSet(m: Marks, i: Instr): Type {
    match i
    case Alloca(_, s) => if s.ArraySlot? then AddrT else SlotT(s)
    case Load(_, p) => if Target(TypeIn(m, p)).Some? then Target(TypeIn(m, p)).value else NumT
    case Gep(_, _, _) => AddrT
    case _ => NumT
  }

  /** Operands have the types that the instruction wants. */
  ghost predicate Suits(m: Marks, i: Instr) {
    match i
    case Load(_, p) => Target(TypeIn(m, p)).Some?
    case Store(v, p) => Target(TypeIn(m, p)) == TypeIn(m, v)
    case Gep(_, b, _) => TypeIn(m, b) != Some(NumT)
    case Ret(Some(v)) => TypeIn(m, v) == Some(NumT)
    case _ => true
  }

  /** An edge adds no dominator but the block it enters. */
  ghost predicate DomOk(pred: seq<seq<nat>>, dom: seq<set<nat>>) {
    && 0 < |pred| == |dom| && dom[0] == {0}
    && (forall b: nat {:trigger dom[b]} :: b < |dom| ==> b in dom[b] && forall d :: d in dom[b] ==> d < |dom|)
    && (forall t: nat, p {:trigger p in pred[t]} :: t < |pred| && p in pred[t] ==> p < |dom| && dom[t] <= dom[p] + {t})
  }

  ghost predicate DefAt(blocks: seq<seq<Instr>>, at: (nat, nat), r: nat) {
    at.0 < |blocks| && at.1 < |blocks[at.0]| && HasDst(blocks[at.0][at.1]) && blocks[at.0][at.1].dst == r
  }

  ghost predicate DefsOk(blocks: seq<seq<Instr>>, def: map<nat, (nat, nat)>, next: nat) {
    forall r {:trigger def[r]} :: r in def ==> r < next && DefAt(blocks, def[r], r)
  }

  /** The instruction that sets a register. */
  ghost function Setter(blocks: seq<seq<Instr>>, def: map<nat, (nat, nat)>, r: nat): Option<Instr> {
    if r in def && DefAt(blocks, def[r], r) then Some(blocks[def[r].0][def[r].1]) else None
  }

  predicate IsSlot(i: Instr) {
    i.Alloca? && !i.ty.ArraySlot?
  }

  /** A global variable, the slot of a local one, or a computed address. */
  ghost predicate AddrKind(blocks: seq<seq<Instr>>, def: map<nat, (nat, nat)>, p: Operand) {
    p.GlobalAddr?
    || (p.Reg? && Setter(blocks, def, p.r).Some? && (IsSlot(Setter(blocks, def, p.r).value)
                                                     || Setter(blocks, def, p.r).value.Gep?))
  }

  /** Anything but the address of a local variable. */
  ghost predicate ValueKind(blocks: seq<seq<Instr>>, def: map<nat, (nat, nat)>, v: Operand) {
    v.Reg? ==> Setter(blocks, def, v.r).Some? && !Setter(blocks, def, v.r).value.Alloca?
  }

  /** What an alloca reserves for a variable. */
  predicate SlotFits(ty: SlotType, kind: Kind) {
    match kind
    case NumK(_) => IsNumSlot(ty)
    case PtrK(_) => ty.PtrSlot?
    case ArrK(_) => ty.ArraySlot?
  }

  /** The address of a variable: a global number or array, or what an alloca reserves. */
  ghost predicate VarKind(blocks: seq<seq<Instr>>, def: map<nat, (nat, nat)>, p: Operand, kind: Kind) {
    (p.GlobalAddr? && !kind.PtrK?)
    || (p.Reg? && Setter(blocks, def, p.r).Some? && Setter(blocks, def, p.r).value.Alloca?
        && SlotFits(Setter(blocks, def, p.r).value.ty, kind))
  }

  /** A variable, or the array that was passed for a parameter. */
  ghost predicate BaseKind(blocks: seq<seq<Instr>>, def: map<nat, (nat, nat)>, p: Operand) {
    p.GlobalAddr?
    || (p.Reg? && Setter(blocks, def, p.r).Some? && (Setter(blocks, def, p.r).value.Alloca?
                                                     || LoadsArray(blocks, def, Setter(blocks, def, p.r).value)))
  }

  ghost predicate LoadsArray(blocks: seq<seq<Instr>>, def: map<nat, (nat, nat)>, i: Instr) {
    i.Load? && i.ptr.Reg? && Setter(blocks, def, i.ptr.r).Some? && Setter(blocks, def, i.ptr.r).value.Alloca?
    && Setter(blocks, def, i.ptr.r).value.ty.PtrSlot?
  }

  ghost predicate KindsOk(blocks: seq<seq<Instr>>, def: map<nat, (nat, nat)>, i: Instr) {
    match i
    case Load(_, p) => AddrKind(blocks, def, p)
    case Store(v, p) => ValueKind(blocks, def, v) && AddrKind(blocks, def, p)
    case Gep(_, p, xs) => BaseKind(blocks, def, p) && forall x :: x in xs ==> ValueKind(blocks, def, x)
    case _ => forall o :: o in Operands(i) ==> ValueKind(blocks, def, o)
  }

  ghost predicate Avail(m: Marks, b: nat, r: nat) {
    b < |m.dom| && r in m.def && m.def[r].0 in m.dom[b]
  }

  ghost predicate InstrSound(blocks: seq<seq<Instr>>, m: Marks, b: nat, i: nat)
    requires b < |blocks| && i < |blocks[b]|
  {
    && (HasDst(blocks[b][i]) ==> blocks[b][i].dst in m.def && m.def[blocks[b][i].dst] == (b, i))
    && (forall r: nat {:trigger Uses(blocks[b][i], r)} :: Uses(blocks[b][i], r) ==>
          Avail(m, b, r) && (m.def[r].0 == b ==> m.def[r].1 < i))
    && KindsOk(blocks, m.def, blocks[b][i]) && FewSlots(m, blocks[b][i]) && Fitting(m.params, m.types, blocks[b][i])
  }

  /** Only array parameters are pointers in a slot. */
  predicate FewSlots(m: Marks, i: Instr) {
    i.Alloca? && i.ty.PtrSlot? ==> F.PtrParam in m.params
  }

  ghost predicate Sound(g: Gen, m: Marks) {
    && DomOk(g.pred, m.dom) && |g.blocks| == |m.dom| && g.cur < |g.blocks| && DefsOk(g.blocks, m.def, g.next)
    && m.types.Keys == m.def.Keys
    && forall b: nat, i: nat {:trigger InstrSound(g.blocks, m, b, i)} :: b < |g.blocks| && i < |g.blocks[b]| ==>
      InstrSound(g.blocks, m, b, i)
  }

  /** Construction takes nothing back. */
  ghost predicate Later(g: Gen, m: Marks, g': Gen, m': Marks) {
    && |m.dom| <= |m'.dom| && |g.blocks| <= |g'.blocks| && g.next <= g'.next
    && m'.params == m.params && Extends(m.types, m'.types)
    && (forall b {:trigger m'.dom[b]} :: 0 <= b < |m.dom| ==> m'.dom[b] == m.dom[b])
    && (forall r {:trigger r in m.def} :: r in m.def ==> r in m'.def && m'.def[r] == m.def[r])
    && (forall b {:trigger g'.blocks[b]} :: 0 <= b < |g.blocks| ==> g.blocks[b] <= g'.blocks[b])
  }

  /** Control has moved to a block that the one before dominates. */
  ghost predicate Below(g: Gen, m: Marks, g': Gen, m': Marks) {
    && Later(g, m, g', m') && g'.scope == g.scope
    && g.cur < |m.dom| && g'.cur < |m'.dom| && m.dom[g.cur] <= m'.dom[g'.cur]
  }

  /** New registers are new; those in `sites` are arrays. */
  ghost predicate NewDefs(m: Marks, m': Marks, sites: set<nat>, base: nat) {
    forall r {:trigger r in m'.def} :: r in m'.def ==> r in m.def || r in sites || r >= base
  }

  // ----- what stays true ------------------------------------------------------------------------------------

  lemma SetterKept(g: Gen, m: Marks, g': Gen, m': Marks, r: nat)
    requires DefsOk(g.blocks, m.def, g.next) && Later(g, m, g', m') && r in m.def
    ensures Setter(g.blocks, m.def, r).Some? && Setter(g'.blocks, m'.def, r) == Setter(g.blocks, m.def, r)
  {
    var at := m.def[r];
    assert g.blocks[at.0] <= g'.blocks[at.0];
  }

  lemma KindsKept(g: Gen, m: Marks, g': Gen, m': Marks, i: Instr)
    requires DefsOk(g.blocks, m.def, g.next) && Later(g, m, g', m') && KindsOk(g.blocks, m.def, i)
    ensures KindsOk(g'.blocks, m'.def, i)
  {
    hide Later, DefsOk;
    forall r | r in m.def
      ensures Setter(g'.blocks, m'.def, r) == Setter(g.blocks, m.def, r)
    {
      SetterKept(g, m, g', m', r);
    }
  }

  lemma LaterTrans(g: Gen, m: Marks, g1: Gen, m1: Marks, g2: Gen, m2: Marks)
    requires Later(g, m, g1, m1) && Later(g1, m1, g2, m2)
    ensures Later(g, m, g2, m2)
  {
    forall b {:trigger m2.dom[b]} | 0 <= b < |m.dom| ensures m2.dom[b] == m.dom[b] { assert m1.dom[b] == m.dom[b]; }
    forall r {:trigger r in m.def} | r in m.def
      ensures r in m2.def && m2.def[r] == m.def[r]
    {
      assert m1.def[r] == m.def[r];
    }
    forall b {:trigger g2.blocks[b]} | 0 <= b < |g.blocks|
      ensures g.blocks[b] <= g2.blocks[b]
    {
      assert g.blocks[b] <= g1.blocks[b];
    }
  }

  lemma BelowTrans(g: Gen, m: Marks, g1: Gen, m1: Marks, g2: Gen, m2: Marks)
    requires Below(g, m, g1, m1) && Below(g1, m1, g2, m2)
    ensures Below(g, m, g2, m2)
  {
    LaterTrans(g, m, g1, m1, g2, m2);
  }

  // ----- operands ---------------------------------------------------------------------------------------------

  ghost predicate Held(g: Gen, m: Marks, o: Operand) {
    (o.Reg? ==> Avail(m, g.cur, o.r)) && (o.Arg? ==> o.i < |m.params|)
  }

  /** A value that the current block can use. */
  ghost predicate ValueOk(g: Gen, m: Marks, v: Operand) {
    Held(g, m, v) && ValueKind(g.blocks, m.def, v)
  }

  ghost predicate AddrOk(g: Gen, m: Marks, p: Operand) {
    Held(g, m, p) && AddrKind(g.blocks, m.def, p)
  }

  ghost predicate BindOk(g: Gen, m: Marks, b: Binding) {
    b.Mem? ==> Held(g, m, b.addr) && VarKind(g.blocks, m.def, b.addr, b.kind)
  }

  /** Every local name stands for a slot that the current block can use. */
  ghost predicate Scoped(g: Gen, m: Marks) {
    forall k: nat, id {:trigger g.scope[k][id]} :: k < |g.scope| && id in g.scope[k] ==> BindOk(g, m, g.scope[k][id])
  }

  lemma HeldKept(g: Gen, m: Marks, g': Gen, m': Marks, o: Operand)
    requires Below(g, m, g', m') && Held(g, m, o)
    ensures Held(g', m', o)
  {
    if o.Reg? { assert m'.def[o.r] == m.def[o.r]; }
  }

  lemma OperandKept(g: Gen, m: Marks, g': Gen, m': Marks, o: Operand)
    requires Sound(g, m) && Below(g, m, g', m')
    ensures ValueOk(g, m, o) ==> ValueOk(g', m', o)
    ensures AddrOk(g, m, o) ==> AddrOk(g', m', o)
  {
    hide InstrSound;
    if Held(g, m, o) {
      HeldKept(g, m, g', m', o);
      if o.Reg? { SetterKept(g, m, g', m', o.r); }
    }
  }

  lemma VarKept(g: Gen, m: Marks, g': Gen, m': Marks, p: Operand, kind: Kind)
    requires Sound(g, m) && Below(g, m, g', m') && VarKind(g.blocks, m.def, p, kind)
    ensures VarKind(g'.blocks, m'.def, p, kind)
  {
    hide InstrSound;
    if p.Reg? { SetterKept(g, m, g', m', p.r); }
  }

  /** What the kind of a variable says of its address. */
  lemma VarIs(blocks: seq<seq<Instr>>, def: map<nat, (nat, nat)>, p: Operand, kind: Kind)
    requires VarKind(blocks, def, p, kind)
    ensures !kind.ArrK? ==> AddrKind(blocks, def, p)
    ensures BaseKind(blocks, def, p)
    ensures kind.PtrK? ==> forall d :: LoadsArray(blocks, def, Load(d, p))
  {}

  /** And what of its type. */
  lemma VarType(g: Gen, m: Marks, p: Operand, kind: Kind)
    requires Sound(g, m) && VarKind(g.blocks, m.def, p, kind)
    ensures Typed(m.params, m.types, p) && TypeIn(m, p) != Some(NumT)
    ensures match kind
      case NumK(_) => Target(TypeIn(m, p)) == Some(NumT)
      case PtrK(_) => Target(TypeIn(m, p)) == Some(AddrT)
      case ArrK(_) => TypeIn(m, p) == Some(AddrT)
  {
    hide DomOk, KindsOk;
    if p.Reg? {
      var at := m.def[p.r];
      assert InstrSound(g.blocks, m, at.0, at.1);
    }
  }

  lemma ScopedKept(g: Gen, m: Marks, g': Gen, m': Marks)
    requires Sound(g, m) && Below(g, m, g', m') && Scoped(g, m)
    ensures Scoped(g', m')
  {
    hide Sound, Below, Held, VarKind;
    assert g'.scope == g.scope by { BelowScope(g, m, g', m'); }
    forall k: nat, id {:trigger g'.scope[k][id]} | k < |g'.scope| && id in g'.scope[k]
      ensures BindOk(g', m', g'.scope[k][id])
    {
      var b := g.scope[k][id];
      if b.Mem? {
        HeldKept(g, m, g', m', b.addr);
        VarKept(g, m, g', m', b.addr, b.kind);
      }
    }
  }

  lemma BelowScope(g: Gen, m: Marks, g': Gen, m': Marks)
    requires Below(g, m, g', m')
    ensures g'.scope == g.scope
  {}

  lemma {:induction false} FindOk(g: Gen, m: Marks, scope: Scope, id: string)
    requires forall k: nat, x {:trigger scope[k][x]} :: k < |scope| && x in scope[k] ==> BindOk(g, m, scope[k][x])
    ensures Find(scope, id).Some? ==> BindOk(g, m, Find(scope, id).value)
    decreases |scope|
  {
    if scope != [] && id !in scope[|scope| - 1] {
      forall k: nat, x {:trigger scope[..|scope| - 1][k][x]} | k < |scope| - 1 && x in scope[..|scope| - 1][k]
        ensures BindOk(g, m, scope[..|scope| - 1][k][x])
      {
        assert scope[..|scope| - 1][k] == scope[k];
      }
      FindOk(g, m, scope[..|scope| - 1], id);
    }
  }

  // ----- single steps -----------------------------------------------------------------------------------------

  ghost function Mark(g: Gen, m: Marks, i: Instr): Marks
    requires g.cur < |g.blocks|
  {
    if HasDst(i) then m.(def := m.def[i.dst := (g.cur, |g.blocks[g.cur]|)], types := m.types[i.dst := TypeSet(m, i)])
    else m
  }

  /** The instruction may be appended to the current block. */
  ghost predicate ReadyFor(g: Gen, m: Marks, i: Instr) {
    && (forall o :: o in Operands(i) ==> Held(g, m, o)) && KindsOk(g.blocks, m.def, i)
    && (HasDst(i) ==> i.dst !in m.def) && FewSlots(m, i) && Suits(m, i)
  }

  lemma HeldTyped(g: Gen, m: Marks, o: Operand)
    requires Sound(g, m) && Held(g, m, o)
    ensures Typed(m.params, m.types, o)
  {
    hide InstrSound, DomOk, DefsOk;
  }

  lemma ReadyFits(g: Gen, m: Marks, i: Instr)
    requires Sound(g, m) && ReadyFor(g, m, i)
    ensures Fitting(m.params, Mark(g, m, i).types, i)
  {
    hide Sound, KindsOk, Held;
    TypesAreDefs(g, m);
    var m' := Mark(g, m, i);
    forall o | Typed(m.params, m.types, o) ensures TypeIn(m', o) == TypeIn(m, o) {}
    forall o | o in Operands(i) ensures Typed(m.params, m.types, o) && TypeIn(m', o) == TypeIn(m, o) {
      HeldTyped(g, m, o);
    }
    if i.Load? { assert i.ptr in Operands(i); }
    if i.Store? { assert Operands(i) == [i.val, i.ptr] && i.val in Operands(i) && i.ptr in Operands(i); }
    if i.Gep? { assert Operands(i)[0] == i.base; }
    if i.Ret? && i.ret.Some? { assert i.ret.value in Operands(i); }
  }

  lemma TypesAreDefs(g: Gen, m: Marks)
    requires Sound(g, m)
    ensures m.types.Keys == m.def.Keys && g.cur < |g.blocks|
  {}

  lemma EmitLater(g: Gen, m: Marks, i: Instr, next: nat)
    requires Sound(g, m) && ReadyFor(g, m, i) && g.next <= next
    ensures Below(g, m, Emit(g, i).(next := next), Mark(g, m, i))
  {}

  lemma OldSound(g: Gen, m: Marks, g': Gen, m': Marks, b: nat, j: nat)
    requires Sound(g, m) && Later(g, m, g', m') && b < |g.blocks| && j < |g.blocks[b]|
    ensures b < |g'.blocks| && j < |g'.blocks[b]| && InstrSound(g'.blocks, m', b, j)
  {
    hide KindsOk, Fitting, DomOk;
    assert g.blocks[b] <= g'.blocks[b] && InstrSound(g.blocks, m, b, j);
    assert g'.blocks[b][j] == g.blocks[b][j];
    KindsKept(g, m, g', m', g.blocks[b][j]);
    FittingMore(m.params, m.types, m'.types, g.blocks[b][j]);
    forall r: nat | Uses(g.blocks[b][j], r)
      ensures Avail(m', b, r) && (m'.def[r].0 == b ==> m'.def[r].1 < j)
    {
      assert Avail(m, b, r);
    }
  }

  lemma EmitSound(g: Gen, m: Marks, i: Instr, next: nat)
    requires Sound(g, m) && ReadyFor(g, m, i) && g.next <= next && (HasDst(i) ==> i.dst < next)
    ensures Sound(Emit(g, i).(next := next), Mark(g, m, i)) && Below(g, m, Emit(g, i).(next := next), Mark(g, m, i))
    ensures HasDst(i) ==> Avail(Mark(g, m, i), g.cur, i.dst) && Setter(Emit(g, i).blocks, Mark(g, m, i).def, i.dst)
                          == Some(i)
  {
    hide KindsOk, Setter, Fitting, Suits;
    var g', m' := Emit(g, i).(next := next), Mark(g, m, i);
    EmitLater(g, m, i, next);
    ReadyFits(g, m, i);
    KindsKept(g, m, g', m', i);
    forall b: nat, j: nat {:trigger InstrSound(g'.blocks, m', b, j)} | b < |g'.blocks| && j < |g'.blocks[b]|
      ensures InstrSound(g'.blocks, m', b, j)
    {
      if b == g.cur && j == |g.blocks[b]| {
        assert g'.blocks[b][j] == i;
        forall r: nat | Uses(i, r)
          ensures Avail(m', b, r) && (m'.def[r].0 == b ==> m'.def[r].1 < j)
        {
          assert Held(g, m, Reg(r));
        }
      } else {
        OldSound(g, m, g', m', b, j);
      }
    }
    if HasDst(i) { SetterIs(g', m', i, g.cur, |g.blocks[g.cur]|); }
  }

  lemma SetterIs(g: Gen, m: Marks, i: Instr, b: nat, j: nat)
    requires b < |g.blocks| && j < |g.blocks[b]| && g.blocks[b][j] == i && HasDst(i) && i.dst in m.def
             && m.def[i.dst] == (b, j)
    ensures Setter(g.blocks, m.def, i.dst) == Some(i)
  {}

  /** A new block is dominated by whatever dominates the current one. */
  function Marked(m: Marks, cur: nat): Marks
    requires cur < |m.dom|
  {
    m.(dom := m.dom + [m.dom[cur] + {|m.dom|}])
  }

  lemma NewBlockSound(g: Gen, m: Marks)
    requires Sound(g, m)
    ensures Sound(NewBlock(g), Marked(m, g.cur)) && Below(g, m, NewBlock(g), Marked(m, g.cur))
  {
    hide KindsOk;
    var g', m' := NewBlock(g), Marked(m, g.cur);
    forall t: nat, p {:trigger p in g'.pred[t]} | t < |g'.pred| && p in g'.pred[t]
      ensures p < |m'.dom| && m'.dom[t] <= m'.dom[p] + {t} {
      assert t < |g.pred| && p in g.pred[t];
    }
    assert m'.dom[0] == {0};
    forall b: nat, j: nat {:trigger InstrSound(g'.blocks, m', b, j)} | b < |g'.blocks| && j < |g'.blocks[b]|
      ensures InstrSound(g'.blocks, m', b, j)
    {
      OldSound(g, m, g', m', b, j);
    }
  }

  /** Only the current block, the names and the successor lists change. */
  lemma SameSound(g: Gen, m: Marks, g': Gen)
    requires Sound(g, m) && g'.blocks == g.blocks && g'.pred == g.pred && g'.cur < |g'.blocks| && g'.next == g.next
    ensures Sound(g', m) && Later(g, m, g', m)
  {
    hide InstrSound;
  }

  lemma PredSound(g: Gen, m: Marks, t: nat)
    requires Sound(g, m) && t < |g.blocks| && m.dom[t] <= m.dom[g.cur] + {t}
    ensures Sound(AddPred(g, t, g.cur), m) && Below(g, m, AddPred(g, t, g.cur), m)
  {
    hide InstrSound;
    var g' := AddPred(g, t, g.cur);
    forall u: nat, p {:trigger p in g'.pred[u]} | u < |g'.pred| && p in g'.pred[u]
      ensures p < |m.dom| && m.dom[u] <= m.dom[p] + {u} {
      assert p in g.pred[u] || (u == t && p == g.cur);
    }
  }

  lemma BrSound(g: Gen, m: Marks, t: nat)
    requires Sound(g, m) && t < |g.blocks| && m.dom[t] <= m.dom[g.cur] + {t}
    ensures Sound(BrUnlessTerminated(g, t), m) && Below(g, m, BrUnlessTerminated(g, t), m)
  {
    hide InstrSound, Below;
    BelowSelf(g, m);
    if !Terminated(g) {
      PredSound(g, m, t);
      var g1 := AddPred(g, t, g.cur);
      var g2 := AddSucc(g1, g.cur, t);
      SameSound(g1, m, g2);
      SuccBelow(g1, m, g.cur, t);
      EmitSound(g2, m, Br(t), g2.next);
      BelowTrans(g, m, g1, m, g2, m);
      BelowTrans(g, m, g2, m, CreateBr(g, t), m);
    }
  }

  lemma BelowSelf(g: Gen, m: Marks)
    requires Sound(g, m)
    ensures Below(g, m, g, m)
  {}

  lemma SuccBelow(g: Gen, m: Marks, b: nat, t: nat)
    requires Sound(g, m)
    ensures Below(g, m, AddSucc(g, b, t), m)
  {}

  lemma CondBrSound(g: Gen, m: Marks, c: Operand, t: nat, f: nat)
    requires Sound(g, m) && ValueOk(g, m, c) && t < |g.blocks| && f < |g.blocks|
    requires m.dom[t] <= m.dom[g.cur] + {t} && m.dom[f] <= m.dom[g.cur] + {f}
    ensures Sound(CreateCondBr(g, c, t, f), m) && Below(g, m, CreateCondBr(g, c, t, f), m)
  {
    hide InstrSound, Below, ValueKind, DomOk, DefsOk;
    PredSound(g, m, t);
    var g1 := AddPred(g, t, g.cur);
    PredSound(g1, m, f);
    var g2 := AddPred(g1, f, g.cur);
    BelowTrans(g, m, g1, m, g2, m);
    var g3 := AddSucc(g2, g.cur, f);
    SuccBelow(g2, m, g.cur, f);
    SameSound(g2, m, g3);
    BelowTrans(g, m, g2, m, g3, m);
    var g4 := AddSucc(g3, g.cur, t);
    SuccBelow(g3, m, g.cur, t);
    SameSound(g3, m, g4);
    BelowTrans(g, m, g3, m, g4, m);
    EmitSound(g4, m, CondBr(c, t, f), g4.next);
    BelowTrans(g, m, g4, m, CreateCondBr(g, c, t, f), m);
  }

  // ----- expressions --------------------------------------------------------------------------------------------

  /** From `g` on, code was appended that is sound. */
  ghost predicate Visit(g: Gen, m: Marks, g': Gen, m': Marks, sites: set<nat>, base: nat) {
    Sound(g, m) && Below(g, m, g', m') && Sound(g', m') && NewDefs(m, m', sites, base) && base <= g.next
  }

  lemma VisitSelf(g: Gen, m: Marks, base: nat)
    requires Sound(g, m) && base <= g.next
    ensures Visit(g, m, g, m, {}, base)
  {}

  lemma VisitTrans(g: Gen, m: Marks, g1: Gen, m1: Marks, g2: Gen, m2: Marks, sites: set<nat>, more: set<nat>, base: nat)
    requires Visit(g, m, g1, m1, sites, base) && Visit(g1, m1, g2, m2, more, base)
    ensures Visit(g, m, g2, m2, sites + more, base)
  {
    hide Below, Sound;
    BelowTrans(g, m, g1, m1, g2, m2);
    forall r {:trigger r in m2.def} | r in m2.def
      ensures r in m.def || r in sites + more || r >= base
    {
      assert r in m1.def || r in more || r >= base;
    }
  }

  lemma VisitThen(g: Gen, m: Marks, g1: Gen, m1: Marks, g2: Gen, m2: Marks, base: nat)
    requires Visit(g, m, g1, m1, {}, base) && Visit(g1, m1, g2, m2, {}, base)
    ensures Visit(g, m, g2, m2, {}, base)
  {
    VisitTrans(g, m, g1, m1, g2, m2, {}, {}, base);
    var none: set<nat> := {};
    assert none + none == none;
  }

  lemma VisitKeeps(g: Gen, m: Marks, g': Gen, m': Marks, sites: set<nat>, base: nat, o: Operand)
    requires Visit(g, m, g', m', sites, base)
    ensures ValueOk(g, m, o) ==> ValueOk(g', m', o)
    ensures AddrOk(g, m, o) ==> AddrOk(g', m', o)
    ensures Scoped(g, m) ==> Scoped(g', m')
    ensures Sound(g', m') && g'.scope == g.scope && base <= g'.next && m'.params == m.params
    ensures Typed(m.params, m.types, o) ==> TypeIn(m', o) == TypeIn(m, o)
  {
    hide Sound, ValueOk, AddrOk, Scoped;
    OperandKept(g, m, g', m', o);
    if Scoped(g, m) { ScopedKept(g, m, g', m'); }
  }

  lemma VisitSound(g: Gen, m: Marks, g': Gen, m': Marks, sites: set<nat>, base: nat)
    requires Visit(g, m, g', m', sites, base)
    ensures Sound(g, m) && Sound(g', m') && base <= g'.next
  {}

  /** An instruction whose result is a value. */
  lemma NewValue(g: Gen, m: Marks, i: Instr, base: nat) returns (m': Marks)
    requires Sound(g, m) && HasDst(i) && !i.Alloca? && i.dst == g.next && base <= g.next
    requires (forall o :: o in Operands(i) ==> Held(g, m, o)) && KindsOk(g.blocks, m.def, i) && Suits(m, i)
    ensures Visit(g, m, EmitNew(g, i), m', {}, base) && ValueOk(EmitNew(g, i), m', Reg(g.next))
    ensures TypeIn(m', Reg(g.next)) == Some(TypeSet(m, i))
    ensures i.Gep? ==> AddrOk(EmitNew(g, i), m', Reg(g.next))
    ensures Setter(EmitNew(g, i).blocks, m'.def, i.dst) == Some(i)
  {
    hide InstrSound, KindsOk, DomOk, Below, DefAt;
    assert g.next !in m.def;
    EmitSound(g, m, i, g.next + 1);
    m' := Mark(g, m, i);
  }

  lemma StoreSound(g: Gen, m: Marks, v: Operand, p: Operand, base: nat)
    requires Sound(g, m) && base <= g.next && ValueOk(g, m, v) && AddrOk(g, m, p) && Suits(m, Store(v, p))
    ensures Visit(g, m, Emit(g, Store(v, p)), m, {}, base)
  {
    hide InstrSound, DomOk, Below, DefsOk, AddrKind, ValueKind, Held;
    EmitSound(g, m, Store(v, p), g.next);
  }

  ghost predicate IsNumber(m: Marks, o: Operand) {
    TypeIn(m, o) == Some(NumT)
  }

  /** A conversion of a value. */
  lemma ConvDefs(g0: Gen, m0: Marks, v: Operand, from: Ty, to: Ty, g: Gen, m: Marks, base: nat) returns (m': Marks)
    requires Visit(g0, m0, g, m, {}, base) && ValueOk(g, m, v)
    ensures var (v', g') := GenConv(v, from, to, g); Visit(g0, m0, g', m', {}, base) && ValueOk(g', m', v')
                                                     && Visit(g, m, g', m', {}, base)
                                                     && (IsNumber(m, v) ==> IsNumber(m', v'))
  {
    hide Sound, Below, Visit, ValueOk, Emit;
    VisitKeeps(g0, m0, g, m, {}, base, v);
    VisitSelf(g, m, base);
    m' := m;
    if from != to {
      m' := ValueDefs(g, m, g, m, Conv(g.next, if from.IntT? then SiToFp else FpToSi, v), base);
      VisitThen(g0, m0, g, m, GenConv(v, from, to, g).1, m', base);
    }
  }

  lemma {:induction false} XDefs(e: Expr, g: Gen, ret: Option<Ty>, m: Marks, base: nat) returns (m': Marks)
    requires Sound(g, m) && Scoped(g, m) && base <= g.next && GenX(e, g, ret).Some?
    ensures var (v, g') := GenX(e, g, ret).value; Visit(g, m, g', m', {}, base) && ValueOk(g', m', v)
                                                  && (TypeX(e, g.scope).Scalar? ==> IsNumber(m', v))
    decreases e, 0
  {
    hide Sound, Scoped, Visit, Below, GenElement, GenCheck, Emit, Find, ValueOk, AddrOk, GenStore, TypeX, GenTwo;
    VisitSelf(g, m, base);
    m' := m;
    match e
    case Num(n) => ConstOk(g, m, n);
    case FloatNum(x) => FloatOk(g, m, x);
    case Name(id) =>
      m' := NameDefs(id, g, m, base);
      NameIsNumber(id, g.scope);
    case Index(id, x) =>
      m' := IndexDefs(id, x, g, ret, m, base);
      var (p, g1) := GenIndex(id, x, g, ret).value;
      m' := LoadDefs(g, m, g1, m', p, base);
    case AssignName(id, x) =>
      m' := XDefs(x, g, ret, m, base);
      var (v, g1) := GenX(x, g, ret).value;
      m' := AssignDefs(g, m, g1, m', id, v, TypeX(x, g.scope).t, base);
    case AssignIndex(id, x, y) =>
      var m1 := XDefs(y, g, ret, m, base);
      var (v, g1) := GenX(y, g, ret).value;
      VisitKeeps(g, m, g1, m1, {}, base, v);
      var m2 := IndexDefs(id, x, g1, ret, m1, base);
      var (p, g2) := GenIndex(id, x, g1, ret).value;
      VisitKeeps(g1, m1, g2, m2, {}, base, v);
      VisitThen(g, m, g1, m1, g2, m2, base);
      m' := StoreDefs(g, m, g2, m2, v, TypeX(y, g.scope).t, ElementOf(Find(g.scope, id)).t, p, base);
    case BinX(op, l, r) =>
      var m1 := TwoDefs(l, r, g, ret, m, base);
      var (a, b, t, g1) := GenTwo(l, r, g, ret).value;
      m' := ValueDefs(g, m, g1, m1, Bin(g1.next, ArithInstr(op, t), a, b), base);
    case RelX(rel, l, r) =>
      var m1 := TwoDefs(l, r, g, ret, m, base);
      var (a, b, t, g1) := GenTwo(l, r, g, ret).value;
      var m2 := ValueDefs(g, m, g1, m1, Cmp(g1.next, RelInstr(rel, t), a, b), base);
      var g2 := EmitNew(g1, Cmp(g1.next, RelInstr(rel, t), a, b));
      m' := ValueDefs(g, m, g2, m2, Conv(g2.next, ZExt, Reg(g1.next)), base);
    case CallX(id, xs) =>
      var params := Find(g.scope, id).value.params;
      var m1 := XsDefs(xs, params, g, ret, m, base);
      var (vs, g1) := GenXs(xs, params, g, ret).value;
      m' := ValueDefs(g, m, g1, m1, Call(g1.next, Find(g.scope, id).value.fn, vs), base);
  }

  lemma NameIsNumber(id: string, scope: Scope)
    ensures TypeX(Name(id), scope).Scalar? ==> Find(scope, id).Some? && Find(scope, id).value.Mem?
                                               && Find(scope, id).value.kind.NumK?
  {}

  lemma FloatOk(g: Gen, m: Marks, x: real)
    ensures ValueOk(g, m, ConstFp(x))
  {}

  lemma ConstOk(g: Gen, m: Marks, n: int)
    ensures ValueOk(g, m, ConstInt(n))
  {}

  lemma NameDefs(id: string, g: Gen, m: Marks, base: nat) returns (m': Marks)
    requires Sound(g, m) && Scoped(g, m) && base <= g.next && Find(g.scope, id).Some? && Find(g.scope, id).value.Mem?
    ensures var Mem(a, k) := Find(g.scope, id).value;
            var i := if k.ArrK? then Gep(g.next, a, [ConstInt(0), ConstInt(0)]) else Load(g.next, a);
            Visit(g, m, EmitNew(g, i), m', {}, base) && ValueOk(EmitNew(g, i), m', Reg(g.next))
            && (k.NumK? ==> IsNumber(m', Reg(g.next)))
  {
    hide Sound, Visit, Emit, Find, AddrKind, VarKind, BaseKind;
    FindOk(g, m, g.scope, id);
    var Mem(a, k) := Find(g.scope, id).value;
    VarIs(g.blocks, m.def, a, k);
    VarType(g, m, a, k);
    m' := NewValue(g, m, if k.ArrK? then Gep(g.next, a, [ConstInt(0), ConstInt(0)]) else Load(g.next, a), base);
  }

  /** One more instruction on values. */
  lemma ValueDefs(g0: Gen, m0: Marks, g: Gen, m: Marks, i: Instr, base: nat) returns (m': Marks)
    requires Visit(g0, m0, g, m, {}, base) && (i.Bin? || i.Cmp? || i.Conv? || i.Call?) && i.dst == g.next
    requires forall o :: o in Operands(i) ==> ValueOk(g, m, o)
    ensures Visit(g0, m0, EmitNew(g, i), m', {}, base) && ValueOk(EmitNew(g, i), m', Reg(g.next))
    ensures IsNumber(m', Reg(g.next))
  {
    hide Sound, Emit, Below, Held, ValueKind;
    assert base <= g.next by { VisitKeeps(g0, m0, g, m, {}, base, ConstInt(0)); }
    m' := NewValue(g, m, i, base);
    VisitThen(g0, m0, g, m, EmitNew(g, i), m', base);
  }

  lemma LoadDefs(g0: Gen, m0: Marks, g: Gen, m: Marks, p: Operand, base: nat) returns (m': Marks)
    requires Visit(g0, m0, g, m, {}, base) && AddrOk(g, m, p) && Target(TypeIn(m, p)).Some?
    ensures Visit(g0, m0, EmitNew(g, Load(g.next, p)), m', {}, base)
            && ValueOk(EmitNew(g, Load(g.next, p)), m', Reg(g.next)) && TypeIn(m', Reg(g.next)) == Target(TypeIn(m, p))
  {
    hide Sound, Emit, Below, Held, AddrKind;
    assert base <= g.next by { VisitKeeps(g0, m0, g, m, {}, base, ConstInt(0)); }
    m' := NewValue(g, m, Load(g.next, p), base);
    VisitThen(g0, m0, g, m, EmitNew(g, Load(g.next, p)), m', base);
  }

  /** A store of a converted value. */
  lemma StoreDefs(g0: Gen, m0: Marks, g: Gen, m: Marks, v: Operand, from: Ty, to: Ty, p: Operand, base: nat)
    returns (m': Marks)
    requires Visit(g0, m0, g, m, {}, base) && ValueOk(g, m, v) && AddrOk(g, m, p)
    requires IsNumber(m, v) && Target(TypeIn(m, p)) == Some(NumT)
    ensures var (v', g') := GenStore(v, from, to, p, g); Visit(g0, m0, g', m', {}, base) && ValueOk(g', m', v')
                                                         && IsNumber(m', v')
  {
    hide Sound, Emit, Below, Visit, AddrOk, ValueOk, GenConv;
    m' := ConvDefs(g0, m0, v, from, to, g, m, base);
    var (v', g') := GenConv(v, from, to, g);
    VisitKeeps(g, m, g', m', {}, base, p);
    StoreSound(g', m', v', p, base);
    VisitKeeps(g', m', Emit(g', Store(v', p)), m', {}, base, v');
    VisitThen(g0, m0, g', m', Emit(g', Store(v', p)), m', base);
  }

  lemma AssignDefs(g0: Gen, m0: Marks, g: Gen, m: Marks, id: string, v: Operand, from: Ty, base: nat)
    returns (m': Marks)
    requires Scoped(g0, m0) && Visit(g0, m0, g, m, {}, base) && ValueOk(g, m, v) && IsNumber(m, v)
    requires Find(g0.scope, id).Some? && Find(g0.scope, id).value.Mem? && Find(g0.scope, id).value.kind.NumK?
    ensures var b := Find(g0.scope, id).value;
            var (v', g') := GenStore(v, from, b.kind.t, b.addr, g); Visit(g0, m0, g', m', {}, base)
                                                                    && ValueOk(g', m', v') && IsNumber(m', v')
  {
    hide Sound, Visit, Emit, Find, Held, AddrKind, VarKind, BaseKind, ValueOk, GenStore;
    FindOk(g0, m0, g0.scope, id);
    var b := Find(g0.scope, id).value;
    VarIs(g0.blocks, m0.def, b.addr, b.kind);
    VisitSound(g0, m0, g, m, {}, base);
    VarType(g0, m0, b.addr, b.kind);
    VisitKeeps(g0, m0, g, m, {}, base, b.addr);
    m' := StoreDefs(g0, m0, g, m, v, from, b.kind.t, b.addr, base);
  }

  lemma {:induction false} TwoDefs(l: Expr, r: Expr, g: Gen, ret: Option<Ty>, m: Marks, base: nat) returns (m': Marks)
    requires Sound(g, m) && Scoped(g, m) && base <= g.next && GenTwo(l, r, g, ret).Some?
    ensures var (a, b, _, g') := GenTwo(l, r, g, ret).value; Visit(g, m, g', m', {}, base) && ValueOk(g', m', a)
                                                             && ValueOk(g', m', b)
    decreases if l < r then r else l, 1
  {
    hide Sound, Scoped, Visit, Below, GenX, ValueOk, AddrOk, TypeX, GenConv;
    var m1 := XDefs(l, g, ret, m, base);
    var (a, g1) := GenX(l, g, ret).value;
    VisitKeeps(g, m, g1, m1, {}, base, a);
    var m2 := XDefs(r, g1, ret, m1, base);
    var (b, g2) := GenX(r, g1, ret).value;
    VisitKeeps(g1, m1, g2, m2, {}, base, a);
    VisitThen(g, m, g1, m1, g2, m2, base);
    var s, t := TypeX(l, g.scope).t, TypeX(r, g.scope).t;
    var m3 := ConvDefs(g, m, a, s, Join(s, t), g2, m2, base);
    var (a', g3) := GenConv(a, s, Join(s, t), g2);
    VisitKeeps(g2, m2, g3, m3, {}, base, b);
    m' := ConvDefs(g, m, b, t, Join(s, t), g3, m3, base);
    VisitKeeps(g3, m3, GenConv(b, t, Join(s, t), g3).1, m', {}, base, a');
  }

  lemma PassDefs(g0: Gen, m0: Marks, v: Operand, from: ExprTy, to: ExprTy, g: Gen, m: Marks, base: nat)
    returns (m': Marks)
    requires Visit(g0, m0, g, m, {}, base) && ValueOk(g, m, v) && GenPass(v, from, to, g).Some?
    ensures var (v', g') := GenPass(v, from, to, g).value; Visit(g0, m0, g', m', {}, base) && ValueOk(g', m', v')
  {
    hide Sound, Below, Visit, ValueOk, GenConv;
    m' := m;
    if from.Scalar? { m' := ConvDefs(g0, m0, v, from.t, to.t, g, m, base); }
  }

  lemma {:induction false} XsDefs(xs: seq<Expr>, params: seq<ExprTy>, g: Gen, ret: Option<Ty>, m: Marks, base: nat)
    returns (m': Marks)
    requires Sound(g, m) && Scoped(g, m) && base <= g.next && GenXs(xs, params, g, ret).Some?
    ensures var (vs, g') := GenXs(xs, params, g, ret).value; Visit(g, m, g', m', {}, base) && forall v :: v in vs ==>
              ValueOk(g', m', v)
    decreases xs, 0
  {
    hide Sound, Scoped, Visit, Below, GenX, ValueOk, AddrOk, TypeX, GenPass;
    m' := m;
    VisitSelf(g, m, base);
    if xs != [] {
      var m1 := XDefs(xs[0], g, ret, m, base);
      var (v, g1) := GenX(xs[0], g, ret).value;
      var m2 := PassDefs(g, m, v, TypeX(xs[0], g.scope), params[0], g1, m1, base);
      var (v', g2) := GenPass(v, TypeX(xs[0], g.scope), params[0], g1).value;
      VisitKeeps(g, m, g2, m2, {}, base, v');
      m' := XsDefs(xs[1..], params[1..], g2, ret, m2, base);
      var (vs, g3) := GenXs(xs[1..], params[1..], g2, ret).value;
      VisitKeeps(g2, m2, g3, m', {}, base, v');
      VisitThen(g, m, g2, m2, g3, m', base);
    }
  }

  lemma {:induction false} IndexDefs(id: string, x: Expr, g: Gen, ret: Option<Ty>, m: Marks, base: nat)
    returns (m': Marks)
    requires Sound(g, m) && Scoped(g, m) && base <= g.next && GenIndex(id, x, g, ret).Some?
    ensures var (p, g') := GenIndex(id, x, g, ret).value; Visit(g, m, g', m', {}, base) && AddrOk(g', m', p)
                                                          && TypeIn(m', p) == Some(AddrT)
    decreases x, 1
  {
    hide Sound, Scoped, Visit, Below, GenX, GenElement, GenCheck, ValueOk, AddrOk, Find, TypeX, GenConv;
    var m1 := XDefs(x, g, ret, m, base);
    var (v, g1) := GenX(x, g, ret).value;
    var fn := Find(g.scope, NEG_IDX).value.fn;
    var m2 := ConvDefs(g, m, v, TypeX(x, g.scope).t, IntT, g1, m1, base);
    var (n, g2) := GenConv(v, TypeX(x, g.scope).t, IntT, g1);
    VisitKeeps(g, m, g2, m2, {}, base, n);
    var m3 := CheckDefs(g2, m2, n, fn, ret, base);
    var g3 := GenCheck(g2, n, fn, ret);
    VisitKeeps(g2, m2, g3, m3, {}, base, n);
    VisitThen(g, m, g2, m2, g3, m3, base);
    m' := ElementDefs(id, n, g3, m3, base);
    VisitThen(g, m, g3, m3, GenElement(Find(g.scope, id).value, n, g3).value.1, m', base);
  }

  /** The array that was passed is a base. */
  lemma LoadIsBase(g: Gen, m: Marks, g': Gen, m': Marks, i: Instr, base: nat)
    requires Visit(g, m, g', m', {}, base) && i.Load? && LoadsArray(g.blocks, m.def, i)
             && Setter(g'.blocks, m'.def, i.dst) == Some(i)
    ensures BaseKind(g'.blocks, m'.def, Reg(i.dst))
  {
    hide InstrSound;
    SetterKept(g, m, g', m', i.ptr.r);
  }

  lemma ElementDefs(id: string, v: Operand, g: Gen, m: Marks, base: nat) returns (m': Marks)
    requires Sound(g, m) && Scoped(g, m) && base <= g.next && ValueOk(g, m, v)
    requires Find(g.scope, id).Some? && GenElement(Find(g.scope, id).value, v, g).Some?
    ensures var (p, g') := GenElement(Find(g.scope, id).value, v, g).value;
            Visit(g, m, g', m', {}, base) && AddrOk(g', m', p) && TypeIn(m', p) == Some(AddrT)
  {
    hide Sound, Visit, Emit, Find, AddrKind, ValueKind, VarKind, BaseKind, LoadsArray;
    FindOk(g, m, g.scope, id);
    ConstOk(g, m, 0);
    var Mem(a, k) := Find(g.scope, id).value;
    VarIs(g.blocks, m.def, a, k);
    VarType(g, m, a, k);
    match k
    case NumK(_) => m' := NewValue(g, m, Gep(g.next, a, [v]), base);
    case ArrK(_) => m' := NewValue(g, m, Gep(g.next, a, [ConstInt(0), v]), base);
    case PtrK(_) =>
      var m1 := NewValue(g, m, Load(g.next, a), base);
      var g1 := EmitNew(g, Load(g.next, a));
      LoadIsBase(g, m, g1, m1, Load(g.next, a), base);
      VisitKeeps(g, m, g1, m1, {}, base, v);
      m' := NewValue(g1, m1, Gep(g1.next, Reg(g.next), [v]), base);
      VisitThen(g, m, g1, m1, EmitNew(g1, Gep(g1.next, Reg(g.next), [v])), m', base);
  }

  /** A block of those that hang on the current one becomes the current block. */
  lemma SwitchSound(g0: Gen, m0: Marks, g: Gen, m: Marks, sites: set<nat>, base: nat, t: nat)
    requires Visit(g0, m0, g, m, sites, base) && t < |m.dom| && m0.dom[g0.cur] <= m.dom[t]
    ensures Visit(g0, m0, g.(cur := t), m, sites, base)
  {
    SameSound(g, m, g.(cur := t));
  }

  lemma BlockDefs(g0: Gen, m0: Marks, g: Gen, m: Marks, base: nat) returns (m': Marks)
    requires Visit(g0, m0, g, m, {}, base)
    ensures Visit(g0, m0, NewBlock(g), m', {}, base) && g.cur < |m.dom| == |g.blocks|
    ensures m'.dom == m.dom + [m.dom[g.cur] + {|m.dom|}] && m'.def == m.def
  {
    hide InstrSound, DomOk, DefsOk;
    NewBlockSound(g, m);
    m' := Marked(m, g.cur);
    BelowTrans(g0, m0, g, m, NewBlock(g), m');
  }

  /** A test of `v`, and branches to two blocks that hang on the current one. */
  lemma TestDefs(g0: Gen, m0: Marks, g: Gen, m: Marks, op: CmpOp, v: Operand, z: Operand, t: nat, f: nat, base: nat)
    returns (m': Marks)
    requires Visit(g0, m0, g, m, {}, base) && ValueOk(g, m, v) && IsConst(z) && t < |m.dom| && f < |m.dom|
    requires g.cur < |m.dom| && m.dom[t] == m.dom[g.cur] + {t} && m.dom[f] == m.dom[g.cur] + {f}
    ensures var h := CreateCondBr(EmitNew(g, Cmp(g.next, op, v, z)), Reg(g.next), t, f).(cur := t);
            Visit(g0, m0, h, m', {}, base) && m'.dom == m.dom && h.next == g.next + 1 && |h.blocks| == |g.blocks|
  {
    hide InstrSound, DomOk, DefsOk, ValueKind, Later, ReadyFor;
    var i := Cmp(g.next, op, v, z);
    ReadyCmp(g, m, op, v, z);
    VisitKeeps(g0, m0, g, m, {}, base, v);
    EmitSound(g, m, i, g.next + 1);
    m' := Mark(g, m, i);
    var g1 := EmitNew(g, i);
    BelowTrans(g0, m0, g, m, g1, m');
    CmpIsValue(g1, m', i);
    CondBrSound(g1, m', Reg(g.next), t, f);
    BelowTrans(g0, m0, g1, m', CreateCondBr(g1, Reg(g.next), t, f), m');
    SwitchSound(g0, m0, CreateCondBr(g1, Reg(g.next), t, f), m', {}, base, t);
  }

  lemma ReadyCmp(g: Gen, m: Marks, op: CmpOp, v: Operand, z: Operand)
    requires Sound(g, m) && ValueOk(g, m, v) && IsConst(z)
    ensures ReadyFor(g, m, Cmp(g.next, op, v, z)) && g.cur < |g.blocks|
  {
    assert g.next !in m.def;
  }

  lemma CmpIsValue(g: Gen, m: Marks, i: Instr)
    requires i.Cmp? && Avail(m, g.cur, i.dst) && Setter(g.blocks, m.def, i.dst) == Some(i)
    ensures ValueOk(g, m, Reg(i.dst))
  {}

  lemma RetSound(g: Gen, m: Marks, i: Instr, base: nat)
    requires Sound(g, m) && base <= g.next && i.Ret?
             && (i.ret.Some? ==> ValueOk(g, m, i.ret.value) && IsNumber(m, i.ret.value))
    ensures Visit(g, m, Emit(g, i), m, {}, base)
  {
    hide InstrSound, DomOk, Below, DefsOk, ValueKind, Held;
    EmitSound(g, m, i, g.next);
  }

  lemma DomKept(g: Gen, m: Marks, g': Gen, m': Marks, b: nat, sites: set<nat>, base: nat)
    requires Visit(g, m, g', m', sites, base) && b < |m.dom|
    ensures b < |m'.dom| && m'.dom[b] == m.dom[b]
  {}

  lemma CheckDefs(g: Gen, m: Marks, v: Operand, fn: nat, ret: Option<Ty>, base: nat) returns (m': Marks)
    requires Sound(g, m) && base <= g.next && ValueOk(g, m, v)
    ensures Visit(g, m, GenCheck(g, v, fn, ret), m', {}, base)
  {
    hide Sound, Visit, Below, ValueOk, CreateCondBr, Emit;
    VisitSelf(g, m, base);
    var m1 := BlockDefs(g, m, g, m, base);
    var m2 := BlockDefs(g, m, NewBlock(g), m1, base);
    var g1, except, cont := NewBlock(NewBlock(g)), |g.blocks|, |g.blocks| + 1;
    VisitKeeps(g, m, g1, m2, {}, base, v);
    var m3 := TestDefs(g, m, g1, m2, LT, v, ConstInt(0), except, cont, base);
    var g4 := CreateCondBr(EmitNew(g1, Cmp(g1.next, LT, v, ConstInt(0))), Reg(g1.next), except, cont).(cur := except);
    VisitKeeps(g, m, g4, m3, {}, base, v);
    m' := NewValue(g4, m3, Call(g4.next, fn, []), base);
    var g5 := EmitNew(g4, Call(g4.next, fn, []));
    VisitThen(g, m, g4, m3, g5, m', base);
    VisitKeeps(g, m, g5, m', {}, base, v);
    ConstOk(g5, m', 0);
    FloatOk(g5, m', 0.0);
    RetSound(g5, m', DefaultRet(ret), base);
    VisitThen(g, m, g5, m', Emit(g5, DefaultRet(ret)), m', base);
    DomKept(g4, m3, g5, m', cont, {}, base);
    SwitchSound(g, m, Emit(g5, DefaultRet(ret)), m', {}, base, cont);
  }

  // ----- declarations ---------------------------------------------------------------------------------------------

  /** None of these sites has been used. */
  ghost predicate FreshSites(m: Marks, sites: set<nat>, base: nat) {
    forall r :: r in sites ==> r < base && r !in m.def
  }

  /** From `g` on, with names pushed in the innermost scope. */
  ghost predicate VisitNames(g: Gen, m: Marks, g': Gen, m': Marks, sites: set<nat>, base: nat) {
    && Visit(g, m, g'.(scope := g.scope), m', sites, base) && Sound(g', m') && Scoped(g', m')
    && |g'.scope| == |g.scope| > 0 && g'.scope[..|g.scope| - 1] == g.scope[..|g.scope| - 1]
  }

  lemma VisitRescope(g: Gen, m: Marks, g': Gen, m': Marks, sites: set<nat>, base: nat, s: Scope)
    requires Visit(g, m, g', m', sites, base)
    ensures Visit(g.(scope := s), m, g'.(scope := s), m', sites, base)
  {
    hide InstrSound;
  }

  lemma NamesTrans(g: Gen, m: Marks, g1: Gen, m1: Marks, g2: Gen, m2: Marks, sites: set<nat>, more: set<nat>, base: nat)
    requires VisitNames(g, m, g1, m1, sites, base) && VisitNames(g1, m1, g2, m2, more, base)
    ensures VisitNames(g, m, g2, m2, sites + more, base)
  {
    hide Visit, Sound, Scoped;
    VisitRescope(g1, m1, g2.(scope := g1.scope), m2, more, base, g.scope);
    assert g2.(scope := g1.scope).(scope := g.scope) == g2.(scope := g.scope);
    VisitTrans(g, m, g1.(scope := g.scope), m1, g2.(scope := g.scope), m2, sites, more, base);
  }

  lemma NamesSelf(g: Gen, m: Marks, base: nat)
    requires Sound(g, m) && Scoped(g, m) && base <= g.next && g.scope != []
    ensures VisitNames(g, m, g, m, {}, base)
  {
    assert g.(scope := g.scope) == g;
    VisitSelf(g, m, base);
  }

  lemma PushScoped(g: Gen, m: Marks, id: string, b: Binding)
    requires Scoped(g, m) && BindOk(g, m, b) && g.scope != []
    ensures Scoped(g.(scope := PushName(g.scope, id, b)), m)
  {
    hide AddrKind;
    var h := g.(scope := PushName(g.scope, id, b));
    forall k: nat, x {:trigger h.scope[k][x]} | k < |h.scope| && x in h.scope[k] ensures BindOk(h, m, h.scope[k][x]) {
      if x in g.scope[k] { assert BindOk(g, m, g.scope[k][x]); }
    }
  }

  /** An alloca, and a name for what it reserves. */
  lemma AllocaDefs(g: Gen, m: Marks, i: Instr, next: nat, id: string, kind: Kind, base: nat) returns (m': Marks)
    requires Sound(g, m) && Scoped(g, m) && base <= g.next <= next && g.scope != []
    requires i.Alloca? && i.dst !in m.def && i.dst < next && SlotFits(i.ty, kind) && FewSlots(m, i)
    ensures var h := Emit(g, i).(next := next);
            VisitNames(g, m, h.(scope := PushName(h.scope, id, Mem(Reg(i.dst), kind))), m', {i.dst}, base)
            && (IsSlot(i) ==> AddrOk(h, m', Reg(i.dst))) && TypeIn(m', Reg(i.dst)) == Some(TypeSet(m, i))
  {
    hide InstrSound, DomOk, DefsOk, Later, Avail;
    EmitSound(g, m, i, next);
    m' := Mark(g, m, i);
    var h := Emit(g, i).(next := next);
    NamesDefs(g, m, h, m', id, Mem(Reg(i.dst), kind), {i.dst}, base);
  }

  lemma NamesDefs(g: Gen, m: Marks, h: Gen, m': Marks, id: string, b: Binding, sites: set<nat>, base: nat)
    requires Visit(g, m, h, m', sites, base) && Scoped(g, m) && BindOk(h, m', b) && g.scope != []
    ensures VisitNames(g, m, h.(scope := PushName(h.scope, id, b)), m', sites, base)
  {
    hide InstrSound, DomOk, DefsOk, Later, Held, AddrKind;
    ScopedKept(g, m, h, m');
    PushScoped(h, m', id, b);
    var r := h.(scope := PushName(h.scope, id, b));
    SameSound(h, m', r);
    assert r.(scope := g.scope) == h;
  }

  lemma DeclDefs(d: Decl, g: Gen, m: Marks, base: nat) returns (m': Marks)
    requires Sound(g, m) && Scoped(g, m) && base <= g.next && g.scope != [] && FreshSites(m, DeclSites([d]), base)
    ensures VisitNames(g, m, GenDecl(d, g), m', DeclSites([d]), base)
  {
    hide InstrSound, DomOk, VisitNames, Scoped;
    assert DeclSites([d]) == (if d.num.Some? then {d.site} else {}) by { assert [d][1..] == []; }
    if d.num.None? {
      assert g.next !in m.def;
      m' := AllocaDefs(g, m, Alloca(g.next, SlotFor(d.ty)), g.next + 1, d.id, NumK(d.ty), base);
      OnlyNew(g, m, GenDecl(d, g), m', g.next, base);
    } else {
      assert d.site in DeclSites([d]);
      m' := AllocaDefs(g, m, Alloca(d.site, ArraySlot(d.num.value)), g.next, d.id, ArrK(d.ty), base);
    }
  }

  lemma OnlyNew(g: Gen, m: Marks, g': Gen, m': Marks, r: nat, base: nat)
    requires VisitNames(g, m, g', m', {r}, base) && r >= base
    ensures VisitNames(g, m, g', m', {}, base)
  {
    hide Sound, Scoped, Below;
  }

  predicate OwnDeclSites(ds: seq<Decl>)
    decreases ds
  {
    ds == [] || ((ds[0].num.Some? ==> ds[0].site !in DeclSites(ds[1..])) && OwnDeclSites(ds[1..]))
  }

  lemma FreshRest(m: Marks, m': Marks, sites: set<nat>, more: set<nat>, base: nat)
    requires NewDefs(m, m', sites, base) && FreshSites(m, sites + more, base) && sites !! more
    ensures FreshSites(m', more, base)
  {}

  lemma FreshFewer(m: Marks, sites: set<nat>, more: set<nat>, base: nat)
    requires FreshSites(m, more, base) && sites <= more
    ensures FreshSites(m, sites, base)
  {}

  lemma {:induction false} DeclsDefs(ds: seq<Decl>, g: Gen, m: Marks, base: nat) returns (m': Marks)
    requires Sound(g, m) && Scoped(g, m) && base <= g.next && g.scope != []
    requires FreshSites(m, DeclSites(ds), base) && OwnDeclSites(ds)
    ensures VisitNames(g, m, GenDecls(ds, g), m', DeclSites(ds), base)
    decreases ds
  {
    hide Sound, Scoped, VisitNames, GenDecl;
    if ds == [] {
      NamesSelf(g, m, base);
      m' := m;
    } else {
      var d := ds[0];
      assert [d][1..] == [];
      assert DeclSites(ds) == DeclSites([d]) + DeclSites(ds[1..]);
      var m1 := DeclDefs(d, g, m, base);
      var g1 := GenDecl(d, g);
      NamesKeep(g, m, g1, m1, DeclSites([d]), base);
      FreshRest(m, m1, DeclSites([d]), DeclSites(ds[1..]), base);
      m' := DeclsDefs(ds[1..], g1, m1, base);
      NamesTrans(g, m, g1, m1, GenDecls(ds, g), m', DeclSites([d]), DeclSites(ds[1..]), base);
    }
  }

  lemma NamesKeep(g: Gen, m: Marks, g': Gen, m': Marks, sites: set<nat>, base: nat)
    requires VisitNames(g, m, g', m', sites, base)
    ensures Sound(g', m') && Scoped(g', m') && base <= g'.next && g'.scope != [] && NewDefs(m, m', sites, base)
    ensures |g'.scope| == |g.scope| && g'.scope[..|g.scope| - 1] == g.scope[..|g.scope| - 1] && m'.params == m.params
  {
    hide Sound, Scoped;
  }

  // ----- statements -------------------------------------------------------------------------------------------------

  /** The sites of the array declarations in a statement. */
  function Sites(t: Stmt): set<nat>
    decreases t, 0
  {
    match t
    case IfS(_, a, None) => Sites(a)
    case IfS(_, a, Some(b)) => Sites(a) + Sites(b)
    case WhileS(_, b) => Sites(b)
    case CompoundS(ds, ts) => DeclSites(ds) + ListSites(ts)
    case _ => {}
  }

  function ListSites(ts: seq<Stmt>): set<nat>
    decreases ts, 0
  {
    if ts == [] then {} else Sites(ts[0]) + ListSites(ts[1..])
  }

  /** Every array declaration has a site of its own. */
  predicate OwnSites(t: Stmt)
    decreases t, 0
  {
    match t
    case IfS(_, a, None) => OwnSites(a)
    case IfS(_, a, Some(b)) => OwnSites(a) && OwnSites(b) && Sites(a) !! Sites(b)
    case WhileS(_, b) => OwnSites(b)
    case CompoundS(ds, ts) => OwnDeclSites(ds) && ListOwnSites(ts) && DeclSites(ds) !! ListSites(ts)
    case _ => true
  }

  predicate ListOwnSites(ts: seq<Stmt>)
    decreases ts, 0
  {
    ts == [] || (OwnSites(ts[0]) && ListOwnSites(ts[1..]) && Sites(ts[0]) !! ListSites(ts[1..]))
  }

  lemma BrDefs(g0: Gen, m0: Marks, g: Gen, m: Marks, t: nat, sites: set<nat>, base: nat)
    requires Visit(g0, m0, g, m, sites, base) && t < |m.dom| && g.cur < |m.dom| && m.dom[t] <= m.dom[g.cur] + {t}
    ensures Visit(g0, m0, BrUnlessTerminated(g, t), m, sites, base)
  {
    hide InstrSound, DomOk, Later, DefsOk, BrUnlessTerminated;
    BrSound(g, m, t);
    BelowTrans(g0, m0, g, m, BrUnlessTerminated(g, t), m);
  }

  /** What the blocks say after a visit. */
  lemma VisitDom(g: Gen, m: Marks, g': Gen, m': Marks, sites: set<nat>, base: nat)
    requires Visit(g, m, g', m', sites, base)
    ensures g.cur < |m.dom| == |g.blocks| && g'.cur < |m'.dom| == |g'.blocks| && |m.dom| <= |m'.dom|
            && m.dom[g.cur] <= m'.dom[g'.cur]
    ensures forall b {:trigger m'.dom[b]} :: 0 <= b < |m.dom| ==> m'.dom[b] == m.dom[b]
    ensures NewDefs(m, m', sites, base)
  {}

  /** Control goes to a block that hangs on an earlier one, and it becomes the current block. */
  lemma JoinDefs(g0: Gen, m0: Marks, g: Gen, m: Marks, join: nat, next: nat, sites: set<nat>, base: nat)
    requires Visit(g0, m0, g, m, sites, base) && join < |m.dom| && next < |m.dom| && g.cur < |m.dom|
             && g0.cur < |m0.dom|
    requires m.dom[join] <= m.dom[g.cur] + {join} && m0.dom[g0.cur] <= m.dom[next]
    ensures Visit(g0, m0, BrUnlessTerminated(g, join).(cur := next), m, sites, base)
  {
    hide Visit, BrUnlessTerminated;
    BrDefs(g0, m0, g, m, join, sites, base);
    SwitchSound(g0, m0, BrUnlessTerminated(g, join), m, sites, base, next);
  }

  lemma {:induction false} SDefs(t: Stmt, g: Gen, ret: Option<Ty>, m: Marks, base: nat) returns (m': Marks)
    requires Sound(g, m) && Scoped(g, m) && base <= g.next && GenS(t, g, ret).Some?
    requires OwnSites(t) && FreshSites(m, Sites(t), base)
    ensures Visit(g, m, GenS(t, g, ret).value, m', Sites(t), base)
    decreases t, 2
  {
    hide Sound, Scoped, Visit, GenX, FreshSites, ValueOk, Emit, GenConv, TypeX;
    VisitSelf(g, m, base);
    m' := m;
    match t
    case ExprS(None) =>
    case ExprS(Some(e)) => m' := XDefs(e, g, ret, m, base);
    case ReturnS(None) => RetSound(g, m, Ret(None), base);
    case ReturnS(Some(e)) =>
      var m1 := XDefs(e, g, ret, m, base);
      var (v, g1) := GenX(e, g, ret).value;
      var from, to := TypeX(e, g.scope).t, ret.value;
      m' := ConvDefs(g, m, v, from, to, g1, m1, base);
      var (v', g2) := GenConv(v, from, to, g1);
      VisitKeeps(g, m, g2, m', {}, base, v');
      RetSound(g2, m', Ret(Some(v')), base);
      VisitThen(g, m, g2, m', Emit(g2, Ret(Some(v'))), m', base);
    case IfS(e, a, None) => m' := IfDefs(e, a, g, ret, m, base, t);
    case IfS(e, a, Some(b)) => m' := IfElseDefs(e, a, b, g, ret, m, base, t);
    case WhileS(e, body) => m' := WhileDefs(e, body, g, ret, m, base, t);
    case CompoundS(ds, ts) => m' := CompoundDefs(ds, ts, g, ret, m, base, t);
  }

  lemma {:induction false} IfDefs(e: Expr, a: Stmt, g: Gen, ret: Option<Ty>, m: Marks, base: nat, t: Stmt)
    returns (m': Marks)
    requires t == IfS(e, a, None) && Sound(g, m) && Scoped(g, m) && base <= g.next && GenS(t, g, ret).Some?
    requires OwnSites(a) && FreshSites(m, Sites(a), base)
    ensures Visit(g, m, GenS(t, g, ret).value, m', Sites(a), base)
    decreases t, 1
  {
    hide Sound, Scoped, Visit, GenX, ValueOk, CreateCondBr, BrUnlessTerminated, OwnSites, Sites, FreshSites, NewDefs,
         GenTest, NewBlock;
    var m1 := XDefs(e, g, ret, m, base);
    var (v, ty, g1) := GenCond(e, g, ret).value;
    var trueBB, contBB := |g1.blocks|, |g1.blocks| + 1;
    VisitKeeps(g, m, g1, m1, {}, base, v);
    VisitDom(g, m, g1, m1, {}, base);
    var m4 := TwoWayDefs(g1, m1, v, ty, base);
    var k := GenTest(NewBlock(NewBlock(g1)), v, ty, trueBB, contBB).(cur := trueBB);
    VisitKeeps(g1, m1, k, m4, {}, base, v);
    VisitThen(g, m, g1, m1, k, m4, base);
    VisitDom(g, m, k, m4, {}, base);
    assert {} + Sites(a) == Sites(a);
    FreshRest(m, m4, {}, Sites(a), base);
    m' := SDefs(a, k, ret, m4, base);
    var g2 := GenS(a, k, ret).value;
    VisitDom(k, m4, g2, m', Sites(a), base);
    VisitTrans(g, m, k, m4, g2, m', {}, Sites(a), base);
    JoinDefs(g, m, g2, m', contBB, contBB, Sites(a), base);
  }

  lemma {:induction false} ListDefs(ts: seq<Stmt>, g: Gen, ret: Option<Ty>, m: Marks, base: nat) returns (m': Marks)
    requires Sound(g, m) && Scoped(g, m) && base <= g.next && GenList(ts, g, ret).Some?
    requires ListOwnSites(ts) && FreshSites(m, ListSites(ts), base)
    ensures Visit(g, m, GenList(ts, g, ret).value, m', ListSites(ts), base)
    decreases ts, 0
  {
    hide Sound, Scoped, Visit, GenS, OwnSites, Sites, Below;
    if ts == [] {
      VisitSelf(g, m, base);
      m' := m;
    } else {
      m' := SDefs(ts[0], g, ret, m, base);
      var g1 := GenS(ts[0], g, ret).value;
      if Terminated(g1) {
        VisitMore(g, m, g1, m', Sites(ts[0]), ListSites(ts), base);
      } else {
        var m1 := m';
        VisitKeeps(g, m, g1, m1, Sites(ts[0]), base, ConstInt(0));
        VisitDom(g, m, g1, m1, Sites(ts[0]), base);
        FreshRest(m, m1, Sites(ts[0]), ListSites(ts[1..]), base);
        m' := ListDefs(ts[1..], g1, ret, m1, base);
        VisitTrans(g, m, g1, m1, GenList(ts[1..], g1, ret).value, m', Sites(ts[0]), ListSites(ts[1..]), base);
      }
    }
  }

  lemma VisitMore(g: Gen, m: Marks, g': Gen, m': Marks, sites: set<nat>, more: set<nat>, base: nat)
    requires Visit(g, m, g', m', sites, base) && sites <= more
    ensures Visit(g, m, g', m', more, base)
  {
    hide Sound, Below;
  }

  lemma {:induction false} CompoundDefs(ds: seq<Decl>, ts: seq<Stmt>, g: Gen, ret: Option<Ty>, m: Marks, base: nat,
                                        t: Stmt) returns (m': Marks)
    requires t == CompoundS(ds, ts) && Sound(g, m) && Scoped(g, m) && base <= g.next && GenS(t, g, ret).Some?
    requires OwnDeclSites(ds) && ListOwnSites(ts) && DeclSites(ds) !! ListSites(ts)
             && FreshSites(m, DeclSites(ds) + ListSites(ts), base)
    ensures Visit(g, m, GenS(t, g, ret).value, m', DeclSites(ds) + ListSites(ts), base)
    decreases t, 1
  {
    hide Sound, Scoped, Visit, VisitNames, GenDecls, GenList, OwnSites, Sites;
    var g0 := g.(scope := g.scope + [map[]]);
    EnterScoped(g, m);
    var m1 := DeclsDefs(ds, g0, m, base);
    var g1 := GenDecls(ds, g0);
    NamesKeep(g0, m, g1, m1, DeclSites(ds), base);
    FreshRest(m, m1, DeclSites(ds), ListSites(ts), base);
    m' := ListDefs(ts, g1, ret, m1, base);
    var g2 := GenList(ts, g1, ret).value;
    ScopeEnds(g, m, g0, g1, m1, g2, m', DeclSites(ds), ListSites(ts), base);
  }

  lemma EnterScoped(g: Gen, m: Marks)
    requires Sound(g, m) && Scoped(g, m)
    ensures Sound(g.(scope := g.scope + [map[]]), m) && Scoped(g.(scope := g.scope + [map[]]), m)
  {
    hide InstrSound, AddrKind;
    var h := g.(scope := g.scope + [map[]]);
    SameSound(g, m, h);
    forall k: nat, x {:trigger h.scope[k][x]} | k < |h.scope| && x in h.scope[k] ensures BindOk(h, m, h.scope[k][x]) {
      assert BindOk(g, m, g.scope[k][x]);
    }
  }

  lemma ScopeEnds(g: Gen, m: Marks, g0: Gen, g1: Gen, m1: Marks, g2: Gen, m2: Marks, sites: set<nat>, more: set<nat>,
                  base: nat)
    requires g0 == g.(scope := g.scope + [map[]]) && VisitNames(g0, m, g1, m1, sites, base)
             && Visit(g1, m1, g2, m2, more, base)
    ensures Visit(g, m, PopScope(g2), m2, sites + more, base)
  {
    hide Sound, Scoped, Later, NewDefs;
    VisitRescope(g0, m, g1.(scope := g0.scope), m1, sites, base, g.scope);
    VisitRescope(g1, m1, g2, m2, more, base, g.scope);
    assert g0.(scope := g.scope) == g && g1.(scope := g0.scope).(scope := g.scope) == g1.(scope := g.scope);
    assert g0.scope[..|g0.scope| - 1] == g.scope;
    assert PopScope(g2) == g2.(scope := g.scope);
    VisitTrans(g, m, g1.(scope := g.scope), m1, g2.(scope := g.scope), m2, sites, more, base);
  }

  lemma {:induction false} IfElseDefs(e: Expr, a: Stmt, b: Stmt, g: Gen, ret: Option<Ty>, m: Marks, base: nat,
                                      t: Stmt) returns (m': Marks)
    requires t == IfS(e, a, Some(b)) && Sound(g, m) && Scoped(g, m) && base <= g.next && GenS(t, g, ret).Some?
    requires OwnSites(a) && OwnSites(b) && Sites(a) !! Sites(b) && FreshSites(m, Sites(a) + Sites(b), base)
    ensures Visit(g, m, GenS(t, g, ret).value, m', Sites(a) + Sites(b), base)
    decreases t, 1
  {
    hide Sound, Scoped, Visit, GenX, ValueOk, CreateCondBr, BrUnlessTerminated, OwnSites, Sites, FreshSites, NewDefs,
         GenTest, NewBlock, TypeIn, Typed, Find;
    var m1 := XDefs(e, g, ret, m, base);
    var (v, ty, g1) := GenCond(e, g, ret).value;
    var trueBB, contBB, falseBB := |g1.blocks|, |g1.blocks| + 1, |g1.blocks| + 2;
    VisitKeeps(g, m, g1, m1, {}, base, v);
    VisitDom(g, m, g1, m1, {}, base);
    var m4 := ThreeWayDefs(g1, m1, v, ty, base);
    var k := GenTest(NewBlock(NewBlock(NewBlock(g1))), v, ty, trueBB, falseBB).(cur := trueBB);
    VisitKeeps(g1, m1, k, m4, {}, base, v);
    VisitDom(g1, m1, k, m4, {}, base);
    assert {} + (Sites(a) + Sites(b)) == Sites(a) + Sites(b);
    FreshRest(m, m1, {}, Sites(a) + Sites(b), base);
    FreshRest(m1, m4, {}, Sites(a) + Sites(b), base);
    FreshFewer(m4, Sites(a), Sites(a) + Sites(b), base);
    var m5 := SDefs(a, k, ret, m4, base);
    var g2 := GenS(a, k, ret).value;
    VisitDom(k, m4, g2, m5, Sites(a), base);
    FreshRest(m4, m5, Sites(a), Sites(b), base);
    VisitTrans(g1, m1, k, m4, g2, m5, {}, Sites(a), base);
    JoinDefs(g1, m1, g2, m5, contBB, falseBB, {} + Sites(a), base);
    var k2 := BrUnlessTerminated(g2, contBB).(cur := falseBB);
    VisitKeeps(g1, m1, k2, m5, {} + Sites(a), base, v);
    m' := SDefs(b, k2, ret, m5, base);
    var g3 := GenS(b, k2, ret).value;
    VisitDom(k2, m5, g3, m', Sites(b), base);
    VisitTrans(g1, m1, k2, m5, g3, m', {} + Sites(a), Sites(b), base);
    JoinDefs(g1, m1, g3, m', contBB, contBB, {} + Sites(a) + Sites(b), base);
    VisitTrans(g, m, g1, m1, BrUnlessTerminated(g3, contBB).(cur := contBB), m', {}, {} + Sites(a) + Sites(b), base);
    assert {} + ({} + Sites(a) + Sites(b)) == Sites(a) + Sites(b);
  }

  /** The test of an if with both branches. */
  lemma ThreeWayDefs(g: Gen, m: Marks, v: Operand, ty: Ty, base: nat) returns (m': Marks)
    requires Sound(g, m) && base <= g.next && ValueOk(g, m, v)
    ensures var n := |g.blocks|; var k := GenTest(NewBlock(NewBlock(NewBlock(g))), v, ty, n, n + 2).(cur := n);
            && Visit(g, m, k, m', {}, base) && |m.dom| == n == |m'.dom| - 3 && g.cur < n
            && m'.dom == m.dom + [m.dom[g.cur] + {n}, m.dom[g.cur] + {n + 1}, m.dom[g.cur] + {n + 2}]
  {
    hide Sound, Visit, ValueOk, CreateCondBr;
    VisitSelf(g, m, base);
    var m1 := BlockDefs(g, m, g, m, base);
    var m2 := BlockDefs(g, m, NewBlock(g), m1, base);
    var m3 := BlockDefs(g, m, NewBlock(NewBlock(g)), m2, base);
    var h := NewBlock(NewBlock(NewBlock(g)));
    VisitKeeps(g, m, h, m3, {}, base, v);
    m' := TestDefs(g, m, h, m3, RelInstr(NotEqual, ty), v, Zero(ty), |g.blocks|, |g.blocks| + 2, base);
  }

  /** The test of a loop, or of an if with one branch. */
  lemma TwoWayDefs(g: Gen, m: Marks, v: Operand, ty: Ty, base: nat) returns (m': Marks)
    requires Sound(g, m) && base <= g.next && ValueOk(g, m, v)
    ensures var n := |g.blocks|; var k := GenTest(NewBlock(NewBlock(g)), v, ty, n, n + 1).(cur := n);
            && Visit(g, m, k, m', {}, base) && |m.dom| == n == |m'.dom| - 2 && g.cur < n
            && m'.dom == m.dom + [m.dom[g.cur] + {n}, m.dom[g.cur] + {n + 1}]
  {
    hide Sound, Visit, ValueOk, CreateCondBr;
    VisitSelf(g, m, base);
    var m1 := BlockDefs(g, m, g, m, base);
    var m2 := BlockDefs(g, m, NewBlock(g), m1, base);
    var h := NewBlock(NewBlock(g));
    VisitKeeps(g, m, h, m2, {}, base, v);
    m' := TestDefs(g, m, h, m2, RelInstr(NotEqual, ty), v, Zero(ty), |g.blocks|, |g.blocks| + 1, base);
  }

  lemma {:induction false} WhileDefs(e: Expr, body: Stmt, g: Gen, ret: Option<Ty>, m: Marks, base: nat, t: Stmt)
    returns (m': Marks)
    requires t == WhileS(e, body) && Sound(g, m) && Scoped(g, m) && base <= g.next && GenS(t, g, ret).Some?
    requires OwnSites(body) && FreshSites(m, Sites(body), base)
    ensures Visit(g, m, GenS(t, g, ret).value, m', Sites(body), base)
    decreases t, 1
  {
    hide Sound, Scoped, Visit, GenX, ValueOk, CreateCondBr, BrUnlessTerminated, OwnSites, Sites, FreshSites, NewDefs,
         GenTest, NewBlock;
    var exprBB := |g.blocks|;
    var m0 := EnterDefs(g, m, base);
    var k1 := BrUnlessTerminated(NewBlock(g), exprBB).(cur := exprBB);
    VisitKeeps(g, m, k1, m0, {}, base, ConstInt(0));
    VisitDom(g, m, k1, m0, {}, base);
    var m1 := XDefs(e, k1, ret, m0, base);
    var (v, ty, g1) := GenCond(e, k1, ret).value;
    VisitKeeps(k1, m0, g1, m1, {}, base, v);
    VisitDom(k1, m0, g1, m1, {}, base);
    var trueBB, contBB := |g1.blocks|, |g1.blocks| + 1;
    var m4 := TwoWayDefs(g1, m1, v, ty, base);
    var k := GenTest(NewBlock(NewBlock(g1)), v, ty, trueBB, contBB).(cur := trueBB);
    VisitKeeps(g1, m1, k, m4, {}, base, v);
    VisitThen(k1, m0, g1, m1, k, m4, base);
    VisitThen(g, m, k1, m0, k, m4, base);
    VisitDom(g, m, k, m4, {}, base);
    assert {} + Sites(body) == Sites(body);
    FreshRest(m, m4, {}, Sites(body), base);
    m' := SDefs(body, k, ret, m4, base);
    var g2 := GenS(body, k, ret).value;
    VisitDom(k, m4, g2, m', Sites(body), base);
    VisitTrans(g, m, k, m4, g2, m', {}, Sites(body), base);
    JoinDefs(g, m, g2, m', exprBB, contBB, Sites(body), base);
  }

  /** Into the block that tests the condition of a loop. */
  lemma EnterDefs(g: Gen, m: Marks, base: nat) returns (m': Marks)
    requires Sound(g, m) && base <= g.next
    ensures Visit(g, m, BrUnlessTerminated(NewBlock(g), |g.blocks|).(cur := |g.blocks|), m', {}, base)
    ensures |m'.dom| == |g.blocks| + 1
  {
    hide Sound, Visit, BrUnlessTerminated;
    VisitSelf(g, m, base);
    m' := BlockDefs(g, m, g, m, base);
    JoinDefs(g, m, NewBlock(g), m', |g.blocks|, |g.blocks|, {}, base);
  }

  // ----- functions ------------------------------------------------------------------------------------------------

  function ParamOf(p: Param): F.ParamType {
    if p.isArray then F.PtrParam else match p.ty case IntT => F.IntParam case FloatT => F.FloatParam
  }

  function ParamsOf(ps: seq<Param>): seq<F.ParamType> {
    seq(|ps|, k requires 0 <= k < |ps| => ParamOf(ps[k]))
  }

  lemma ParamDefs(p: Param, k: nat, g: Gen, m: Marks, base: nat) returns (m': Marks)
    requires Sound(g, m) && Scoped(g, m) && base <= g.next && g.scope != []
             && k < |m.params| && m.params[k] == ParamOf(p)
    ensures VisitNames(g, m, GenParam(p, k, g), m', {}, base)
  {
    hide InstrSound, DomOk, Later, VisitNames, Scoped;
    assert g.next !in m.def;
    var i := Alloca(g.next, ParamSlot(p));
    var kind := ParamKind(p);
    m' := AllocaDefs(g, m, i, g.next + 1, p.id, kind, base);
    NamesKeep(g, m, EmitNew(g, i).(scope := PushName(g.scope, p.id, Mem(Reg(g.next), kind))), m', {g.next}, base);
    ParamStore(p, k, g, m, m', i, kind, base);
  }

  lemma ParamStore(p: Param, k: nat, g: Gen, m: Marks, m': Marks, i: Instr, kind: Kind, base: nat)
    requires i == Alloca(g.next, ParamSlot(p)) && kind == ParamKind(p)
    requires VisitNames(g, m, EmitNew(g, i).(scope := PushName(g.scope, p.id, Mem(Reg(g.next), kind))), m', {g.next},
                        base)
    requires AddrOk(EmitNew(g, i), m', Reg(g.next)) && base <= g.next
    requires TypeIn(m', Reg(g.next)) == Some(SlotT(ParamSlot(p))) && k < |m'.params| && m'.params[k] == ParamOf(p)
    ensures VisitNames(g, m, GenParam(p, k, g), m', {}, base)
  {
    hide Sound, Below, AddrKind, Held, NewDefs, Scoped;
    var r := EmitNew(g, i).(scope := PushName(g.scope, p.id, Mem(Reg(g.next), kind)));
    var s := r.(scope := g.scope);
    OnlyNew(g, m, r, m', g.next, base);
    ParamAddr(EmitNew(g, i), r, m', Reg(g.next));
    NamesKeep(g, m, r, m', {}, base);
    ConstArg(r, m', k);
    StoreSound(r, m', Arg(k), Reg(g.next), base);
    var q := Emit(r, Store(Arg(k), Reg(g.next)));
    VisitKeeps(r, m', q, m', {}, base, Arg(k));
    assert q.(scope := r.scope) == q;
    assert GenParam(p, k, g) == q;
    assert VisitNames(r, m', q, m', {}, base);
    NamesTrans(g, m, r, m', q, m', {}, {}, base);
    var none: set<nat> := {};
    assert none + none == none;
  }

  lemma ConstArg(g: Gen, m: Marks, k: nat)
    requires k < |m.params|
    ensures ValueOk(g, m, Arg(k))
  {}

  lemma ParamAddr(g: Gen, g': Gen, m: Marks, p: Operand)
    requires AddrOk(g, m, p) && g'.blocks == g.blocks && g'.cur == g.cur
    ensures AddrOk(g', m, p)
  {}

  lemma {:induction false} ParamsDefs(ps: seq<Param>, k: nat, g: Gen, m: Marks, base: nat) returns (m': Marks)
    requires Sound(g, m) && Scoped(g, m) && base <= g.next && g.scope != []
             && k + |ps| <= |m.params| && (forall j :: 0 <= j < |ps| ==> m.params[k + j] == ParamOf(ps[j]))
    ensures VisitNames(g, m, GenParams(ps, k, g), m', {}, base)
    decreases ps
  {
    hide Sound, Scoped, VisitNames, GenParam;
    if ps == [] {
      NamesSelf(g, m, base);
      m' := m;
    } else {
      var m1 := ParamDefs(ps[0], k, g, m, base);
      var g1 := GenParam(ps[0], k, g);
      NamesKeep(g, m, g1, m1, {}, base);
      m' := ParamsDefs(ps[1..], k + 1, g1, m1, base);
      NamesTrans(g, m, g1, m1, GenParams(ps, k, g), m', {}, {}, base);
      var none: set<nat> := {};
      assert none + none == none;
    }
  }

  /** Names of the surroundings stand for functions, or for global numbers and arrays. */
  predicate NamesOk(globals: map<string, Binding>) {
    forall id :: id in globals && globals[id].Mem? ==> globals[id].addr.GlobalAddr? && !globals[id].kind.PtrK?
  }

  function FunSites(fd: FunDecl): set<nat> {
    DeclSites(fd.decls) + ListSites(fd.stmts)
  }

  /** Every array declaration has a site of its own, below the registers that code generation hands out. */
  predicate OwnSitesOf(fd: FunDecl, base: nat) {
    && OwnDeclSites(fd.decls) && ListOwnSites(fd.stmts) && DeclSites(fd.decls) !! ListSites(fd.stmts)
    && forall r :: r in FunSites(fd) ==> r < base
  }

  /** Then no site is used twice in one scope either. */
  lemma OwnSitesFine(fd: FunDecl, base: nat)
    requires OwnSitesOf(fd, base)
    ensures SourceOk(fd, base)
  {
    assert DeclSites(fd.decls) <= FunSites(fd) && ListSites(fd.stmts) <= FunSites(fd);
    OwnDeclsFine(fd.decls, {}, base);
    OwnListFine(fd.stmts, DeclSites(fd.decls), base);
  }

  lemma {:induction false} OwnDeclsFine(ds: seq<Decl>, used: set<nat>, base: nat)
    requires OwnDeclSites(ds) && DeclSites(ds) !! used && forall r :: r in DeclSites(ds) ==> r < base
    ensures DeclsOk(ds, used, base)
    decreases ds
  {
    if ds != [] {
      assert DeclSites(ds[..1]) == (if ds[0].num.Some? then {ds[0].site} else {}) by { assert ds[..1][1..] == []; }
      OwnDeclsFine(ds[1..], used + DeclSites(ds[..1]), base);
    }
  }

  lemma {:induction false} OwnFine(t: Stmt, used: set<nat>, base: nat)
    requires OwnSites(t) && Sites(t) !! used && forall r :: r in Sites(t) ==> r < base
    ensures SitesOk(t, used, base)
    decreases t, 1
  {
    match t
    case IfS(_, a, None) => OwnFine(a, used, base);
    case IfS(_, a, Some(b)) => OwnFine(a, used, base); OwnFine(b, used, base);
    case WhileS(_, b) => OwnFine(b, used, base);
    case CompoundS(ds, ts) => OwnDeclsFine(ds, used, base); OwnListFine(ts, used + DeclSites(ds), base);
    case _ =>
  }

  lemma {:induction false} OwnListFine(ts: seq<Stmt>, used: set<nat>, base: nat)
    requires ListOwnSites(ts) && ListSites(ts) !! used && forall r :: r in ListSites(ts) ==> r < base
    ensures ListSitesOk(ts, used, base)
    decreases ts, 0
  {
    if ts != [] {
      OwnFine(ts[0], used, base);
      OwnListFine(ts[1..], used, base);
    }
  }

  lemma StartDefs(globals: map<string, Binding>, base: nat, params: seq<F.ParamType>)
    requires NamesOk(globals)
    ensures var g, m := GenStart(globals, base), Marks([{0}], map[], map[], params);
            Sound(g, m) && Scoped(g, m) && g.next == base && g.scope != []
  {}

  lemma FunDefs(fd: FunDecl, globals: map<string, Binding>, base: nat) returns (m: Marks)
    requires GenFun(fd, globals, base).Some? && NamesOk(globals) && OwnSitesOf(fd, base)
    ensures Sound(GenFun(fd, globals, base).value, m) && m.params == ParamsOf(fd.params)
  {
    hide Sound, Scoped, VisitNames, GenDecls, GenList, GenParams, Sites, Visit, OwnDeclSites, ListOwnSites;
    var g0, m0 := GenStart(globals, base), Marks([{0}], map[], map[], ParamsOf(fd.params));
    StartDefs(globals, base, ParamsOf(fd.params));
    var m1 := ParamsDefs(fd.params, 0, g0, m0, base);
    var g1 := GenParams(fd.params, 0, g0);
    NamesKeep(g0, m0, g1, m1, {}, base);
    assert {} + FunSites(fd) == FunSites(fd);
    FreshRest(m0, m1, {}, FunSites(fd), base);
    var m2 := DeclsDefs(fd.decls, g1, m1, base);
    var g2 := GenDecls(fd.decls, g1);
    NamesKeep(g1, m1, g2, m2, DeclSites(fd.decls), base);
    FreshRest(m1, m2, DeclSites(fd.decls), ListSites(fd.stmts), base);
    m := ListDefs(fd.stmts, g2, fd.ret, m2, base);
    var g3 := GenList(fd.stmts, g2, fd.ret).value;
    VisitKeeps(g2, m2, g3, m, ListSites(fd.stmts), base, ConstInt(0));
    LastDefs(g3, m, fd.ret, base);
  }

  lemma LastDefs(g: Gen, m: Marks, ret: Option<Ty>, base: nat)
    requires Sound(g, m) && base <= g.next
    ensures Sound(PopScope(g), m) && Sound(PopScope(Emit(g, DefaultRet(ret))), m)
  {
    hide InstrSound, DomOk, DefsOk;
    ConstOk(g, m, 0);
    FloatOk(g, m, 0.0);
    SameSound(g, m, PopScope(g));
    RetSound(g, m, DefaultRet(ret), base);
    var h := Emit(g, DefaultRet(ret));
    SameSound(h, m, PopScope(h));
  }

  // ----- dominance --------------------------------------------------------------------------------------------------

  /** Register `r` is set by one of these instructions. */
  predicate SetIn(body: seq<Instr>, r: nat) {
    exists k :: 0 <= k < |body| && HasDst(body[k]) && body[k].dst == r
  }

  /** What is marked as a dominator lies on every path from the entry. */
  lemma {:induction false} MarkOnPath(q: G.Graph, dom: seq<set<nat>>, p: seq<nat>, b: nat, d: nat)
    requires G.WellFormed(q) && DomOk(q.pred, dom) && G.PathTo(q, p, b) && b < |dom| && d in dom[b]
    ensures d in p
    decreases |p|
  {
    if |p| > 1 && d != b {
      var a := p[|p| - 2];
      assert a in q.pred[b];
      MarkOnPath(q, dom, p[..|p| - 1], a, d);
    }
  }

  lemma MarkDominates(q: G.Graph, dom: seq<set<nat>>, b: nat, d: nat)
    requires G.WellFormed(q) && DomOk(q.pred, dom) && b < |dom| && d in dom[b]
    ensures G.Dominates(q, d, b)
  {
    forall p | G.PathTo(q, p, b) ensures d in p { MarkOnPath(q, dom, p, b, d); }
  }

  /** In generated code every register that an instruction reads is set earlier in the same block, or in
      a block that dominates it. */
  lemma DefsDominateUses(fd: FunDecl, globals: map<string, Binding>, base: nat, b: nat, i: nat, r: nat)
    requires GenFun(fd, globals, base).Some? && NamesOk(globals) && OwnSitesOf(fd, base)
    requires var f := GenFun(fd, globals, base).value.blocks; b < |f| && i < |f[b]| && Uses(f[b][i], r)
    ensures var g := GenFun(fd, globals, base).value;
            G.WellFormed(GraphOf(g)) &&
            (SetIn(g.blocks[b][..i], r) ||
             exists d: nat :: d < |g.blocks| && d != b && G.Dominates(GraphOf(g), d, b) && SetIn(g.blocks[d], r))
  {
    var g := GenFun(fd, globals, base).value;
    FunCfg(fd, globals, base);
    var m := FunDefs(fd, globals, base);
    UseIsDominated(g, m, b, i, r);
  }

  lemma UseIsDominated(g: Gen, m: Marks, b: nat, i: nat, r: nat)
    requires Sound(g, m) && G.WellFormed(GraphOf(g)) && b < |g.blocks| && i < |g.blocks[b]| && Uses(g.blocks[b][i], r)
    ensures SetIn(g.blocks[b][..i], r) ||
            exists d: nat :: d < |g.blocks| && d != b && G.Dominates(GraphOf(g), d, b) && SetIn(g.blocks[d], r)
  {
    hide DomOk, G.Dominates, G.WellFormed;
    assert InstrSound(g.blocks, m, b, i);
    var at := m.def[r];
    assert DefAt(g.blocks, at, r);
    if at.0 == b {
      assert g.blocks[b][..i][at.1] == g.blocks[b][at.1];
    } else {
      MarkDominates(GraphOf(g), m.dom, b, at.0);
    }
  }
}

/** The arrays that generated code reserves are those that the source declares, with their sizes. */
module CodegenArrays {
  import opened IR
  import opened Cminus
  import opened Codegen
  import opened CodegenCfg
  import opened StaticCheck

  /** The allocas of arrays in the code. */
  function Arrays(blocks: seq<seq<Instr>>): set<Instr> {
    set b: nat, j: nat | b < |blocks| && j < |blocks[b]| && blocks[b][j].Alloca? && blocks[b][j].ty.ArraySlot? ::
      blocks[b][j]
  }

  /** What the arrays of a list of declarations are reserved by. */
  function Reserved(ds: seq<Decl>): set<Instr> {
    set d | d in ds && d.num.Some? :: Alloca(d.site, ArraySlot(d.num.value))
  }

  /** The declarations that control may get to. */
  function DeclsIn(t: Stmt): seq<Decl>
    decreases t, 0
  {
    match t
    case IfS(_, a, None) => DeclsIn(a)
    case IfS(_, a, Some(b)) => DeclsIn(a) + DeclsIn(b)
    case WhileS(_, b) => DeclsIn(b)
    case CompoundS(ds, ts) => ds + DeclsInList(ts)
    case _ => []
  }

  function DeclsInList(ts: seq<Stmt>): seq<Decl>
    decreases ts, 0
  {
    if ts == [] then [] else DeclsIn(ts[0]) + if Leaves(ts[0]) then [] else DeclsInList(ts[1..])
  }

  lemma EmitArrays(g: Gen, i: Instr)
    requires g.cur < |g.blocks|
    ensures Arrays(Emit(g, i).blocks) == Arrays(g.blocks) + if i.Alloca? && i.ty.ArraySlot? then {i} else {}
  {
    var g' := Emit(g, i);
    forall x ensures x in Arrays(g'.blocks) <==> x in Arrays(g.blocks) || (x == i && i.Alloca? && i.ty.ArraySlot?) {
      if b: nat, j: nat :| b < |g.blocks| && j < |g.blocks[b]| && g.blocks[b][j].Alloca? && g.blocks[b][j].ty.ArraySlot?
                           && x == g.blocks[b][j] {
        assert g'.blocks[b][j] == x;
      }
      assert g'.blocks[g.cur][|g.blocks[g.cur]|] == i;
    }
  }

  lemma NewBlockArrays(g: Gen)
    ensures Arrays(NewBlock(g).blocks) == Arrays(g.blocks)
  {
    forall x ensures x in Arrays(NewBlock(g).blocks) <==> x in Arrays(g.blocks) {
      if b: nat, j: nat :| b < |g.blocks| && j < |g.blocks[b]| && g.blocks[b][j].Alloca? && g.blocks[b][j].ty.ArraySlot?
                           && x == g.blocks[b][j] {
        assert NewBlock(g).blocks[b][j] == x;
      }
    }
  }

  lemma BrArrays(g: Gen, t: nat)
    requires g.cur < |g.blocks|
    ensures Arrays(BrUnlessTerminated(g, t).blocks) == Arrays(g.blocks)
  {
    hide Arrays;
    if !Terminated(g) { EmitArrays(AddSucc(AddPred(g, t, g.cur), g.cur, t), Br(t)); }
  }

  lemma CondBrArrays(g: Gen, c: Operand, t: nat, f: nat)
    requires g.cur < |g.blocks|
    ensures Arrays(CreateCondBr(g, c, t, f).blocks) == Arrays(g.blocks)
  {
    hide Arrays;
    EmitArrays(AddSucc(AddSucc(AddPred(AddPred(g, t, g.cur), f, g.cur), g.cur, f), g.cur, t), CondBr(c, t, f));
  }

  /** Code was added that reserves no array. */
  ghost predicate NoArray(g: Gen, g': Gen) {
    Arrays(g'.blocks) == Arrays(g.blocks)
  }

  lemma NewArrays(g: Gen, i: Instr)
    requires g.cur < |g.blocks| && !i.Alloca?
    ensures NoArray(g, EmitNew(g, i)) && NoArray(g, Emit(g, i))
  {
    hide Arrays;
    EmitArrays(g, i);
  }

  lemma ConvArrays(v: Operand, from: Ty, to: Ty, g: Gen)
    requires g.cur < |g.blocks|
    ensures NoArray(g, GenConv(v, from, to, g).1) && GenConv(v, from, to, g).1.cur == g.cur
            && |GenConv(v, from, to, g).1.blocks| == |g.blocks|
  {
    hide Arrays;
    NewArrays(g, Conv(g.next, if from.IntT? then SiToFp else FpToSi, v));
  }

  lemma StoreArrays(v: Operand, from: Ty, to: Ty, p: Operand, g: Gen)
    requires g.cur < |g.blocks|
    ensures NoArray(g, GenStore(v, from, to, p, g).1)
  {
    hide Arrays;
    ConvArrays(v, from, to, g);
    var (v', g') := GenConv(v, from, to, g);
    NewArrays(g', Store(v', p));
  }

  lemma CheckArrays(g: Gen, v: Operand, fn: nat, ret: Option<Ty>)
    requires g.cur < |g.blocks|
    ensures NoArray(g, GenCheck(g, v, fn, ret))
  {
    hide Arrays;
    var except, cont := |g.blocks|, |g.blocks| + 1;
    NewBlockArrays(g);
    NewBlockArrays(NewBlock(g));
    var g1 := NewBlock(NewBlock(g));
    NewArrays(g1, Cmp(g1.next, LT, v, ConstInt(0)));
    var g2 := EmitNew(g1, Cmp(g1.next, LT, v, ConstInt(0)));
    CondBrArrays(g2, Reg(g1.next), except, cont);
    var g3 := CreateCondBr(g2, Reg(g1.next), except, cont).(cur := except);
    NewArrays(g3, Call(g3.next, fn, []));
    NewArrays(EmitNew(g3, Call(g3.next, fn, [])), DefaultRet(ret));
  }

  lemma ElementArrays(b: Binding, v: Operand, g: Gen)
    requires g.cur < |g.blocks| && GenElement(b, v, g).Some?
    ensures NoArray(g, GenElement(b, v, g).value.1)
  {
    hide Arrays;
    match b.kind
    case NumK(_) => NewArrays(g, Gep(g.next, b.addr, [v]));
    case ArrK(_) => NewArrays(g, Gep(g.next, b.addr, [ConstInt(0), v]));
    case PtrK(_) =>
      NewArrays(g, Load(g.next, b.addr));
      var g1 := EmitNew(g, Load(g.next, b.addr));
      NewArrays(g1, Gep(g1.next, Reg(g.next), [v]));
  }

  lemma OpenSize(g: Gen)
    requires Open(g)
    ensures g.cur < |g.blocks|
  {}

  lemma {:induction false} XArrays(e: Expr, g: Gen, ret: Option<Ty>)
    requires Open(g) && GenX(e, g, ret).Some?
    ensures NoArray(g, GenX(e, g, ret).value.1)
    decreases e, 0
  {
    hide Open, Arrays, Emit, Find, GenConv, GenElement, GenCheck, TypeX, GenTwo, GenIndex, GenStore;
    OpenSize(g);
    match e
    case Num(_) =>
    case FloatNum(_) =>
    case Name(id) =>
      var a := Find(g.scope, id).value.addr;
      NewArrays(g, Gep(g.next, a, [ConstInt(0), ConstInt(0)]));
      NewArrays(g, Load(g.next, a));
    case Index(id, x) =>
      IndexArrays(id, x, g, ret);
      IndexCfg(id, x, g, ret);
      var (p, g1) := GenIndex(id, x, g, ret).value;
      OpenSize(g1);
      NewArrays(g1, Load(g1.next, p));
    case AssignName(id, x) =>
      XArrays(x, g, ret);
      AfterX(x, g, ret);
      var (v, g1) := GenX(x, g, ret).value;
      OpenSize(g1);
      StoreArrays(v, TypeX(x, g.scope).t, Find(g.scope, id).value.kind.t, Find(g.scope, id).value.addr, g1);
    case AssignIndex(id, x, y) =>
      XArrays(y, g, ret);
      AfterX(y, g, ret);
      var (v, g1) := GenX(y, g, ret).value;
      IndexArrays(id, x, g1, ret);
      IndexCfg(id, x, g1, ret);
      var (p, g2) := GenIndex(id, x, g1, ret).value;
      OpenSize(g2);
      StoreArrays(v, TypeX(y, g.scope).t, ElementOf(Find(g.scope, id)).t, p, g2);
    case BinX(op, l, r) =>
      TwoArrays(l, r, g, ret);
      TwoCfg(l, r, g, ret);
      var (a, b, t, g1) := GenTwo(l, r, g, ret).value;
      OpenSize(g1);
      NewArrays(g1, Bin(g1.next, ArithInstr(op, t), a, b));
    case RelX(rel, l, r) =>
      TwoArrays(l, r, g, ret);
      TwoCfg(l, r, g, ret);
      var (a, b, t, g1) := GenTwo(l, r, g, ret).value;
      RelArrays(rel, t, a, b, g1);
    case CallX(id, xs) =>
      var params := Find(g.scope, id).value.params;
      XsArrays(xs, params, g, ret);
      XsCfg(xs, params, g, ret);
      var (vs, g1) := GenXs(xs, params, g, ret).value;
      OpenSize(g1);
      NewArrays(g1, Call(g1.next, Find(g.scope, id).value.fn, vs));
  }

  lemma RelArrays(rel: RelOp, t: Ty, a: Operand, b: Operand, g: Gen)
    requires Open(g)
    ensures var g2 := EmitNew(g, Cmp(g.next, RelInstr(rel, t), a, b));
            NoArray(g, EmitNew(g2, Conv(g2.next, ZExt, Reg(g.next))))
  {
    hide Arrays;
    NewArrays(g, Cmp(g.next, RelInstr(rel, t), a, b));
    var g2 := EmitNew(g, Cmp(g.next, RelInstr(rel, t), a, b));
    NewArrays(g2, Conv(g2.next, ZExt, Reg(g.next)));
  }

  lemma {:induction false} TwoArrays(l: Expr, r: Expr, g: Gen, ret: Option<Ty>)
    requires Open(g) && GenTwo(l, r, g, ret).Some?
    ensures NoArray(g, GenTwo(l, r, g, ret).value.3)
    decreases if l < r then r else l, 1
  {
    hide Open, Arrays, GenX, TypeX, GenConv;
    XArrays(l, g, ret);
    AfterX(l, g, ret);
    var (a, g1) := GenX(l, g, ret).value;
    XArrays(r, g1, ret);
    AfterX(r, g1, ret);
    var (b, g2) := GenX(r, g1, ret).value;
    OpenSize(g2);
    var s, t := TypeX(l, g.scope).t, TypeX(r, g.scope).t;
    ConvArrays(a, s, Join(s, t), g2);
    ConvArrays(b, t, Join(s, t), GenConv(a, s, Join(s, t), g2).1);
  }

  lemma {:induction false} XsArrays(xs: seq<Expr>, params: seq<ExprTy>, g: Gen, ret: Option<Ty>)
    requires Open(g) && GenXs(xs, params, g, ret).Some?
    ensures NoArray(g, GenXs(xs, params, g, ret).value.1)
    decreases xs, 0
  {
    hide Open, Arrays, GenX, TypeX, GenConv;
    if xs != [] {
      XArrays(xs[0], g, ret);
      AfterX(xs[0], g, ret);
      var (v, g1) := GenX(xs[0], g, ret).value;
      var t := TypeX(xs[0], g.scope);
      AfterPass(v, t, params[0], g, g1);
      OpenSize(g1);
      if t.Scalar? { ConvArrays(v, t.t, params[0].t, g1); }
      XsArrays(xs[1..], params[1..], GenPass(v, t, params[0], g1).value.1, ret);
    }
  }

  lemma {:induction false} IndexArrays(id: string, x: Expr, g: Gen, ret: Option<Ty>)
    requires Open(g) && GenIndex(id, x, g, ret).Some?
    ensures NoArray(g, GenIndex(id, x, g, ret).value.1)
    decreases x, 1
  {
    hide Arrays, GenX, TypeX, GenConv, Find, GenCheck, GenElement, Cfg;
    XArrays(x, g, ret);
    AfterX(x, g, ret);
    var (v, g1) := GenX(x, g, ret).value;
    var b, fn := Find(g.scope, id).value, Find(g.scope, NEG_IDX).value.fn;
    OpenSize(g1);
    ConvArrays(v, TypeX(x, g.scope).t, IntT, g1);
    SelfKept(g1);
    ConvCfg(g1, v, TypeX(x, g.scope).t, IntT, g1);
    var (n, g2) := GenConv(v, TypeX(x, g.scope).t, IntT, g1);
    CheckArrays(g2, n, fn, ret);
    CheckCfg(g2, n, fn, ret);
    var g3 := GenCheck(g2, n, fn, ret);
    OpenSize(g3);
    ElementArrays(b, n, g3);
  }

  // ----- statements -------------------------------------------------------------------------------------------------

  lemma DeclArrays(d: Decl, g: Gen)
    requires g.cur < |g.blocks|
    ensures Arrays(GenDecl(d, g).blocks) == Arrays(g.blocks) + Reserved([d])
  {
    hide Arrays;
    EmitArrays(g, if d.num.None? then Alloca(g.next, SlotFor(d.ty)) else Alloca(d.site, ArraySlot(d.num.value)));
    if d.num.Some? { assert Reserved([d]) == {Alloca(d.site, ArraySlot(d.num.value))} by { assert d in [d]; } }
  }

  lemma {:induction false} DeclsArrays(ds: seq<Decl>, g: Gen)
    requires Open(g) && g.scope != []
    ensures Arrays(GenDecls(ds, g).blocks) == Arrays(g.blocks) + Reserved(ds)
    decreases ds
  {
    hide Arrays, GenDecl, Cfg;
    if ds != [] {
      OpenSize(g);
      DeclArrays(ds[0], g);
      DeclCfg(ds[0], g);
      DeclScope(ds[0], g);
      DeclsArrays(ds[1..], GenDecl(ds[0], g));
      assert ds == [ds[0]] + ds[1..];
      ReservedSum([ds[0]], ds[1..]);
    }
  }

  lemma ReservedSum(ds: seq<Decl>, es: seq<Decl>)
    ensures Reserved(ds + es) == Reserved(ds) + Reserved(es)
  {}

  lemma TestArrays(g: Gen, v: Operand, ty: Ty, t: nat, f: nat)
    requires g.cur < |g.blocks|
    ensures NoArray(g, GenTest(g, v, ty, t, f))
  {
    hide Arrays;
    var i := Cmp(g.next, RelInstr(NotEqual, ty), v, Zero(ty));
    NewArrays(g, i);
    CondBrArrays(EmitNew(g, i), Reg(g.next), t, f);
  }

  lemma {:induction false} SArrays(t: Stmt, g: Gen, ret: Option<Ty>)
    requires Open(g) && GenS(t, g, ret).Some?
    ensures Arrays(GenS(t, g, ret).value.blocks) == Arrays(g.blocks) + Reserved(DeclsIn(t))
    decreases t, 1
  {
    hide Cfg, Arrays, GenX, TypeX, GenTest, GenDecls, BrUnlessTerminated, GenConv, Emit, Keeps;
    OpenSize(g);
    match t
    case ExprS(None) =>
    case ExprS(Some(e)) => XArrays(e, g, ret);
    case ReturnS(None) => NewArrays(g, Ret(None));
    case ReturnS(Some(e)) =>
      XArrays(e, g, ret);
      AfterX(e, g, ret);
      var (v, g1) := GenX(e, g, ret).value;
      OpenSize(g1);
      ConvArrays(v, TypeX(e, g.scope).t, ret.value, g1);
      var (v', g2) := GenConv(v, TypeX(e, g.scope).t, ret.value, g1);
      NewArrays(g2, Ret(Some(v')));
    case IfS(e, a, None) =>
      var v, ty, g1, k, g2, r := IfCfg(e, a, g, ret, t);
      XArrays(e, g, ret);
      TwoBlocks(g1, v, ty, |g1.blocks|, |g1.blocks| + 1);
      SArrays(a, k, ret);
      CfgSizes(g2);
      BrArrays(g2, |g1.blocks| + 1);
    case IfS(e, a, Some(b)) =>
      var v, ty, g1, k, g2, k2, g3, r := IfElseCfg(e, a, b, g, ret, t);
      XArrays(e, g, ret);
      ThreeBlocks(g1, v, ty, |g1.blocks|, |g1.blocks| + 2);
      SArrays(a, k, ret);
      CfgSizes(g2);
      BrArrays(g2, |g1.blocks| + 1);
      SArrays(b, k2, ret);
      CfgSizes(g3);
      BrArrays(g3, |g1.blocks| + 1);
      ReservedSum(DeclsIn(a), DeclsIn(b));
    case WhileS(e, body) =>
      var k1, v, ty, g1, k, g2, r := WhileCfg(e, body, g, ret, t);
      NewBlockArrays(g);
      BrArrays(NewBlock(g), |g.blocks|);
      XArrays(e, k1, ret);
      TwoBlocks(g1, v, ty, |g1.blocks|, |g1.blocks| + 1);
      SArrays(body, k, ret);
      CfgSizes(g2);
      BrArrays(g2, |g.blocks|);
    case CompoundS(ds, ts) =>
      var g0 := g.(scope := g.scope + [map[]]);
      OpenRescoped(g, g0.scope);
      DeclsArrays(ds, g0);
      DeclsCfg(ds, g0);
      ListArrays(ts, GenDecls(ds, g0), ret);
      ReservedSum(ds, DeclsInList(ts));
  }

  lemma TwoBlocks(g: Gen, v: Operand, ty: Ty, t: nat, f: nat)
    requires Open(g)
    ensures NoArray(g, GenTest(NewBlock(NewBlock(g)), v, ty, t, f))
  {
    hide Arrays;
    NewBlockArrays(g);
    NewBlockArrays(NewBlock(g));
    TestArrays(NewBlock(NewBlock(g)), v, ty, t, f);
  }

  lemma ThreeBlocks(g: Gen, v: Operand, ty: Ty, t: nat, f: nat)
    requires Open(g)
    ensures NoArray(g, GenTest(NewBlock(NewBlock(NewBlock(g))), v, ty, t, f))
  {
    hide Arrays;
    NewBlockArrays(g);
    NewBlockArrays(NewBlock(g));
    NewBlockArrays(NewBlock(NewBlock(g)));
    TestArrays(NewBlock(NewBlock(NewBlock(g))), v, ty, t, f);
  }

  lemma {:induction false} ListArrays(ts: seq<Stmt>, g: Gen, ret: Option<Ty>)
    requires Open(g) && GenList(ts, g, ret).Some?
    ensures Arrays(GenList(ts, g, ret).value.blocks) == Arrays(g.blocks) + Reserved(DeclsInList(ts))
    decreases ts, 0
  {
    hide Cfg, Arrays, GenS, Leaves, DeclsIn;
    if ts != [] {
      SArrays(ts[0], g, ret);
      SFine(ts[0], g, ret);
      SCfg(ts[0], g, ret);
      var g1 := GenS(ts[0], g, ret).value;
      if !Terminated(g1) {
        ListArrays(ts[1..], g1, ret);
        ReservedSum(DeclsIn(ts[0]), DeclsInList(ts[1..]));
      } else {
        assert DeclsIn(ts[0]) + [] == DeclsIn(ts[0]);
      }
    }
  }

  lemma {:induction false} ParamsArrays(ps: seq<Param>, k: nat, g: Gen)
    requires Open(g) && g.scope != []
    ensures Arrays(GenParams(ps, k, g).blocks) == Arrays(g.blocks)
    decreases ps
  {
    hide Arrays, Cfg, GenParam;
    if ps != [] {
      ParamArrays(ps[0], k, g);
      ParamCfg(ps[0], k, g);
      ParamScope(ps[0], k, g);
      ParamsArrays(ps[1..], k + 1, GenParam(ps[0], k, g));
    }
  }

  lemma ParamArrays(p: Param, k: nat, g: Gen)
    requires Open(g)
    ensures Arrays(GenParam(p, k, g).blocks) == Arrays(g.blocks)
  {
    hide Arrays;
    var i := Alloca(g.next, ParamSlot(p));
    EmitArrays(g, i);
    EmitArrays(EmitNew(g, i), Store(Arg(k), Reg(g.next)));
  }

  /** The allocas of arrays in a generated function are exactly those for the array declarations that control
      may get to: one with the site of the declaration and its size. */
  lemma FunctionArrays(fd: FunDecl, names: map<string, Binding>, base: nat, i: Instr)
    requires GenFun(fd, names, base).Some?
    ensures var f := GenFun(fd, names, base).value.blocks;
            (i.Alloca? && i.ty.ArraySlot? && exists b, j :: 0 <= b < |f| && 0 <= j < |f[b]| && f[b][j] == i) <==>
            exists d, n :: d in fd.decls + DeclsInList(fd.stmts) && d.num == Some(n)
                           && i == Alloca(d.site, ArraySlot(n))
  {
    hide Cfg, GenList, GenParams, GenDecls, DeclsInList;
    var g0 := GenStart(names, base);
    var g1 := GenParams(fd.params, 0, g0);
    var g2 := GenDecls(fd.decls, g1);
    StartIsOpen(names, base);
    ParamsArrays(fd.params, 0, g0);
    ParamsCfg(fd.params, 0, g0);
    ParamsScope(fd.params, 0, g0);
    DeclsArrays(fd.decls, g1);
    DeclsCfg(fd.decls, g1);
    ListArrays(fd.stmts, g2, fd.ret);
    ListCfg(fd.stmts, g2, fd.ret);
    var g3 := GenList(fd.stmts, g2, fd.ret).value;
    CfgSizes(g3);
    NewArrays(g3, DefaultRet(fd.ret));
    ReservedSum(fd.decls, DeclsInList(fd.stmts));
    var f := GenFun(fd, names, base).value.blocks;
    assert Arrays(f) == Reserved(fd.decls + DeclsInList(fd.stmts));
    ArraysHas(f, i);
    ReservedHas(fd.decls + DeclsInList(fd.stmts), i);
  }

  lemma ArraysHas(f: seq<seq<Instr>>, i: Instr)
    ensures i in Arrays(f) <==>
            i.Alloca? && i.ty.ArraySlot? && exists b, j :: 0 <= b < |f| && 0 <= j < |f[b]| && f[b][j] == i
  {}

  lemma ReservedHas(ds: seq<Decl>, i: Instr)
    ensures i in Reserved(ds) <==> exists d, n :: d in ds && d.num == Some(n) && i == Alloca(d.site, ArraySlot(n))
  {}
}

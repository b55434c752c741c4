/** Which functions can be compiled: a static check of names, kinds and argument lists, and the proof that
    code generation succeeds on exactly the functions that pass it. */
module StaticCheck {
  import opened IR
  import opened Cminus
  import opened Codegen
  import opened CodegenCfg

  // ----- the check ------------------------------------------------------------------------------------------------

  /** What a name is declared as. */
  datatype Sort = NumberS(t: Ty) | ArrayS(t: Ty) | FunctionS(params: seq<ExprTy>, ret: Option<Ty>)

  type Names = map<string, Sort>

  /** A function without parameters stands ready for negative indices. */
  predicate HasHandler(names: Names) {
    NEG_IDX in names && names[NEG_IDX].FunctionS? && names[NEG_IDX].params == []
  }

  /** An argument of this type can be passed: an address to any parameter, a number to one that is a number. */
  predicate CanPass(from: Option<ExprTy>, to: ExprTy) {
    from.Some? && (from.value.PtrTo? || (from.value.Scalar? && to.Scalar?))
  }

  predicate IsNumber(t: Option<ExprTy>) {
    t.Some? && t.value.Scalar?
  }

  /** The type of an expression; None when it is ill-formed. */
  function Check(e: Expr, names: Names): Option<ExprTy>
    decreases e
  {
    match e
    case Num(_) => Some(Scalar(IntT))
    case FloatNum(_) => Some(Scalar(FloatT))
    case Name(id) =>
      if id !in names then None
      else (match names[id]
            case NumberS(t) => Some(Scalar(t))
            case ArrayS(t) => Some(PtrTo(t))
            case FunctionS(_, _) => None)
    case Index(id, x) =>
      if id in names && !names[id].FunctionS? && IsNumber(Check(x, names)) && HasHandler(names)
      then Some(Scalar(names[id].t))
      else None
    case AssignName(id, x) =>
      if id in names && names[id].NumberS? && IsNumber(Check(x, names)) then Some(Scalar(names[id].t)) else None
    case AssignIndex(id, x, y) =>
      if id in names && !names[id].FunctionS? && IsNumber(Check(x, names)) && IsNumber(Check(y, names))
         && HasHandler(names)
      then Some(Scalar(names[id].t)) else None
    case BinX(_, l, r) =>
      if IsNumber(Check(l, names)) && IsNumber(Check(r, names)) then
        Some(Scalar(if Check(l, names) == Check(r, names) == Some(Scalar(IntT)) then IntT else FloatT))
      else None
    case RelX(_, l, r) => if IsNumber(Check(l, names)) && IsNumber(Check(r, names)) then Some(Scalar(IntT)) else None
    case CallX(id, xs) =>
      if id in names && names[id].FunctionS? && |xs| == |names[id].params|
         && forall k :: 0 <= k < |xs| ==> CanPass(Check(xs[k], names), names[id].params[k])
      then (match names[id].ret case Some(t) => Some(Scalar(t)) case None => Some(NoValue))
      else None
  }

  function DeclSort(d: Decl): Sort {
    if d.num.None? then NumberS(d.ty) else ArrayS(d.ty)
  }

  /** The first declaration of a name counts. */
  function DeclaredIn(ds: seq<Decl>): Names {
    if ds == [] then map[] else DeclaredIn(ds[1..])[ds[0].id := DeclSort(ds[0])]
  }

  function ParamSort(p: Param): Sort {
    if p.isArray then ArrayS(p.ty) else NumberS(p.ty)
  }

  function ParamsIn(ps: seq<Param>): Names {
    if ps == [] then map[] else ParamsIn(ps[1..])[ps[0].id := ParamSort(ps[0])]
  }

  /** Control never gets past a return statement, whether it is the statement or in a list that it consists
      of; the branches of an if are not looked into. */
  predicate Leaves(t: Stmt)
    decreases t
  {
    match t
    case ReturnS(_) => true
    case CompoundS(_, ts) => exists k :: 0 <= k < |ts| && Leaves(ts[k])
    case _ => false
  }

  predicate Fine(t: Stmt, names: Names, ret: Option<Ty>)
    decreases t, 0
  {
    match t
    case ExprS(None) => true
    case ExprS(Some(e)) => Check(e, names).Some?
    case ReturnS(None) => true
    case ReturnS(Some(e)) => ret.Some? && IsNumber(Check(e, names))
    case IfS(e, a, None) => IsNumber(Check(e, names)) && Fine(a, names, ret)
    case IfS(e, a, Some(b)) => IsNumber(Check(e, names)) && Fine(a, names, ret) && Fine(b, names, ret)
    case WhileS(e, body) => IsNumber(Check(e, names)) && Fine(body, names, ret)
    case CompoundS(ds, ts) => ListFine(ts, names + DeclaredIn(ds), ret)
  }

  /** What comes after a statement that control never gets past is not looked at. */
  predicate ListFine(ts: seq<Stmt>, names: Names, ret: Option<Ty>)
    decreases ts, 0
  {
    ts == [] || (Fine(ts[0], names, ret) && (Leaves(ts[0]) || ListFine(ts[1..], names, ret)))
  }

  /** Parameters come before the declarations of the body. */
  predicate FunctionFine(fd: FunDecl, names: Names) {
    ListFine(fd.stmts, names + (DeclaredIn(fd.decls) + ParamsIn(fd.params)), fd.ret)
  }

  function ParamSorts(ps: seq<Param>): seq<ExprTy> {
    if ps == [] then [] else [if ps[0].isArray then PtrTo(ps[0].ty) else Scalar(ps[0].ty)] + ParamSorts(ps[1..])
  }

  // ----- names in scope ---------------------------------------------------------------------------------------------

  function SortOf(b: Binding): Sort {
    match b
    case Mem(_, NumK(t)) => NumberS(t)
    case Mem(_, k) => ArrayS(k.t)
    case Fun(_, ps, r) => FunctionS(ps, r)
  }

  function SortsOf(m: map<string, Binding>): Names {
    map id | id in m :: SortOf(m[id])
  }

  function ScopeSorts(scope: Scope): Names {
    if scope == [] then map[] else ScopeSorts(scope[..|scope| - 1]) + SortsOf(scope[|scope| - 1])
  }

  lemma {:induction false} FindSort(scope: Scope, id: string)
    ensures Find(scope, id).Some? <==> id in ScopeSorts(scope)
    ensures Find(scope, id).Some? ==> ScopeSorts(scope)[id] == SortOf(Find(scope, id).value)
    decreases |scope|
  {
    if scope != [] { FindSort(scope[..|scope| - 1], id); }
  }

  // ----- expressions ------------------------------------------------------------------------------------------------

  lemma {:induction false} XFine(e: Expr, g: Gen, ret: Option<Ty>)
    requires Open(g)
    ensures GenX(e, g, ret).Some? <==> Check(e, ScopeSorts(g.scope)).Some?
    ensures GenX(e, g, ret).Some? ==> Check(e, ScopeSorts(g.scope)) == Some(TypeX(e, g.scope))
    decreases e, 0
  {
    hide Open, ScopeSorts, Find, GenElement, GenCheck, Emit;
    match e
    case Num(_) =>
    case FloatNum(_) =>
    case Name(id) => FindSort(g.scope, id);
    case Index(id, x) =>
      FindSort(g.scope, id);
      IndexFine(id, x, g, ret);
    case AssignName(id, x) =>
      FindSort(g.scope, id);
      XFine(x, g, ret);
    case AssignIndex(id, x, y) =>
      FindSort(g.scope, id);
      XFine(y, g, ret);
      if GenX(y, g, ret).Some? {
        AfterX(y, g, ret);
        IndexFine(id, x, GenX(y, g, ret).value.1, ret);
      }
    case BinX(_, l, r) => TwoFine(l, r, g, ret);
    case RelX(_, l, r) => TwoFine(l, r, g, ret);
    case CallX(id, xs) =>
      FindSort(g.scope, id);
      if Find(g.scope, id).Some? && Find(g.scope, id).value.Fun? { XsFine(xs, Find(g.scope, id).value.params, g, ret); }
  }

  lemma AfterX(e: Expr, g: Gen, ret: Option<Ty>)
    requires Open(g) && GenX(e, g, ret).Some?
    ensures Open(GenX(e, g, ret).value.1) && GenX(e, g, ret).value.1.scope == g.scope
  {
    XCfg(e, g, ret);
  }

  predicate IndexOk(id: string, x: Expr, names: Names) {
    id in names && !names[id].FunctionS? && IsNumber(Check(x, names)) && HasHandler(names)
  }

  lemma {:induction false} IndexFine(id: string, x: Expr, g: Gen, ret: Option<Ty>)
    requires Open(g)
    ensures GenIndex(id, x, g, ret).Some? <==> IndexOk(id, x, ScopeSorts(g.scope))
    decreases x, 1
  {
    hide Open, ScopeSorts, Find, GenCheck, Emit, GenX, TypeX;
    FindSort(g.scope, id);
    FindSort(g.scope, NEG_IDX);
    XFine(x, g, ret);
  }

  lemma {:induction false} TwoFine(l: Expr, r: Expr, g: Gen, ret: Option<Ty>)
    requires Open(g)
    ensures GenTwo(l, r, g, ret).Some? <==>
            IsNumber(Check(l, ScopeSorts(g.scope))) && IsNumber(Check(r, ScopeSorts(g.scope)))
    ensures GenTwo(l, r, g, ret).Some? ==>
              Check(l, ScopeSorts(g.scope)) == Some(TypeX(l, g.scope))
              && Check(r, ScopeSorts(g.scope)) == Some(TypeX(r, g.scope))
    decreases if l < r then r else l, 1
  {
    hide Open, ScopeSorts, GenX, TypeX, Check, GenPromote;
    XFine(l, g, ret);
    if GenX(l, g, ret).Some? {
      AfterX(l, g, ret);
      XFine(r, GenX(l, g, ret).value.1, ret);
    }
  }

  lemma {:induction false} XsFine(xs: seq<Expr>, params: seq<ExprTy>, g: Gen, ret: Option<Ty>)
    requires Open(g)
    ensures GenXs(xs, params, g, ret).Some? <==>
            |xs| <= |params| && forall k :: 0 <= k < |xs| ==> CanPass(Check(xs[k], ScopeSorts(g.scope)), params[k])
    ensures GenXs(xs, params, g, ret).Some? ==> |GenXs(xs, params, g, ret).value.0| == |xs|
    decreases xs, 0
  {
    hide Open, ScopeSorts, GenX, TypeX, Check, GenConv;
    var names := ScopeSorts(g.scope);
    if xs != [] && params != [] {
      XFine(xs[0], g, ret);
      forall k | 0 <= k < |xs[1..]| ensures xs[1..][k] == xs[k + 1] {}
      if CanPass(Check(xs[0], names), params[0]) {
        AfterX(xs[0], g, ret);
        var (v, g1) := GenX(xs[0], g, ret).value;
        var t := TypeX(xs[0], g.scope);
        assert GenPass(v, t, params[0], g1).Some?;
        var g2 := GenPass(v, t, params[0], g1).value.1;
        AfterPass(v, t, params[0], g, g1);
        XsFine(xs[1..], params[1..], g2, ret);
        if |xs| <= |params| { PassRest(xs, params, names); }
      }
    }
  }

  lemma PassRest(xs: seq<Expr>, params: seq<ExprTy>, names: Names)
    requires 0 < |xs| <= |params|
    ensures (forall k :: 0 <= k < |xs| ==> CanPass(Check(xs[k], names), params[k])) <==>
            CanPass(Check(xs[0], names), params[0])
            && forall k :: 0 <= k < |xs[1..]| ==> CanPass(Check(xs[1..][k], names), params[1..][k])
  {
    hide Check, CanPass;
    forall k | 0 <= k < |xs[1..]| ensures xs[1..][k] == xs[k + 1] && params[1..][k] == params[k + 1] {}
    if forall k :: 0 <= k < |xs[1..]| ==> CanPass(Check(xs[1..][k], names), params[1..][k]) {
      forall k | 0 < k < |xs|
        ensures CanPass(Check(xs[k], names), params[k])
      {
        assert xs[1..][k - 1] == xs[k] && params[1..][k - 1] == params[k];
      }
    }
  }

  lemma AfterPass(v: Operand, from: ExprTy, to: ExprTy, g: Gen, g1: Gen)
    requires Open(g1) && g1.scope == g.scope && GenPass(v, from, to, g1).Some?
    ensures Open(GenPass(v, from, to, g1).value.1) && GenPass(v, from, to, g1).value.1.scope == g.scope
  {
    SelfKept(g1);
    if from.Scalar? { ConvCfg(g1, v, from.t, to.t, g1); }
  }

  // ----- statements -------------------------------------------------------------------------------------------------

  lemma CondFine(e: Expr, g: Gen, ret: Option<Ty>)
    requires Open(g)
    ensures GenCond(e, g, ret).Some? <==> IsNumber(Check(e, ScopeSorts(g.scope)))
  {
    XFine(e, g, ret);
  }

  lemma DeclScope(d: Decl, g: Gen)
    requires g.scope != []
    ensures var n := |g.scope| - 1; var h := GenDecl(d, g);
            && |h.scope| == n + 1 && h.scope[..n] == g.scope[..n]
            && SortsOf(h.scope[n]) == map[d.id := DeclSort(d)] + SortsOf(g.scope[n])
  {}

  lemma {:induction false} DeclsScope(ds: seq<Decl>, g: Gen)
    requires g.scope != []
    ensures var n := |g.scope| - 1; var h := GenDecls(ds, g);
            && |h.scope| == n + 1 && h.scope[..n] == g.scope[..n]
            && SortsOf(h.scope[n]) == DeclaredIn(ds) + SortsOf(g.scope[n])
    decreases ds
  {
    hide GenDecl, SortsOf;
    if ds == [] {
      assert DeclaredIn(ds) + SortsOf(g.scope[|g.scope| - 1]) == SortsOf(g.scope[|g.scope| - 1]);
    } else {
      DeclScope(ds[0], g);
      DeclsScope(ds[1..], GenDecl(ds[0], g));
      var last := SortsOf(g.scope[|g.scope| - 1]);
      assert DeclaredIn(ds[1..]) + (map[ds[0].id := DeclSort(ds[0])] + last) == DeclaredIn(ds) + last;
    }
  }

  lemma {:induction false} ParamsScope(ps: seq<Param>, k: nat, g: Gen)
    requires g.scope != []
    ensures var n := |g.scope| - 1; var h := GenParams(ps, k, g);
            && |h.scope| == n + 1 && h.scope[..n] == g.scope[..n]
            && SortsOf(h.scope[n]) == ParamsIn(ps) + SortsOf(g.scope[n])
    decreases ps
  {
    hide GenParam, SortsOf;
    if ps == [] {
      assert ParamsIn(ps) + SortsOf(g.scope[|g.scope| - 1]) == SortsOf(g.scope[|g.scope| - 1]);
    } else {
      ParamScope(ps[0], k, g);
      ParamsScope(ps[1..], k + 1, GenParam(ps[0], k, g));
      var last := SortsOf(g.scope[|g.scope| - 1]);
      assert ParamsIn(ps[1..]) + (map[ps[0].id := ParamSort(ps[0])] + last) == ParamsIn(ps) + last;
    }
  }

  lemma ParamScope(p: Param, k: nat, g: Gen)
    requires g.scope != []
    ensures var n := |g.scope| - 1; var h := GenParam(p, k, g);
            && |h.scope| == n + 1 && h.scope[..n] == g.scope[..n]
            && SortsOf(h.scope[n]) == map[p.id := ParamSort(p)] + SortsOf(g.scope[n])
  {}

  /** After the declarations of a compound statement. */
  lemma CompoundScope(ds: seq<Decl>, g: Gen)
    requires Open(g)
    ensures var g1 := GenDecls(ds, g.(scope := g.scope + [map[]]));
            Open(g1) && ScopeSorts(g1.scope) == ScopeSorts(g.scope) + DeclaredIn(ds)
  {
    hide Cfg, GenDecls, SortsOf;
    var g0 := g.(scope := g.scope + [map[]]);
    assert Open(g0) by { OpenRescoped(g, g0.scope); }
    DeclsCfg(ds, g0);
    DeclsScope(ds, g0);
    assert g0.scope[..|g.scope|] == g.scope;
    assert SortsOf(map[]) == map[] by { NoSorts(); }
    assert DeclaredIn(ds) + map[] == DeclaredIn(ds);
  }

  lemma NoSorts()
    ensures SortsOf(map[]) == map[]
  {}

  lemma OpenRescoped(g: Gen, scope: Scope)
    requires Open(g)
    ensures Open(g.(scope := scope))
  {
    CfgSame(g, g.(scope := scope));
  }

  /** The generator succeeds exactly on statements that pass the check, and a block is ended by exactly those
      that control never gets past. */
  lemma {:induction false} SFine(t: Stmt, g: Gen, ret: Option<Ty>)
    requires Open(g)
    ensures GenS(t, g, ret).Some? <==> Fine(t, ScopeSorts(g.scope), ret)
    ensures GenS(t, g, ret).Some? ==> (Terminated(GenS(t, g, ret).value) <==> Leaves(t))
    decreases t, 1
  {
    hide Cfg, GenX, TypeX, Check, ScopeSorts, GenTest, GenDecls, BrUnlessTerminated;
    match t
    case ExprS(None) =>
    case ExprS(Some(e)) =>
      XFine(e, g, ret);
      if GenX(e, g, ret).Some? { XCfg(e, g, ret); }
    case ReturnS(None) => RetCfg(g, Ret(None));
    case ReturnS(Some(e)) => ReturnFine(e, g, ret);
    case IfS(e, a, None) => IfFine(e, a, g, ret);
    case IfS(e, a, Some(b)) => IfElseFine(e, a, b, g, ret);
    case WhileS(e, body) => WhileFine(e, body, g, ret);
    case CompoundS(ds, ts) =>
      CompoundScope(ds, g);
      ListIsFine(ts, GenDecls(ds, g.(scope := g.scope + [map[]])), ret);
  }

  lemma ReturnFine(e: Expr, g: Gen, ret: Option<Ty>)
    requires Open(g)
    ensures var t := ReturnS(Some(e));
            && (GenS(t, g, ret).Some? <==> ret.Some? && IsNumber(Check(e, ScopeSorts(g.scope))))
            && (GenS(t, g, ret).Some? ==> Terminated(GenS(t, g, ret).value))
  {
    hide Cfg, GenX, TypeX, Check, ScopeSorts;
    XFine(e, g, ret);
    if GenS(ReturnS(Some(e)), g, ret).Some? {
      XCfg(e, g, ret);
      var (v, g1) := GenX(e, g, ret).value;
      ReturnCfg(g, v, TypeX(e, g.scope).t, ret.value, g1);
      var (v', g2) := GenConv(v, TypeX(e, g.scope).t, ret.value, g1);
      RetCfg(g2, Ret(Some(v')));
    }
  }

  lemma {:induction false} IfFine(e: Expr, a: Stmt, g: Gen, ret: Option<Ty>)
    requires Open(g)
    ensures var t := IfS(e, a, None);
            && (GenS(t, g, ret).Some? <==>
                IsNumber(Check(e, ScopeSorts(g.scope))) && Fine(a, ScopeSorts(g.scope), ret))
            && (GenS(t, g, ret).Some? ==> !Terminated(GenS(t, g, ret).value))
    decreases a, 2
  {
    hide Cfg, GenCond, Check, ScopeSorts, GenTest, BrUnlessTerminated, Keeps;
    CondFine(e, g, ret);
    if GenCond(e, g, ret).Some? {
      var skip := ExprS(None);
      var v, ty, g1, k, g2, r := IfCfg(e, skip, g, ret, IfS(e, skip, None));
      assert k.scope == g.scope by { TestScope(g, g1, NewBlock(NewBlock(g1)), v, ty, |g1.blocks|, |g1.blocks| + 1); }
      SFine(a, k, ret);
      if GenS(a, k, ret).Some? { v, ty, g1, k, g2, r := IfCfg(e, a, g, ret, IfS(e, a, None)); }
    }
  }

  lemma TestScope(g: Gen, g1: Gen, h: Gen, v: Operand, ty: Ty, t: nat, f: nat)
    requires Keeps(g, g1) && h.scope == g1.scope
    ensures GenTest(h, v, ty, t, f).scope == g.scope
  {}

  lemma {:induction false} IfElseFine(e: Expr, a: Stmt, b: Stmt, g: Gen, ret: Option<Ty>)
    requires Open(g)
    ensures var t := IfS(e, a, Some(b));
            && (GenS(t, g, ret).Some? <==> IsNumber(Check(e, ScopeSorts(g.scope)))
                                           && Fine(a, ScopeSorts(g.scope), ret) && Fine(b, ScopeSorts(g.scope), ret))
            && (GenS(t, g, ret).Some? ==> !Terminated(GenS(t, g, ret).value))
    decreases if a < b then b else a, 3
  {
    hide Cfg, GenX, TypeX, Check, ScopeSorts, GenTest, BrUnlessTerminated, Keeps, Fine, Leaves;
    CondFine(e, g, ret);
    if GenCond(e, g, ret).Some? {
      var k := FirstBranch(e, g, ret);
      SFine(a, k, ret);
      if GenS(a, k, ret).Some? {
        var k2 := SecondBranch(e, a, g, ret, k);
        SFine(b, k2, ret);
        if GenS(b, k2, ret).Some? { var _, _, _, _, _, _, _, _ := IfElseCfg(e, a, b, g, ret, IfS(e, a, Some(b))); }
      }
    }
  }

  /** Where the first branch is generated, whatever it is. */
  lemma FirstBranch(e: Expr, g: Gen, ret: Option<Ty>) returns (k: Gen)
    requires Open(g) && GenCond(e, g, ret).Some?
    ensures var (v, ty, g1) := GenCond(e, g, ret).value;
            k == GenTest(NewBlock(NewBlock(NewBlock(g1))), v, ty, |g1.blocks|, |g1.blocks| + 2).(cur := |g1.blocks|)
    ensures Open(k) && k.scope == g.scope
  {
    hide Cfg, GenCond, GenTest, BrUnlessTerminated, Keeps;
    var skip := ExprS(None);
    var v, ty, g1, k0, _, _, _, _ := IfElseCfg(e, skip, skip, g, ret, IfS(e, skip, Some(skip)));
    k := k0;
    TestScope(g, g1, NewBlock(NewBlock(NewBlock(g1))), v, ty, |g1.blocks|, |g1.blocks| + 2);
  }

  /** Where the second branch is generated, after the first. */
  lemma SecondBranch(e: Expr, a: Stmt, g: Gen, ret: Option<Ty>, k: Gen) returns (k2: Gen)
    requires Open(g) && GenCond(e, g, ret).Some? && k.scope == g.scope
    requires var (v, ty, g1) := GenCond(e, g, ret).value;
             k == GenTest(NewBlock(NewBlock(NewBlock(g1))), v, ty, |g1.blocks|, |g1.blocks| + 2).(cur := |g1.blocks|)
    requires GenS(a, k, ret).Some?
    ensures var g1 := GenCond(e, g, ret).value.2;
            k2 == BrUnlessTerminated(GenS(a, k, ret).value, |g1.blocks| + 1).(cur := |g1.blocks| + 2)
    ensures Open(k2) && k2.scope == g.scope
  {
    hide Cfg, GenCond, GenTest, BrUnlessTerminated, Keeps;
    var skip := ExprS(None);
    var _, _, g1, _, g2, k0, _, _ := IfElseCfg(e, a, skip, g, ret, IfS(e, a, Some(skip)));
    k2 := k0;
    BrScope(k, g2, |g1.blocks| + 1);
  }

  lemma BrScope(k: Gen, g2: Gen, t: nat)
    requires Keeps(k, g2)
    ensures BrUnlessTerminated(g2, t).scope == k.scope
  {}

  lemma {:induction false} WhileFine(e: Expr, body: Stmt, g: Gen, ret: Option<Ty>)
    requires Open(g)
    ensures var t := WhileS(e, body);
            && (GenS(t, g, ret).Some? <==>
                IsNumber(Check(e, ScopeSorts(g.scope))) && Fine(body, ScopeSorts(g.scope), ret))
            && (GenS(t, g, ret).Some? ==> !Terminated(GenS(t, g, ret).value))
    decreases body, 2
  {
    hide Cfg, GenCond, Check, ScopeSorts, GenTest, BrUnlessTerminated, Keeps;
    LoopEntry(g);
    var k0 := BrUnlessTerminated(NewBlock(g), |g.blocks|).(cur := |g.blocks|);
    CondFine(e, k0, ret);
    if GenCond(e, k0, ret).Some? {
      var skip := ExprS(None);
      var k1, v, ty, g1, k, g2, r := WhileCfg(e, skip, g, ret, WhileS(e, skip));
      assert k.scope == g.scope by { TestScope(k1, g1, NewBlock(NewBlock(g1)), v, ty, |g1.blocks|, |g1.blocks| + 1); }
      SFine(body, k, ret);
      if GenS(body, k, ret).Some? { k1, v, ty, g1, k, g2, r := WhileCfg(e, body, g, ret, WhileS(e, body)); }
    }
  }

  lemma {:induction false} ListIsFine(ts: seq<Stmt>, g: Gen, ret: Option<Ty>)
    requires Open(g)
    ensures GenList(ts, g, ret).Some? <==> ListFine(ts, ScopeSorts(g.scope), ret)
    ensures GenList(ts, g, ret).Some? ==>
              (Terminated(GenList(ts, g, ret).value) <==> exists k :: 0 <= k < |ts| && Leaves(ts[k]))
    decreases ts, 0
  {
    hide Cfg, GenS, Fine, ScopeSorts, Leaves;
    if ts != [] {
      SFine(ts[0], g, ret);
      if GenS(ts[0], g, ret).Some? {
        SCfg(ts[0], g, ret);
        var g1 := GenS(ts[0], g, ret).value;
        if !Terminated(g1) {
          ListIsFine(ts[1..], g1, ret);
          forall k | 0 <= k < |ts[1..]| ensures ts[1..][k] == ts[k + 1] {}
          if k :| 0 <= k < |ts| && Leaves(ts[k]) { assert Leaves(ts[1..][k - 1]); }
          if k :| 0 <= k < |ts[1..]| && Leaves(ts[1..][k]) { assert Leaves(ts[k + 1]); }
        }
      }
    }
  }

  // ----- functions -------------------------------------------------------------------------------------------------

  /** Code is generated for exactly the functions that pass the check. */
  lemma FunctionIsFine(fd: FunDecl, names: map<string, Binding>, base: nat)
    ensures GenFun(fd, names, base).Some? <==> FunctionFine(fd, SortsOf(names))
  {
    hide Cfg, GenList, ListFine, SortsOf, Open;
    var g0 := GenStart(names, base);
    var g1 := GenParams(fd.params, 0, g0);
    var g2 := GenDecls(fd.decls, g1);
    assert Open(g0) && g0.scope == [names, map[]] by { StartIsOpen(names, base); }
    ParamsCfg(fd.params, 0, g0);
    ParamsScope(fd.params, 0, g0);
    DeclsScope(fd.decls, g1);
    assert Open(g2) by { DeclsCfg(fd.decls, g1); }
    NoSorts();
    assert ParamsIn(fd.params) + map[] == ParamsIn(fd.params);
    assert g2.scope[..1] == [names];
    ScopeOfTwo(g2.scope, names);
    ListIsFine(fd.stmts, g2, fd.ret);
  }

  lemma ScopeOfTwo(scope: Scope, names: map<string, Binding>)
    requires |scope| == 2 && scope[..1] == [names]
    ensures ScopeSorts(scope) == SortsOf(names) + SortsOf(scope[1])
  {
    hide SortsOf;
    assert [names][..0] == [] && ScopeSorts([]) == map[];
    assert ScopeSorts([names]) == map[] + SortsOf(names);
    assert map[] + SortsOf(names) == SortsOf(names);
  }

  lemma StartIsOpen(names: map<string, Binding>, base: nat)
    ensures Open(GenStart(names, base)) && GenStart(names, base).scope == [names, map[]]
  {
    StartCfg(names, base);
  }

  lemma {:induction false} ParamSortsAre(ps: seq<Param>)
    ensures ParamSorts(ps) == ParamTypes(ps)
  {
    if ps != [] {
      ParamSortsAre(ps[1..]);
      assert ParamTypes(ps)[1..] == ParamTypes(ps[1..]);
    }
  }
}

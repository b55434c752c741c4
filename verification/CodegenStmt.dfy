/** Code for statements and functions does what the source does. */
module CodegenStmt {
  import opened IR
  import opened Cminus
  import opened Codegen
  import opened CodegenCfg
  import opened CodegenSim
  import opened CodegenExpr

  // ----- array declarations have names of their own --------------------------------------------------------------

  function DeclSites(ds: seq<Decl>): set<nat> {
    if ds == [] then {} else (if ds[0].num.Some? then {ds[0].site} else {}) + DeclSites(ds[1..])
  }

  ghost predicate DeclsOk(ds: seq<Decl>, used: set<nat>, base: nat)
    decreases ds
  {
    ds == [] || ((ds[0].num.Some? ==> ds[0].site !in used && ds[0].site < base)
                 && DeclsOk(ds[1..], used + DeclSites(ds[..1]), base))
  }

  /** No array declaration shares its site with another in scope, and all sites are below `base`. */
  ghost predicate SitesOk(t: Stmt, used: set<nat>, base: nat)
    decreases t, 0
  {
    match t
    case IfS(_, a, None) => SitesOk(a, used, base)
    case IfS(_, a, Some(b)) => SitesOk(a, used, base) && SitesOk(b, used, base)
    case WhileS(_, b) => SitesOk(b, used, base)
    case CompoundS(ds, ts) => DeclsOk(ds, used, base) && ListSitesOk(ts, used + DeclSites(ds), base)
    case _ => true
  }

  ghost predicate ListSitesOk(ts: seq<Stmt>, used: set<nat>, base: nat)
    decreases ts, 0
  {
    ts == [] || (SitesOk(ts[0], used, base) && ListSitesOk(ts[1..], used, base))
  }

  /** Local names live in used sites or in registers from `base` on. */
  ghost predicate HomesIn(scope: Scope, used: set<nat>, base: nat) {
    forall k, id, d: nat {:trigger Holds(scope, k, id, d)} :: Holds(scope, k, id, d) ==> d in used || d >= base
  }

  ghost predicate Ready(env: Env, g: Gen, ss: Src, s: State, used: set<nat>, base: nat) {
    Start(env, g, ss, s) && g.scope != [] && base <= g.next && HomesIn(g.scope, used, base)
  }

  // ----- declarations ----------------------------------------------------------------------------------------------

  lemma PushHolds(scope: Scope, id: string, b: Binding, d: nat)
    requires scope != [] && Home(b) == Some(d)
    ensures forall k, x, e: nat {:trigger Holds(PushName(scope, id, b), k, x, e)} ::
              Holds(PushName(scope, id, b), k, x, e) ==> Holds(scope, k, x, e)
                                                         || (k == |scope| - 1 && x == id && e == d && id !in scope[k])
  {}

  lemma PushOk(scope: Scope, next: nat, next': nat, id: string, b: Binding, d: nat, used: set<nat>, base: nat)
    requires scope != [] && ScopeOk(scope, next) && HomesIn(scope, used, base) && Home(b) == Some(d) && next <= next'
             && d < next'
    requires d >= next || (d !in used && d < base)
    ensures ScopeOk(PushName(scope, id, b), next')
    ensures HomesIn(PushName(scope, id, b), used + {d}, base)
  {
    PushHolds(scope, id, b, d);
    assert forall k, x {:trigger Holds(scope, k, x, d)} :: !Holds(scope, k, x, d);
  }

  /** Nothing that a name in scope leads to is touched by what an alloca does to register `d`. */
  lemma RelAlloca(env: Env, scope: Scope, next: nat, ss: Src, s: State, d: nat, s': State, used: set<nat>, base: nat)
    requires Rel(env, scope, ss, s) && ScopeOk(scope, next) && HomesIn(scope, used, base)
             && (d >= next || (d !in used && d < base))
    requires s'.regs == s.regs[d := if d in s'.regs then s'.regs[d] else Int(0)]
             && (s'.slots == s.slots || s'.slots == s.slots - {d})
    ensures Rel(env, scope, ss.(world := s'.world), s')
  {
    forall k | 0 <= k < |scope| ensures LevelRel(env, ss.frames[k], scope[k], s') {
      assert LevelRel(env, ss.frames[k], scope[k], s);
      forall id | id in scope[k] ensures VarRel(env, ss.frames[k][id], scope[k][id], s') {
        assert VarRel(env, ss.frames[k][id], scope[k][id], s);
        if Home(scope[k][id]).Some? { assert Holds(scope, k, id, Home(scope[k][id]).value); }
      }
    }
  }

  lemma PushRel(env: Env, scope: Scope, ss: Src, s: State, id: string, b: Binding, v: Var)
    requires Rel(env, scope, ss, s) && scope != [] && VarRel(env, v, b, s)
    ensures Rel(env, PushName(scope, id, b), ss.(frames := Declare(ss.frames, id, v)), s)
  {
    var last := |scope| - 1;
    assert LevelRel(env, ss.frames[last], scope[last], s);
    var scope', frames' := PushName(scope, id, b), Declare(ss.frames, id, v);
    forall k | 0 <= k < |scope'| ensures LevelRel(env, frames'[k], scope'[k], s) {
      assert LevelRel(env, ss.frames[k], scope[k], s);
    }
  }

  lemma AllocaStep(env: Env, s: State, d: nat, ty: SlotType)
    ensures var g := LocalArray(env.depth, d);
            ty.ArraySlot? ==>
              Step(env, Alloca(d, ty), s) == Some(State(s.regs[d := Ptr(g, 0)], s.slots,
                                                        s.world.(mem := ClearRegion(s.world.mem, g))))
    ensures !ty.ArraySlot? ==>
              Step(env, Alloca(d, ty), s) == Some(State(s.regs[d := SlotPtr(d, ty)], s.slots - {d}, s.world))
  {}

  lemma SimDecl(env: Env, f: seq<seq<Instr>>, d: Decl, g: Gen, ss: Src, s: State, used: set<nat>, base: nat)
    returns (s': State)
    requires Ready(env, g, ss, s, used, base) && Ext(GenDecl(d, g), f)
             && (d.num.Some? ==> d.site !in used && d.site < base)
    ensures Moves(env, f, Here(g, s), Here(GenDecl(d, g), s'), 0) && ss.frames != []
    ensures Ready(env, GenDecl(d, g), ExecDecl(env, d, ss), s', used + DeclSites([d]), base)
  {
    hide Moves, Rel, ScopeOk, HomesIn, Open, Cfg, Step, Ext;
    RelSize(env, g.scope, ss, s);
    OpenCur(g);
    DeclCfg(d, g);
    var r := if d.num.None? then g.next else d.site;
    var ty := if d.num.None? then SlotFor(d.ty) else ArraySlot(d.num.value);
    var i := Alloca(r, ty);
    AllocaStep(env, s, r, ty);
    s' := Step(env, i, s).value;
    DeclExt(d, g, i, f);
    EmitMoves(env, g, i, f, s, s');
    var b := Mem(Reg(r), if d.num.None? then NumK(d.ty) else ArrK(d.ty));
    var v := if d.num.None? then NumVar(d.ty, None) else ArrVar(d.ty, d.site);
    PushOk(g.scope, g.next, GenDecl(d, g).next, d.id, b, r, used, base);
    RelAlloca(env, g.scope, g.next, ss, s, r, s', used, base);
    PushRel(env, g.scope, ss.(world := s'.world), s', d.id, b, v);
    RelWorldIs(env, g.scope, ss, s);
    assert DeclSites([d]) == if d.num.None? then {} else {d.site} by { assert [d][1..] == []; }
    HomesShrink(GenDecl(d, g).scope, used, r, base, DeclSites([d]));
  }

  lemma RelSize(env: Env, scope: Scope, ss: Src, s: State)
    requires Rel(env, scope, ss, s)
    ensures |ss.frames| == |scope|
  {}

  lemma DeclExt(d: Decl, g: Gen, i: Instr, f: seq<seq<Instr>>)
    requires Ext(GenDecl(d, g), f) && i == if d.num.None? then Alloca(g.next, SlotFor(d.ty))
             else Alloca(d.site, ArraySlot(d.num.value))
    ensures Ext(Emit(g, i), f) && forall s :: Here(GenDecl(d, g), s) == Here(Emit(g, i), s)
  {
    assert GenDecl(d, g).blocks == Emit(g, i).blocks;
  }

  lemma HomesShrink(scope: Scope, used: set<nat>, d: nat, base: nat, sites: set<nat>)
    requires HomesIn(scope, used + {d}, base) && (sites == {d} || (sites == {} && d >= base))
    ensures HomesIn(scope, used + sites, base)
  {}

  lemma {:induction false} SimDecls(env: Env, f: seq<seq<Instr>>, ds: seq<Decl>, g: Gen, ss: Src, s: State,
                                    used: set<nat>, base: nat) returns (s': State)
    requires Ready(env, g, ss, s, used, base) && Ext(GenDecls(ds, g), f) && DeclsOk(ds, used, base)
    ensures Moves(env, f, Here(g, s), Here(GenDecls(ds, g), s'), 0) && ss.frames != []
    ensures Ready(env, GenDecls(ds, g), ExecDecls(env, ds, ss), s', used + DeclSites(ds), base)
    decreases ds
  {
    hide Moves, Rel, ScopeOk, HomesIn, Open, Cfg, Ext;
    RelSize(env, g.scope, ss, s);
    if ds == [] {
      s' := s;
      MovesSelf(env, f, Here(g, s));
      assert used + DeclSites(ds) == used;
    } else {
      var g1 := GenDecl(ds[0], g);
      DeclCfg(ds[0], g);
      DeclsCfg(ds[1..], g1);
      SinceExt(g1, GenDecls(ds[1..], g1), f);
      var s1 := SimDecl(env, f, ds[0], g, ss, s, used, base);
      assert ds[..1] == [ds[0]];
      s' := SimDecls(env, f, ds[1..], g1, ExecDecl(env, ds[0], ss), s1, used + DeclSites([ds[0]]), base);
      MovesTrans(env, f, Here(g, s), Here(g1, s1), Here(GenDecls(ds, g), s'), 0, 0);
      assert DeclSites([ds[0]]) + DeclSites(ds[1..]) == DeclSites(ds) by { assert [ds[0]][1..] == []; }
      assert used + DeclSites([ds[0]]) + DeclSites(ds[1..]) == used + DeclSites(ds);
    }
  }

  lemma SinceExt(g: Gen, g': Gen, f: seq<seq<Instr>>)
    requires Since(g, g') && Ext(g', f)
    ensures Ext(g, f)
  {
    var h := g'.(scope := g.scope);
    assert Ext(h, f) by { assert h.blocks == g'.blocks; }
    ExtKeeps(g, h, f);
  }

  // ----- branches --------------------------------------------------------------------------------------------

  /** The test of a condition, from the block where it was computed. */
  lemma SimTest(env: Env, f: seq<seq<Instr>>, g1: Gen, h: Gen, v: Operand, ty: Ty, t: nat, e: nat, cur: nat, ss: Src,
                s: State, x: Value) returns (s': State)
    requires Start(env, g1, ss, s) && h.cur == g1.cur && h.next == g1.next && |g1.blocks| <= |h.blocks|
             && h.blocks[..|g1.blocks|] == g1.blocks
    requires Ext(GenTest(h, v, ty, t, e).(cur := cur), f) && Eval(env, s.regs, v) == Some(x) && HasTag(ty, x)
    ensures Truth(x).Some? && Moves(env, f, Here(g1, s), Point(if Truth(x).value then t else e, 0, s'), 1)
            && Rel(env, g1.scope, ss, s')
  {
    hide Moves, Rel, ScopeOk, Open, CmpSem;
    OpenCur(g1);
    var i, c := |g1.blocks[g1.cur]|, h.next;
    TestExt(g1, h, v, ty, t, e, cur, f);
    NotZero(ty, x);
    var q, zero := Truth(x).value, DefaultResult(Some(ty)).value;
    TestMoves(env, f, g1.cur, i, s, c, RelInstr(NotEqual, ty), v, Zero(ty), x, zero, q, t, e);
    s' := s.(regs := s.regs[c := Bool(q)]);
    RelWorldIs(env, g1.scope, ss, s);
    RelSet(env, g1.scope, g1.next, ss, s, c, Bool(q), s.world);
  }

  lemma NotZero(t: Ty, x: Value)
    requires HasTag(t, x)
    ensures Truth(x).Some? && CmpSem(RelInstr(NotEqual, t), x, DefaultResult(Some(t)).value)
            == Some(Bool(Truth(x).value))
  {}

  lemma TestExt(g1: Gen, h: Gen, v: Operand, ty: Ty, t: nat, e: nat, cur: nat, f: seq<seq<Instr>>)
    requires g1.cur < |g1.blocks| <= |h.blocks| && h.cur == g1.cur && h.blocks[..|g1.blocks|] == g1.blocks
    requires Ext(GenTest(h, v, ty, t, e).(cur := cur), f)
    ensures Ext(g1, f) && |f| > g1.cur && |f[g1.cur]| > |g1.blocks[g1.cur]| + 1
    ensures f[g1.cur][|g1.blocks[g1.cur]|] == Cmp(h.next, RelInstr(NotEqual, ty), v, Zero(ty))
    ensures f[g1.cur][|g1.blocks[g1.cur]| + 1] == CondBr(Reg(h.next), t, e)
  {
    var k := GenTest(h, v, ty, t, e).(cur := cur);
    var a, b, body := Cmp(h.next, RelInstr(NotEqual, ty), v, Zero(ty)), CondBr(Reg(h.next), t, e), g1.blocks[g1.cur];
    assert h.blocks[g1.cur] == body;
    assert body + [a] + [b] == body + [a, b];
    assert k.blocks == h.blocks[g1.cur := body + [a, b]];
    assert k.blocks[g1.cur] <= f[g1.cur];
    TwoEmitted(body, a, b, f[g1.cur]);
    forall b {:trigger f[b]} | 0 <= b < |g1.blocks| ensures g1.blocks[b] <= f[b] {
      assert k.blocks[b] <= f[b] && h.blocks[..|g1.blocks|][b] == g1.blocks[b];
    }
  }

  /** The branch at the end of a piece of code, when it gets there. */
  lemma SimBr(env: Env, f: seq<seq<Instr>>, g: Gen, t: nat, cur: nat, s: State)
    requires Cfg(g) && Ext(BrUnlessTerminated(g, t).(cur := cur), f)
    ensures Ext(g, f) && (!Terminated(g) ==> Moves(env, f, Here(g, s), Point(t, 0, s), 1))
  {
    hide Moves;
    var r := BrUnlessTerminated(g, t).(cur := cur);
    if Terminated(g) {
      assert r.blocks == g.blocks;
      assert Ext(g, f);
    } else {
      assert r.blocks == Emit(g, Br(t)).blocks;
      assert Ext(Emit(g, Br(t)), f);
      Emitted(g, Br(t), f);
      GotoMoves(env, f, Here(g, s), t);
    }
  }

  lemma HereEmpty(g: Gen, s: State)
    requires OpenEmpty(g)
    ensures Here(g, s) == Point(g.cur, 0, s)
  {}

  // ----- statements ------------------------------------------------------------------------------------------

  /** A source that has used up its fuel leaves a run that goes on for at least as many branches. */
  ghost predicate SSim(env: Env, f: seq<seq<Instr>>, g: Gen, g': Gen, p: Point, r: StmtResult, s': State, k: nat,
                       fuel: nat) {
    match r
    case Falls(ss') => !Terminated(g') && Moves(env, f, p, Here(g', s'), k) && Rel(env, g.scope, ss', s')
    case Returns(v, w) => Finishes(env, f, p, v, w, k)
    case Timeout => Spins(env, f, p, k) && k >= fuel
    case NoMeaning => true
  }

  /** After the first part of a statement. */
  lemma SAfter(env: Env, f: seq<seq<Instr>>, g: Gen, g': Gen, p: Point, q: Point, r: StmtResult, s': State, k1: nat,
               k: nat, fuel: nat)
    requires Moves(env, f, p, q, k1) && SSim(env, f, g, g', q, r, s', k, fuel)
    ensures SSim(env, f, g, g', p, r, s', k1 + k, fuel)
  {
    hide Moves, Finishes, Rel, Spins;
    if r.Falls? { MovesTrans(env, f, p, q, Here(g', s'), k1, k); }
    if r.Returns? { MovesFinish(env, f, p, q, r.v, r.w, k1, k); }
    if r.Timeout? { MovesSpin(env, f, p, q, k1, k); }
  }

  /** At the end of a branch or a loop body: on to the block at `t`. */
  lemma SThenBr(env: Env, f: seq<seq<Instr>>, g: Gen, k0: Gen, g2: Gen, t: nat, cur: nat, p: Point, r: StmtResult,
                s1: State, k: nat, fuel: nat)
    requires Cfg(g2) && k0.scope == g.scope && SSim(env, f, k0, g2, p, r, s1, k, fuel)
             && Ext(BrUnlessTerminated(g2, t).(cur := cur), f)
    ensures r.Falls? ==> Moves(env, f, p, Point(t, 0, s1), k + 1) && Rel(env, g.scope, r.s, s1)
    ensures r.Returns? ==> Finishes(env, f, p, r.v, r.w, k)
    ensures r.Timeout? ==> Spins(env, f, p, k) && k >= fuel
  {
    hide Moves, Finishes, Rel, Cfg, Ext, Spins;
    SimBr(env, f, g2, t, cur, s1);
    if r.Falls? { MovesTrans(env, f, p, Here(g2, s1), Point(t, 0, s1), k, 1); }
  }

  lemma StillReady(env: Env, g: Gen, g': Gen, ss: Src, s: State, used: set<nat>, base: nat, ss': Src, s': State)
    requires Ready(env, g, ss, s, used, base) && Open(g') && g'.scope == g.scope && g.next <= g'.next
             && Rel(env, g.scope, ss', s')
    ensures Ready(env, g', ss', s', used, base)
  {
    ScopeOkMore(g.scope, g.next, g'.next);
  }

  lemma {:induction false} SimS(env: Env, f: seq<seq<Instr>>, t: Stmt, g: Gen, ret: Option<Ty>, ss: Src, s: State,
                                fuel: nat, used: set<nat>, base: nat)
    returns (s': State, k: nat)
    requires Ready(env, g, ss, s, used, base) && GenS(t, g, ret).Some? && Ext(GenS(t, g, ret).value, f)
             && SitesOk(t, used, base)
    ensures SSim(env, f, g, GenS(t, g, ret).value, Here(g, s), Exec(env, ret, t, ss, fuel), s', k, fuel)
    decreases fuel, t, 2
  {
    hide Start, Ext, Moves, Finishes, Spins, Rel, GenX, EvalX, Open, Cfg, Keeps, HomesIn, BrUnlessTerminated, GenTest,
         GenDecls, ExecDecls, GenList, Emit;
    s', k := s, 0;
    match t
    case ExprS(None) =>
      StartOpen(env, g, ss, s);
      Unmoved(env, f, g, ss, s);
      NotEnded(g);
    case ExprS(Some(e)) => s', k := SimExprS(env, f, e, g, ret, ss, s, fuel);
    case ReturnS(None) =>
      StartOpen(env, g, ss, s);
      RelWorldIs(env, g.scope, ss, s);
      SimRet(env, f, g, Ret(None), s, None, s.world);
    case ReturnS(Some(e)) => s', k := SimReturn(env, f, e, g, ret, ss, s, fuel);
    case IfS(e, a, None) => s', k := SimIf(env, f, t, e, a, g, ret, ss, s, fuel, used, base);
    case IfS(e, a, Some(b)) => s', k := SimIfElse(env, f, t, e, a, b, g, ret, ss, s, fuel, used, base);
    case WhileS(e, body) => s', k := SimWhile(env, f, t, e, body, g, ret, ss, s, fuel, used, base);
    case CompoundS(ds, ts) => s', k := SimCompound(env, f, t, ds, ts, g, ret, ss, s, fuel, used, base);
  }

  lemma NotEnded(g: Gen)
    requires Open(g)
    ensures !Terminated(g)
  {}

  lemma SimRet(env: Env, f: seq<seq<Instr>>, g: Gen, i: Instr, s: State, v: Option<Value>, w: World)
    requires g.cur < |g.blocks| && Ext(Emit(g, i), f) && IsTerminator(i) && End(env, i, s) == Return(v, w)
    ensures Finishes(env, f, Here(g, s), v, w, 0)
  {
    Emitted(g, i, f);
    ReturnFinishes(env, f, Here(g, s), v, w);
  }

  lemma SimExprS(env: Env, f: seq<seq<Instr>>, e: Expr, g: Gen, ret: Option<Ty>, ss: Src, s: State, fuel: nat)
    returns (s': State, k: nat)
    requires Start(env, g, ss, s) && GenX(e, g, ret).Some? && Ext(GenX(e, g, ret).value.1, f)
    ensures SSim(env, f, g, GenX(e, g, ret).value.1, Here(g, s), Exec(env, ret, ExprS(Some(e)), ss, fuel), s', k, fuel)
  {
    hide Start, Ext, Moves, Finishes, Spins, Rel, GenX, EvalX, Open, Keeps;
    s', k := SimX(env, f, e, g, ret, ss, s);
    XCfg2(e, g, ret, ss, s, env);
    NotEnded(GenX(e, g, ret).value.1);
  }

  lemma SimReturn(env: Env, f: seq<seq<Instr>>, e: Expr, g: Gen, ret: Option<Ty>, ss: Src, s: State, fuel: nat)
    returns (s': State, k: nat)
    requires Start(env, g, ss, s) && GenS(ReturnS(Some(e)), g, ret).Some?
             && Ext(GenS(ReturnS(Some(e)), g, ret).value, f)
    ensures SSim(env, f, g, GenS(ReturnS(Some(e)), g, ret).value, Here(g, s),
                 Exec(env, ret, ReturnS(Some(e)), ss, fuel), s', k, fuel)
  {
    hide Start, Ext, Moves, Finishes, Spins, Rel, GenX, EvalX, Open, Keeps, Emit, GenConv, ConvertTo, TypeX, RegsKept;
    var (v, g1) := GenX(e, g, ret).value;
    var from, to := TypeX(e, g.scope).t, ret.value;
    var (v', g2) := GenConv(v, from, to, g1);
    XCfg2(e, g, ret, ss, s, env);
    ConvKeeps(v, from, to, g1);
    EmitBack(g2, Ret(Some(v')), f);
    ExtBack(g1, g2, f);
    s', k := SimX(env, f, e, g, ret, ss, s);
    var r := EvalX(env, e, ss);
    if r.Val? && ConvertTo(to, r.v).Some? {
      var x := ConvertTo(to, r.v).value;
      s' := ThenConv(env, f, ret, g, g1, v, from, to, ss, s, r.v, r.s, s', k, x);
      RelWorldIs(env, g.scope, r.s, s');
      SimRet(env, f, g2, Ret(Some(v')), s', Some(x), s'.world);
      MovesFinish(env, f, Here(g, s), Here(g2, s'), Some(x), s'.world, k, 0);
    }
  }

  /** The condition of an if or a loop, and the branch on it. */
  lemma SimCond(env: Env, f: seq<seq<Instr>>, e: Expr, g: Gen, ret: Option<Ty>, h: Gen, t: nat, el: nat, cur: nat,
                ss: Src, s: State) returns (s': State, k: nat)
    requires Start(env, g, ss, s) && GenCond(e, g, ret).Some?
    requires var (v, ty, g1) := GenCond(e, g, ret).value;
             && h.cur == g1.cur && h.next == g1.next && |g1.blocks| <= |h.blocks|
             && h.blocks[..|g1.blocks|] == g1.blocks
             && Ext(GenTest(h, v, ty, t, el).(cur := cur), f)
    ensures var c := Condition(env, e, ss);
            && (c.ExitCond? ==> Finishes(env, f, Here(g, s), DefaultResult(ret), c.w, k))
            && (c.Met? || c.NotMet? ==>
                  k >= 1 && Moves(env, f, Here(g, s), Point(if c.Met? then t else el, 0, s'), k)
                  && Rel(env, g.scope, c.s, s'))
  {
    hide Start, Ext, Moves, Finishes, Spins, Rel, GenX, EvalX, Open, Keeps, GenTest, TypeX, HasTag, Truth;
    var (v, ty, g1) := GenCond(e, g, ret).value;
    XCfg2(e, g, ret, ss, s, env);
    TestExt(g1, h, v, ty, t, el, cur, f);
    s', k := SimX(env, f, e, g, ret, ss, s);
    var r := EvalX(env, e, ss);
    if r.Val? {
      var s1, k1 := s', k;
      Between(env, f, ret, g, g1, v, ss, s, r.v, r.s, s1, k1);
      s' := SimTest(env, f, g1, h, v, ty, t, el, cur, r.s, s1, r.v);
      MovesTrans(env, f, Here(g, s), Here(g1, s1), Point(if Truth(r.v).value then t else el, 0, s'), k1, 1);
      k := k1 + 1;
    }
  }

  lemma NewBlocksKeep(g: Gen, n: nat)
    requires g.cur < |g.blocks| && 2 <= n <= 3
    ensures var h := if n == 2 then NewBlock(NewBlock(g)) else NewBlock(NewBlock(NewBlock(g)));
            h.cur == g.cur && h.next == g.next && |g.blocks| <= |h.blocks| && h.blocks[..|g.blocks|] == g.blocks
            && h.scope == g.scope
  {}

  lemma TestKeeps(h: Gen, v: Operand, ty: Ty, t: nat, e: nat, cur: nat)
    ensures var k := GenTest(h, v, ty, t, e).(cur := cur); k.scope == h.scope && k.next == h.next + 1 && k.cur == cur
  {}

  lemma BrKeeps(g: Gen, t: nat, cur: nat)
    ensures var k := BrUnlessTerminated(g, t).(cur := cur); k.scope == g.scope && k.next == g.next && k.cur == cur
  {}

  /** One arm of an if, or the body of a loop, up to the block where control goes next. */
  lemma {:induction false} SimArm(env: Env, f: seq<seq<Instr>>, a: Stmt, k1: Gen, g2: Gen, to: nat, cur: nat,
                                  ret: Option<Ty>, ss: Src, s: State, fuel: nat, used: set<nat>, base: nat)
    returns (s': State, k: nat)
    requires Ready(env, k1, ss, s, used, base) && OpenEmpty(k1) && GenS(a, k1, ret) == Some(g2) && Cfg(g2)
             && SitesOk(a, used, base)
    requires Ext(BrUnlessTerminated(g2, to).(cur := cur), f)
    ensures var r := Exec(env, ret, a, ss, fuel);
            && (r.Falls? ==> Moves(env, f, Point(k1.cur, 0, s), Point(to, 0, s'), k) && Rel(env, k1.scope, r.s, s'))
            && (r.Returns? ==> Finishes(env, f, Point(k1.cur, 0, s), r.v, r.w, k))
            && (r.Timeout? ==> Spins(env, f, Point(k1.cur, 0, s), k) && k >= fuel)
    decreases fuel, a, 3
  {
    hide Start, Ext, Moves, Finishes, Spins, Rel, Open, Cfg, HomesIn, BrUnlessTerminated, GenS, Exec, SitesOk, Ready,
         SSim;
    HereEmpty(k1, s);
    SimBr(env, f, g2, to, cur, s);
    s', k := SimS(env, f, a, k1, ret, ss, s, fuel, used, base);
    var r := Exec(env, ret, a, ss, fuel);
    SThenBr(env, f, k1, k1, g2, to, cur, Here(k1, s), r, s', k, fuel);
    if r.Falls? { k := k + 1; }
  }

  lemma {:induction false} SimIf(env: Env, f: seq<seq<Instr>>, t: Stmt, e: Expr, a: Stmt, g: Gen, ret: Option<Ty>,
                                 ss: Src, s: State, fuel: nat, used: set<nat>, base: nat)
    returns (s': State, k: nat)
    requires t == IfS(e, a, None) && Ready(env, g, ss, s, used, base) && GenS(t, g, ret).Some?
             && Ext(GenS(t, g, ret).value, f) && SitesOk(t, used, base)
    ensures SSim(env, f, g, GenS(t, g, ret).value, Here(g, s), Exec(env, ret, t, ss, fuel), s', k, fuel)
    decreases fuel, t, 0
  {
    hide Start, Ext, Moves, Finishes, Spins, Rel, GenX, GenCond, Condition, Open, Cfg, Keeps, HomesIn,
         BrUnlessTerminated, GenTest, GenS;
    StartOpen(env, g, ss, s);
    var v, ty, g1, k1, g2, z := IfCfg(e, a, g, ret, t);
    var trueBB, contBB := |g1.blocks|, |g1.blocks| + 1;
    OpenCur(g1);
    NewBlocksKeep(g1, 2);
    TestKeeps(NewBlock(NewBlock(g1)), v, ty, trueBB, contBB, trueBB);
    BrKeeps(g2, contBB, contBB);
    SimBr(env, f, g2, contBB, contBB, s);
    ExtBack(k1, g2, f);
    NextUp(g, g1);
    s', k := SimCond(env, f, e, g, ret, NewBlock(NewBlock(g1)), trueBB, contBB, trueBB, ss, s);
    var c := Condition(env, e, ss);
    NotEnded(z);
    if c.Met? || c.NotMet? {
      var s1, kc := s', k;
      HereEmpty(z, s1);
      if c.Met? {
        StillReady(env, g, k1, ss, s, used, base, c.s, s1);
        s', k := SimArm(env, f, a, k1, g2, contBB, contBB, ret, c.s, s1, fuel, used, base);
        HereEmpty(z, s');
        ArmDone(env, f, g, z, Here(g, s), Point(trueBB, 0, s1), Exec(env, ret, a, c.s, fuel), s', kc, k, fuel);
        k := kc + k;
      }
    }
  }

  /** Up to an arm, and through it. */
  lemma ArmDone(env: Env, f: seq<seq<Instr>>, g: Gen, z: Gen, p: Point, q: Point, r: StmtResult, s': State, k1: nat,
                k: nat, fuel: nat)
    requires Moves(env, f, p, q, k1) && !Terminated(z)
    requires r.Falls? ==> Moves(env, f, q, Here(z, s'), k) && Rel(env, g.scope, r.s, s')
    requires r.Returns? ==> Finishes(env, f, q, r.v, r.w, k)
    requires r.Timeout? ==> Spins(env, f, q, k) && k >= fuel
    ensures SSim(env, f, g, z, p, r, s', k1 + k, fuel)
  {
    hide Moves, Finishes, Rel, Spins;
    if r.Falls? { MovesTrans(env, f, p, q, Here(z, s'), k1, k); }
    if r.Returns? { MovesFinish(env, f, p, q, r.v, r.w, k1, k); }
    if r.Timeout? { MovesSpin(env, f, p, q, k1, k); }
  }

  lemma {:induction false} SimIfElse(env: Env, f: seq<seq<Instr>>, t: Stmt, e: Expr, a: Stmt, b: Stmt, g: Gen,
                                     ret: Option<Ty>, ss: Src, s: State, fuel: nat,
                                     used: set<nat>, base: nat)
    returns (s': State, k: nat)
    requires t == IfS(e, a, Some(b)) && Ready(env, g, ss, s, used, base) && GenS(t, g, ret).Some?
             && Ext(GenS(t, g, ret).value, f) && SitesOk(t, used, base)
    ensures SSim(env, f, g, GenS(t, g, ret).value, Here(g, s), Exec(env, ret, t, ss, fuel), s', k, fuel)
    decreases fuel, t, 0
  {
    hide Start, Ext, Moves, Finishes, Spins, Rel, GenX, GenCond, Condition, Open, Cfg, Keeps, HomesIn,
         BrUnlessTerminated, GenTest, GenS;
    StartOpen(env, g, ss, s);
    var v, ty, g1, k1, g2, k2, g3, z := IfElseCfg(e, a, b, g, ret, t);
    var trueBB, contBB, falseBB := |g1.blocks|, |g1.blocks| + 1, |g1.blocks| + 2;
    OpenCur(g1);
    NewBlocksKeep(g1, 3);
    TestKeeps(NewBlock(NewBlock(NewBlock(g1))), v, ty, trueBB, falseBB, trueBB);
    BrKeeps(g2, contBB, falseBB);
    BrKeeps(g3, contBB, contBB);
    SimBr(env, f, g3, contBB, contBB, s);
    ExtBack(k2, g3, f);
    SimBr(env, f, g2, contBB, falseBB, s);
    ExtBack(k1, g2, f);
    NextUp(g, g1);
    NextUp(k1, g2);
    NextUp(k2, g3);
    s', k := SimCond(env, f, e, g, ret, NewBlock(NewBlock(NewBlock(g1))), trueBB, falseBB, trueBB, ss, s);
    var c := Condition(env, e, ss);
    NotEnded(z);
    if c.Met? || c.NotMet? {
      var s1, kc := s', k;
      if c.Met? {
        StillReady(env, g, k1, ss, s, used, base, c.s, s1);
        s', k := SimArm(env, f, a, k1, g2, contBB, falseBB, ret, c.s, s1, fuel, used, base);
        HereEmpty(z, s');
        ArmDone(env, f, g, z, Here(g, s), Point(trueBB, 0, s1), Exec(env, ret, a, c.s, fuel), s', kc, k, fuel);
      } else {
        StillReady(env, g, k2, ss, s, used, base, c.s, s1);
        s', k := SimArm(env, f, b, k2, g3, contBB, contBB, ret, c.s, s1, fuel, used, base);
        HereEmpty(z, s');
        ArmDone(env, f, g, z, Here(g, s), Point(falseBB, 0, s1), Exec(env, ret, b, c.s, fuel), s', kc, k, fuel);
      }
      k := kc + k;
    }
  }

  /** The parts of a generated loop. */
  ghost predicate LoopParts(f: seq<seq<Instr>>, e: Expr, body: Stmt, ret: Option<Ty>, k1: Gen, v: Operand, ty: Ty,
                            g1: Gen, k: Gen, g2: Gen, z: Gen) {
    && GenCond(e, k1, ret) == Some((v, ty, g1)) && k == GenTest(NewBlock(NewBlock(g1)), v, ty, |g1.blocks|,
                                                                |g1.blocks| + 1).(cur := |g1.blocks|)
    && GenS(body, k, ret) == Some(g2) && z == BrUnlessTerminated(g2, k1.cur).(cur := |g1.blocks| + 1)
    && OpenEmpty(k1) && Open(g1) && Keeps(k1, g1) && OpenEmpty(k) && Cfg(g2) && Keeps(k, g2) && OpenEmpty(z)
    && Ext(z, f)
  }

  lemma {:induction false} SimWhile(env: Env, f: seq<seq<Instr>>, t: Stmt, e: Expr, body: Stmt, g: Gen,
                                    ret: Option<Ty>, ss: Src, s: State, fuel: nat, used: set<nat>, base: nat)
    returns (s': State, k: nat)
    requires t == WhileS(e, body) && Ready(env, g, ss, s, used, base) && GenS(t, g, ret).Some?
             && Ext(GenS(t, g, ret).value, f) && SitesOk(t, used, base)
    ensures SSim(env, f, g, GenS(t, g, ret).value, Here(g, s), Exec(env, ret, t, ss, fuel), s', k, fuel)
    decreases fuel, t, 1
  {
    hide Start, Ext, Moves, Finishes, Spins, Rel, GenX, GenCond, Condition, Open, Cfg, Keeps, HomesIn,
         BrUnlessTerminated, GenTest, GenS, Exec, SSim;
    StartOpen(env, g, ss, s);
    var k1, v, ty, g1, kb, g2, z := WhileCfg(e, body, g, ret, t);
    var exprBB := |g.blocks|;
    OpenCur(g1);
    NewBlocksKeep(g1, 2);
    TestKeeps(NewBlock(NewBlock(g1)), v, ty, |g1.blocks|, |g1.blocks| + 1, |g1.blocks|);
    BrKeeps(NewBlock(g), exprBB, exprBB);
    SimBr(env, f, g2, exprBB, |g1.blocks| + 1, s);
    ExtBack(kb, g2, f);
    TestExt(g1, NewBlock(NewBlock(g1)), v, ty, |g1.blocks|, |g1.blocks| + 1, |g1.blocks|, f);
    ExtBack(k1, g1, f);
    EnterLoop(env, f, g, exprBB, s);
    StillReady(env, g, k1, ss, s, used, base, ss, s);
    s', k := SimLoop(env, f, t, e, body, ret, k1, v, ty, g1, kb, g2, z, ss, s, fuel, used, base);
    var r := Exec(env, ret, t, ss, fuel);
    NotEnded(z);
    SameScopeSim(env, f, k1, g, z, Point(exprBB, 0, s), r, s', k, fuel);
    SAfter(env, f, g, z, Here(g, s), Point(exprBB, 0, s), r, s', 1, k, fuel);
    k := 1 + k;
  }

  lemma SameScopeSim(env: Env, f: seq<seq<Instr>>, g1: Gen, g: Gen, z: Gen, p: Point, r: StmtResult, s': State,
                     k: nat, fuel: nat)
    requires SSim(env, f, g1, z, p, r, s', k, fuel) && g1.scope == g.scope
    ensures SSim(env, f, g, z, p, r, s', k, fuel)
  {}

  /** From the code before the loop to its test. */
  lemma EnterLoop(env: Env, f: seq<seq<Instr>>, g: Gen, exprBB: nat, s: State)
    requires Open(g) && exprBB == |g.blocks| && Ext(BrUnlessTerminated(NewBlock(g), exprBB).(cur := exprBB), f)
    ensures Moves(env, f, Here(g, s), Point(exprBB, 0, s), 1)
  {
    NewBlockCfg(g);
    SimBr(env, f, NewBlock(g), exprBB, exprBB, s);
    assert !Terminated(NewBlock(g)) && Here(NewBlock(g), s) == Here(g, s);
  }

  /** A loop from its test on, round after round. */
  lemma {:induction false} SimLoop(env: Env, f: seq<seq<Instr>>, t: Stmt, e: Expr, body: Stmt, ret: Option<Ty>,
                                   k1: Gen, v: Operand, ty: Ty, g1: Gen, kb: Gen, g2: Gen, z: Gen,
                                   ss: Src, s: State, fuel: nat, used: set<nat>, base: nat)
    returns (s': State, k: nat)
    requires t == WhileS(e, body) && LoopParts(f, e, body, ret, k1, v, ty, g1, kb, g2, z)
    requires Ready(env, k1, ss, s, used, base) && SitesOk(body, used, base)
    ensures SSim(env, f, k1, z, Point(k1.cur, 0, s), Exec(env, ret, t, ss, fuel), s', k, fuel)
    decreases fuel, t, 0
  {
    hide Start, Ext, Moves, Finishes, Spins, Rel, GenX, GenCond, Condition, Open, Cfg, Keeps, HomesIn,
         BrUnlessTerminated, GenTest, GenS, OpenEmpty;
    var trueBB, contBB := |g1.blocks|, |g1.blocks| + 1;
    OpenCur(g1);
    NewBlocksKeep(g1, 2);
    TestKeeps(NewBlock(NewBlock(g1)), v, ty, trueBB, contBB, trueBB);
    BrKeeps(g2, k1.cur, contBB);
    SimBr(env, f, g2, k1.cur, contBB, s);
    ExtBack(kb, g2, f);
    NextUp(k1, g1);
    HereEmpty(k1, s);
    s', k := SimCond(env, f, e, k1, ret, NewBlock(NewBlock(g1)), trueBB, contBB, trueBB, ss, s);
    var c := Condition(env, e, ss);
    EmptyOpen(z);
    if c.Met? || c.NotMet? {
      var s1, kc := s', k;
      HereEmpty(z, s1);
      if c.Met? && fuel > 0 {
        EmptyOpen(kb);
        StillReady(env, k1, kb, ss, s, used, base, c.s, s1);
        s', k := SimArm(env, f, body, kb, g2, k1.cur, contBB, ret, c.s, s1, fuel - 1, used, base);
        var rb := Exec(env, ret, body, c.s, fuel - 1);
        if rb.Falls? {
          var s2, ka := s', k;
          EmptyOpen(k1);
          StillReady(env, k1, k1, ss, s, used, base, rb.s, s2);
          s', k := SimLoop(env, f, t, e, body, ret, k1, v, ty, g1, kb, g2, z, rb.s, s2, fuel - 1, used, base);
          SAfter(env, f, k1, z, Point(trueBB, 0, s1), Point(k1.cur, 0, s2), Exec(env, ret, t, rb.s, fuel - 1), s', ka,
                 k, fuel - 1);
          SAfter(env, f, k1, z, Point(k1.cur, 0, s), Point(trueBB, 0, s1), Exec(env, ret, t, rb.s, fuel - 1), s', kc,
                 ka + k, fuel - 1);
          k := kc + (ka + k);
        } else if rb.Returns? {
          MovesFinish(env, f, Point(k1.cur, 0, s), Point(trueBB, 0, s1), rb.v, rb.w, kc, k);
          k := kc + k;
        } else if rb.Timeout? {
          MovesSpin(env, f, Point(k1.cur, 0, s), Point(trueBB, 0, s1), kc, k);
          k := kc + k;
        }
      } else if c.Met? {
        k := 0;
        SpinsNow(env, f, Point(k1.cur, 0, s));
      }
    }
  }

  lemma SpinsNow(env: Env, f: seq<seq<Instr>>, p: Point)
    ensures Spins(env, f, p, 0)
  {}

  lemma EmptyOpen(g: Gen)
    requires OpenEmpty(g)
    ensures Open(g) && !Terminated(g)
  {}

  // ----- scopes and lists ------------------------------------------------------------------------------------

  lemma EnterScope(env: Env, g: Gen, ss: Src, s: State, used: set<nat>, base: nat)
    requires Ready(env, g, ss, s, used, base)
    ensures Ready(env, g.(scope := g.scope + [map[]]), ss.(frames := ss.frames + [map[]]), s, used, base)
    ensures Here(g.(scope := g.scope + [map[]]), s) == Here(g, s)
  {
    var scope', frames' := g.scope + [map[]], ss.frames + [map[]];
    CfgSame(g, g.(scope := scope'));
    forall k, id, d: nat {:trigger Holds(scope', k, id, d)} | Holds(scope', k, id, d)
      ensures Holds(g.scope, k, id, d)
    {
    }
    forall k | 0 <= k < |scope'| ensures LevelRel(env, frames'[k], scope'[k], s) {
      if k < |g.scope| { assert LevelRel(env, ss.frames[k], g.scope[k], s); }
    }
  }

  lemma LeaveScope(env: Env, scope: Scope, scope0: Scope, ss: Src, s: State)
    requires Rel(env, scope, ss, s) && scope != [] && scope0 == scope[..|scope| - 1]
    ensures ss.frames != [] && Rel(env, scope0, ss.(frames := ss.frames[..|ss.frames| - 1]), s)
  {
    forall k | 0 <= k < |scope0|
      ensures LevelRel(env, ss.frames[k], scope0[k], s)
    {
      assert LevelRel(env, ss.frames[k], scope[k], s);
    }
  }

  lemma {:induction false} SimCompound(env: Env, f: seq<seq<Instr>>, t: Stmt, ds: seq<Decl>, ts: seq<Stmt>, g: Gen,
                                       ret: Option<Ty>, ss: Src, s: State, fuel: nat,
                                       used: set<nat>, base: nat)
    returns (s': State, k: nat)
    requires t == CompoundS(ds, ts) && Ready(env, g, ss, s, used, base) && GenS(t, g, ret).Some?
             && Ext(GenS(t, g, ret).value, f) && SitesOk(t, used, base)
    ensures SSim(env, f, g, GenS(t, g, ret).value, Here(g, s), Exec(env, ret, t, ss, fuel), s', k, fuel)
    decreases fuel, t, 0
  {
    hide Start, Ext, Moves, Finishes, Spins, Rel, Open, Cfg, Keeps, HomesIn, GenDecls, ExecDecls, GenList, ExecList;
    var g0, ss0 := g.(scope := g.scope + [map[]]), ss.(frames := ss.frames + [map[]]);
    var g1 := GenDecls(ds, g0);
    var g2 := GenList(ts, g1, ret).value;
    EnterScope(env, g, ss, s, used, base);
    StartOpen(env, g0, ss0, s);
    DeclsCfg(ds, g0);
    ListCfg(ts, g1, ret);
    PopExt(g2, f);
    ExtBack(g1, g2, f);
    var s1 := SimDecls(env, f, ds, g0, ss0, s, used, base);
    s', k := SimList(env, f, ts, g1, ret, ExecDecls(env, ds, ss0), s1, fuel, used + DeclSites(ds), base);
    var r := ExecList(env, ret, ts, ExecDecls(env, ds, ss0), fuel);
    SAfter(env, f, g1, g2, Here(g, s), Here(g1, s1), r, s', 0, k, fuel);
    NextUp(g1, g2);
    if r.Falls? {
      LeaveScope(env, g1.scope, g.scope, r.s, s');
      PopHere(g2, s');
    }
  }

  lemma PopExt(g: Gen, f: seq<seq<Instr>>)
    requires Ext(PopScope(g), f)
    ensures Ext(g, f)
  {
    assert PopScope(g).blocks == g.blocks;
  }

  lemma PopHere(g: Gen, s: State)
    ensures Here(PopScope(g), s) == Here(g, s) && (Terminated(PopScope(g)) <==> Terminated(g))
  {}

  lemma {:induction false} SimList(env: Env, f: seq<seq<Instr>>, ts: seq<Stmt>, g: Gen, ret: Option<Ty>, ss: Src,
                                   s: State, fuel: nat, used: set<nat>, base: nat)
    returns (s': State, k: nat)
    requires Ready(env, g, ss, s, used, base) && GenList(ts, g, ret).Some? && Ext(GenList(ts, g, ret).value, f)
             && ListSitesOk(ts, used, base)
    ensures SSim(env, f, g, GenList(ts, g, ret).value, Here(g, s), ExecList(env, ret, ts, ss, fuel), s', k, fuel)
    decreases fuel, ts, 0
  {
    hide Start, Ext, Moves, Finishes, Spins, Rel, Open, Cfg, Keeps, HomesIn, GenS, Exec, SitesOk;
    StartOpen(env, g, ss, s);
    if ts == [] {
      s', k := s, 0;
      Unmoved(env, f, g, ss, s);
      NotEnded(g);
    } else {
      var g1 := GenS(ts[0], g, ret).value;
      SCfg(ts[0], g, ret);
      NextUp(g, g1);
      if !Terminated(g1) {
        CfgOpen(g1);
        ListCfg(ts[1..], g1, ret);
        ExtBack(g1, GenList(ts[1..], g1, ret).value, f);
      }
      s', k := SimS(env, f, ts[0], g, ret, ss, s, fuel, used, base);
      var r := Exec(env, ret, ts[0], ss, fuel);
      if r.Falls? {
        var s1, k1 := s', k;
        StillReady(env, g, g1, ss, s, used, base, r.s, s1);
        s', k := SimList(env, f, ts[1..], g1, ret, r.s, s1, fuel, used, base);
        var r2 := ExecList(env, ret, ts[1..], r.s, fuel);
        SameScopeSim(env, f, g1, g, GenList(ts, g, ret).value, Here(g1, s1), r2, s', k, fuel);
        SAfter(env, f, g, GenList(ts, g, ret).value, Here(g, s), Here(g1, s1), r2, s', k1, k, fuel);
        k := k1 + k;
      }
    }
  }

  lemma CfgOpen(g: Gen)
    requires Cfg(g) && !Terminated(g)
    ensures Open(g)
  {}

  lemma NextUp(g: Gen, g1: Gen)
    requires Keeps(g, g1)
    ensures g.next <= g1.next && g1.scope == g.scope
  {}

  // ----- functions -------------------------------------------------------------------------------------------

  /** A global variable, a global array or a function, on both sides. */
  predicate GlobalRel(v: Var, b: Binding) {
    match (v, b)
    case (GlobalNum(t, k), Mem(GlobalAddr(m), NumK(t'))) => t == t' && k == m
    case (GlobalArr(t, k), Mem(GlobalAddr(m), ArrK(t'))) => t == t' && k == m
    case (FunVar(fn, ps, r), Fun(fn', ps', r')) => fn == fn' && ps == ps' && r == r'
    case _ => false
  }

  /** The bindings of the names declared before the function. */
  ghost predicate GlobalsOk(vars: map<string, Var>, names: map<string, Binding>) {
    vars.Keys == names.Keys && forall id :: id in vars ==> GlobalRel(vars[id], names[id])
  }

  lemma ParamExt(p: Param, k: nat, g: Gen, f: seq<seq<Instr>>)
    requires g.cur < |g.blocks| && Ext(GenParam(p, k, g), f)
    ensures var g1 := EmitNew(g, Alloca(g.next, ParamSlot(p)));
            && Ext(Emit(g, Alloca(g.next, ParamSlot(p))), f) && Ext(Emit(g1, Store(Arg(k), Reg(g.next))), f)
            && g1.cur == g.cur && |g1.blocks| == |g.blocks|
            && forall s :: Here(GenParam(p, k, g), s) == Here(Emit(g1, Store(Arg(k), Reg(g.next))), s)
  {
    var i := Alloca(g.next, ParamSlot(p));
    var g1 := EmitNew(g, i);
    var g2 := Emit(g1, Store(Arg(k), Reg(g.next)));
    assert GenParam(p, k, g).blocks == g2.blocks;
    Emitted(g1, Store(Arg(k), Reg(g.next)), f);
    assert g1.blocks == Emit(g, i).blocks;
  }

  /** A parameter: a slot of its own, which gets the argument. */
  lemma SimParam(env: Env, f: seq<seq<Instr>>, p: Param, k: nat, g: Gen, ss: Src, s: State, base: nat)
    returns (s': State)
    requires Ready(env, g, ss, s, {}, base) && Ext(GenParam(p, k, g), f) && k < |env.args| && Takes(p, env.args[k])
    ensures Moves(env, f, Here(g, s), Here(GenParam(p, k, g), s'), 0) && ss.frames != []
    ensures var v := ParamVar(p, env.args[k]);
            Ready(env, GenParam(p, k, g), ss.(frames := Declare(ss.frames, p.id, v)), s', {}, base)
  {
    hide Moves, Rel, ScopeOk, HomesIn, Open, Cfg, Step, Ext;
    RelSize(env, g.scope, ss, s);
    OpenCur(g);
    ParamCfg(p, k, g);
    ParamExt(p, k, g, f);
    var d, ty := g.next, ParamSlot(p);
    var g1 := EmitNew(g, Alloca(d, ty));
    var s1 := State(s.regs[d := SlotPtr(d, ty)], s.slots - {d}, s.world);
    AllocaStep(env, s, d, ty);
    EmitMoves(env, g, Alloca(d, ty), f, s, s1);
    StoreSlot(env, s1, Arg(k), env.args[k], d);
    s' := s1.(slots := s1.slots[d := env.args[k]]);
    EmitMoves(env, g1, Store(Arg(k), Reg(d)), f, s1, s');
    MovesTrans(env, f, Here(g, s), Here(g1, s1), Here(GenParam(p, k, g), s'), 0, 0);
    RelAlloca(env, g.scope, g.next, ss, s, d, s1, {}, base);
    RelWorldIs(env, g.scope, ss, s);
    RelFill(env, g.scope, g.next, ss, s1, d, env.args[k]);
    var b := Mem(Reg(d), ParamKind(p));
    var v := ParamVar(p, env.args[k]);
    PushOk(g.scope, g.next, g.next + 1, p.id, b, d, {}, base);
    HomesShrink(PushName(g.scope, p.id, b), {}, d, base, {});
    var none: set<nat> := {};
    assert none + none == none;
    PushRel(env, g.scope, ss, s', p.id, b, v);
  }

  /** Filling a slot that no name has yet. */
  lemma RelFill(env: Env, scope: Scope, next: nat, ss: Src, s: State, d: nat, v: Value)
    requires Rel(env, scope, ss.(world := s.world), s) && ScopeOk(scope, next) && d >= next && ss.world == s.world
    ensures Rel(env, scope, ss, s.(slots := s.slots[d := v]))
  {
    var s' := s.(slots := s.slots[d := v]);
    forall k | 0 <= k < |scope| ensures LevelRel(env, ss.frames[k], scope[k], s') {
      assert LevelRel(env, ss.frames[k], scope[k], s);
      forall id | id in scope[k] ensures VarRel(env, ss.frames[k][id], scope[k][id], s') {
        assert VarRel(env, ss.frames[k][id], scope[k][id], s);
        if Home(scope[k][id]).Some? { assert Holds(scope, k, id, Home(scope[k][id]).value); }
      }
    }
  }

  lemma ReadyOpen(env: Env, g: Gen, ss: Src, s: State, used: set<nat>, base: nat)
    requires Ready(env, g, ss, s, used, base)
    ensures Open(g) && |g.scope| > 0 && |ss.frames| == |g.scope|
  {}

  lemma {:induction false} SimParams(env: Env, f: seq<seq<Instr>>, ps: seq<Param>, k: nat, g: Gen,
                                     globals: map<string, Var>, frame: map<string, Var>, w: World, s: State, base: nat)
    returns (s': State)
    requires Ready(env, g, Src([globals, frame], w), s, {}, base) && Ext(GenParams(ps, k, g), f)
             && k + |ps| == |env.args| && forall j :: 0 <= j < |ps| ==> Takes(ps[j], env.args[k + j])
    ensures Moves(env, f, Here(g, s), Here(GenParams(ps, k, g), s'), 0)
    ensures Ready(env, GenParams(ps, k, g), Src([globals, ParamFrame(ps, env.args[k..], frame)], w), s', {}, base)
    decreases ps
  {
    hide Moves, Rel, ScopeOk, HomesIn, Open, Cfg, Ext, Since, GenParam, Start;
    if ps == [] {
      s' := s;
      MovesSelf(env, f, Here(g, s));
    } else {
      var g1 := GenParam(ps[0], k, g);
      var v := ParamVar(ps[0], env.args[k]);
      var frame1 := if ps[0].id in frame then frame else frame[ps[0].id := v];
      ReadyOpen(env, g, Src([globals, frame], w), s, {}, base);
      ParamCfg(ps[0], k, g);
      SinceSize(g, g1);
      ParamsCfg(ps[1..], k + 1, g1);
      SinceExt(g1, GenParams(ps[1..], k + 1, g1), f);
      assert Takes(ps[0], env.args[k + 0]);
      var s1 := SimParam(env, f, ps[0], k, g, Src([globals, frame], w), s, base);
      assert Declare([globals, frame], ps[0].id, v) == [globals, frame1];
      assert env.args[k..][0] == env.args[k] && env.args[k..][1..] == env.args[k + 1..];
      forall j | 0 <= j < |ps[1..]| ensures Takes(ps[1..][j], env.args[k + 1 + j]) {
        assert Takes(ps[j + 1], env.args[k + (j + 1)]);
      }
      s' := SimParams(env, f, ps[1..], k + 1, g1, globals, frame1, w, s1, base);
      MovesTrans(env, f, Here(g, s), Here(g1, s1), Here(GenParams(ps, k, g), s'), 0, 0);
    }
  }

  /** Blocks of a generated function; the generator makes no phis. */
  function BlocksOf(g: Gen): seq<Block> {
    seq(|g.blocks|, b requires 0 <= b < |g.blocks| => Block([], g.blocks[b]))
  }

  lemma {:induction false} RunIsRunFrom(env: Env, g: Gen, b: nat, from: nat, s: State, fuel: nat)
    ensures Run(env, BlocksOf(g), b, from, s, fuel + 1) == RunFrom(env, g.blocks, Point(b, 0, s), fuel)
    decreases fuel
  {
    if b < |g.blocks| {
      var k := BlocksOf(g)[b];
      assert k.phis == [] && s.(regs := EnterPhis(env, k.phis, from, s.regs, s.regs)) == s;
      assert g.blocks[b][0..] == g.blocks[b];
      var n := ExecBody(env, g.blocks[b], s);
      assert RunBlock(env, k, from, s) == n;
      if n.Goto? && fuel > 0 { RunIsRunFrom(env, g, n.to, b, n.s, fuel - 1); }
    }
  }

  ghost predicate SourceOk(fd: FunDecl, base: nat) {
    DeclsOk(fd.decls, {}, base) && ListSitesOk(fd.stmts, DeclSites(fd.decls), base)
  }

  lemma GlobalHome(env: Env, vars: map<string, Var>, names: map<string, Binding>, id: string, s: State)
    requires GlobalsOk(vars, names) && id in names
    ensures Home(names[id]).None? && VarRel(env, vars[id], names[id], s)
  {}

  lemma StartReady(env: Env, vars: map<string, Var>, names: map<string, Binding>, w: World, base: nat)
    requires GlobalsOk(vars, names)
    ensures Ready(env, GenStart(names, base), Src([vars, map[]], w), State(map[], map[], w), {}, base)
  {
    var g, s := GenStart(names, base), State(map[], map[], w);
    StartCfg(names, base);
    forall k, id, d: nat {:trigger Holds(g.scope, k, id, d)} ensures !Holds(g.scope, k, id, d) {
      if k == 0 && id in names { GlobalHome(env, vars, names, id, s); }
    }
    forall id | id in vars ensures VarRel(env, vars[id], names[id], s) { GlobalHome(env, vars, names, id, s); }
    assert LevelRel(env, vars, names, s) && LevelRel(env, map[], map[], s);
  }

  /** The last instruction of a function that does not end with a return statement. */
  lemma SimLast(env: Env, f: seq<seq<Instr>>, g: Gen, ret: Option<Ty>, p: Point, s: State, k: nat)
    requires Open(g) && Moves(env, f, p, Here(g, s), k) && Ext(Emit(g, DefaultRet(ret)), f)
    ensures Finishes(env, f, p, DefaultResult(ret), s.world, k)
  {
    hide Moves, Finishes, Ext;
    OpenCur(g);
    SimRet(env, f, g, DefaultRet(ret), s, DefaultResult(ret), s.world);
    MovesFinish(env, f, p, Here(g, s), DefaultResult(ret), s.world, k, 0);
  }

  /** Code generation preserves meaning: when the source of a function returns, the generated function
      returns, with the same value, the same memory and the same trace. */
  lemma CodegenPreservesMeaning(env: Env, fd: FunDecl, vars: map<string, Var>, names: map<string, Binding>, base: nat,
                                w: World, fuel: nat)
    returns (n: nat)
    requires GenFun(fd, names, base).Some? && GlobalsOk(vars, names) && SourceOk(fd, base)
    requires ExecFun(env, fd, vars, w, fuel).Returns?
    ensures var r := ExecFun(env, fd, vars, w, fuel);
            forall m: nat {:trigger RunFunction(env, BlocksOf(GenFun(fd, names, base).value), w, m)} ::
              m >= n ==> RunFunction(env, BlocksOf(GenFun(fd, names, base).value), w, m) == Done(r.v, r.w)
  {
    hide *;
    var g, r := GenFun(fd, names, base).value, ExecFun(env, fd, vars, w, fuel);
    var k := SimFun(env, fd, vars, names, base, w, fuel);
    n := k + 1;
    forall m: nat {:trigger RunFunction(env, BlocksOf(g), w, m)} | m >= n
      ensures RunFunction(env, BlocksOf(g), w, m) == Done(r.v, r.w)
    {
      RunStarts(env, g, w, m - 1);
      FinishesAt(env, g.blocks, Point(0, 0, State(map[], map[], w)), r.v, r.w, k, m - 1);
    }
  }

  /** A source that never ends has code that never ends. */
  lemma CodegenPreservesDivergence(env: Env, fd: FunDecl, vars: map<string, Var>, names: map<string, Binding>,
                                   base: nat, w: World, m: nat)
    requires GenFun(fd, names, base).Some? && GlobalsOk(vars, names) && SourceOk(fd, base)
    requires forall fuel :: ExecFun(env, fd, vars, w, fuel).Timeout?
    ensures RunFunction(env, BlocksOf(GenFun(fd, names, base).value), w, m) == OutOfFuel
  {
    hide ExecFun, GenFun, SourceOk, GlobalsOk;
    if m > 0 {
      var g := GenFun(fd, names, base).value;
      assert ExecFun(env, fd, vars, w, m).Timeout?;
      var k := SimFun(env, fd, vars, names, base, w, m);
      RunStarts(env, g, w, m - 1);
      assert RunFrom(env, g.blocks, Point(0, 0, State(map[], map[], w)), m - 1) == OutOfFuel;
    }
  }

  lemma RunStarts(env: Env, g: Gen, w: World, m: nat)
    ensures RunFunction(env, BlocksOf(g), w, m + 1) == RunFrom(env, g.blocks, Point(0, 0, State(map[], map[], w)), m)
  {
    RunIsRunFrom(env, g, 0, 0, State(map[], map[], w), m);
  }

  lemma FinishesAt(env: Env, f: seq<seq<Instr>>, p: Point, v: Option<Value>, w: World, k: nat, n: nat)
    requires Finishes(env, f, p, v, w, k) && n >= k
    ensures RunFrom(env, f, p, n) == Done(v, w)
  {}

  lemma SimFun(env: Env, fd: FunDecl, vars: map<string, Var>, names: map<string, Binding>, base: nat, w: World,
               fuel: nat)
    returns (k: nat)
    requires GenFun(fd, names, base).Some? && GlobalsOk(vars, names) && SourceOk(fd, base)
    ensures var r, p := ExecFun(env, fd, vars, w, fuel), Point(0, 0, State(map[], map[], w));
            && (r.Returns? ==> Finishes(env, GenFun(fd, names, base).value.blocks, p, r.v, r.w, k))
            && (r.Timeout? ==> Spins(env, GenFun(fd, names, base).value.blocks, p, k) && k >= fuel)
  {
    if TakesAll(fd.params, env.args) { k := SimCall(env, fd, vars, names, base, w, fuel); } else { k := 0; }
  }

  lemma SimCall(env: Env, fd: FunDecl, vars: map<string, Var>, names: map<string, Binding>, base: nat, w: World,
                fuel: nat)
    returns (k: nat)
    requires GenFun(fd, names, base).Some? && GlobalsOk(vars, names) && SourceOk(fd, base)
             && TakesAll(fd.params, env.args)
    ensures var r, p := ExecFun(env, fd, vars, w, fuel), Point(0, 0, State(map[], map[], w));
            && (r.Returns? ==> Finishes(env, GenFun(fd, names, base).value.blocks, p, r.v, r.w, k))
            && (r.Timeout? ==> Spins(env, GenFun(fd, names, base).value.blocks, p, k) && k >= fuel)
  {
    hide Start, Ext, Moves, Finishes, Spins, Rel, Open, Cfg, Keeps, HomesIn, GenDecls, ExecDecls, GenList, ExecList,
         GenParams, ParamFrame, Emit, Ready, GlobalsOk, Since;
    var g0, s0 := GenStart(names, base), State(map[], map[], w);
    var g1 := GenParams(fd.params, 0, g0);
    var g2 := GenDecls(fd.decls, g1);
    var g3 := GenList(fd.stmts, g2, fd.ret).value;
    var g4 := if Terminated(g3) then g3 else Emit(g3, DefaultRet(fd.ret));
    var f := PopScope(g4).blocks;
    StartCfg(names, base);
    ParamsCfg(fd.params, 0, g0);
    SinceSize(g0, g1);
    DeclsCfg(fd.decls, g1);
    ListCfg(fd.stmts, g2, fd.ret);
    FunExt(g3, fd.ret, f);
    ExtBack(g2, g3, f);
    SinceExt(g1, g2, f);
    StartReady(env, vars, names, w, base);
    var s1 := SimParams(env, f, fd.params, 0, g0, vars, map[], w, s0, base);
    assert env.args[0..] == env.args;
    var ss1 := Src([vars, ParamFrame(fd.params, env.args, map[])], w);
    var s2 := SimDecls(env, f, fd.decls, g1, ss1, s1, {}, base);
    assert {} + DeclSites(fd.decls) == DeclSites(fd.decls);
    var ss2 := ExecDecls(env, fd.decls, ss1);
    var s3, k3 := SimList(env, f, fd.stmts, g2, fd.ret, ss2, s2, fuel, DeclSites(fd.decls), base);
    var r := ExecList(env, fd.ret, fd.stmts, ss2, fuel);
    MovesTrans(env, f, Here(g0, s0), Here(g1, s1), Here(g2, s2), 0, 0);
    SAfter(env, f, g2, g3, Here(g0, s0), Here(g2, s2), r, s3, 0, k3, fuel);
    k := k3;
    if r.Falls? {
      CfgOpen(g3);
      RelWorldIs(env, g2.scope, r.s, s3);
      SimLast(env, f, g3, fd.ret, Here(g0, s0), s3, k3);
    }
  }

  lemma SinceSize(g: Gen, g': Gen)
    requires Since(g, g')
    ensures |g'.scope| == |g.scope| > 0
  {}

  lemma FunExt(g3: Gen, ret: Option<Ty>, f: seq<seq<Instr>>)
    requires Cfg(g3) && f == PopScope(if Terminated(g3) then g3 else Emit(g3, DefaultRet(ret))).blocks
    ensures Ext(g3, f) && (!Terminated(g3) ==> Ext(Emit(g3, DefaultRet(ret)), f))
  {
    if Terminated(g3) {
      assert f == g3.blocks;
    } else {
      assert f == Emit(g3, DefaultRet(ret)).blocks;
      Emitted(g3, DefaultRet(ret), f);
    }
  }
}

/** From the syntax tree to optimised SSA form: generated code is what SSA construction asks for. */
module Pipeline {
  import opened IR
  import opened Cminus
  import opened Codegen
  import opened CodegenCfg
  import opened CodegenStmt
  import opened CodegenDefs
  import G = Graph
  import R = Renaming
  import P = Promotion
  import S = SsaPass
  import H = PhiSites
  import O = RenameOrder
  import opened Program
  import opened PlainCode
  import F = FuncInfo
  import U = Purity
  import D = DeadCode
  import Y = TypedSsa
  import T = Types

  function GepsOf(f: seq<seq<Instr>>): set<nat> {
    set b: nat, i: nat | b < |f| && i < |f[b]| && f[b][i].Gep? :: f[b][i].dst
  }

  function SlotsOf(f: seq<seq<Instr>>): set<nat> {
    set b: nat, i: nat | b < |f| && i < |f[b]| && IsSlot(f[b][i]) :: f[b][i].dst
  }

  /** What SSA construction reads off the code. */
  function CtxOf(g: Gen): R.Ctx {
    R.Ctx(GepsOf(g.blocks), SlotsOf(g.blocks), g.next)
  }

  /** No number variable is indexed. */
  ghost predicate NoNumberIndexed(f: seq<seq<Instr>>) {
    forall b, i :: 0 <= b < |f| && 0 <= i < |f[b]| && f[b][i].Gep? && f[b][i].base.Reg? ==>
             f[b][i].base.r !in SlotsOf(f)
  }

  lemma KindOf(g: Gen, m: Marks, r: nat)
    requires Sound(g, m) && Setter(g.blocks, m.def, r).Some?
    ensures r in GepsOf(g.blocks) <==> Setter(g.blocks, m.def, r).value.Gep?
    ensures r in SlotsOf(g.blocks) <==> IsSlot(Setter(g.blocks, m.def, r).value)
  {
    hide DomOk, KindsOk;
    var at := m.def[r];
    forall b: nat, i: nat | b < |g.blocks| && i < |g.blocks[b]| && HasDst(g.blocks[b][i]) && g.blocks[b][i].dst == r
      ensures (b, i) == at
    {
      assert InstrSound(g.blocks, m, b, i);
    }
  }

  lemma {:induction false} DefsAre(body: seq<Instr>, r: nat)
    ensures r in R.Defs(body) <==> SetIn(body, r)
    decreases body
  {
    if body != [] {
      DefsAre(body[1..], r);
      if SetIn(body[1..], r) {
        var k :| 0 <= k < |body[1..]| && HasDst(body[1..][k]) && body[1..][k].dst == r;
        assert body[k + 1] == body[1..][k];
      }
      if SetIn(body, r) {
        var k :| 0 <= k < |body| && HasDst(body[k]) && body[k].dst == r;
        assert k > 0 ==> body[1..][k - 1] == body[k];
      }
    }
  }

  /** Registers set before instruction `i` of block `b`. */
  ghost function Before(g: Gen, b: nat, i: nat): set<nat>
    requires G.WellFormed(GraphOf(g)) && b < |g.blocks| && i <= |g.blocks[b]|
  {
    S.DefinedBefore(GraphOf(g), g.blocks, b) + R.Defs(g.blocks[b][..i])
  }

  lemma UseIsBefore(g: Gen, m: Marks, b: nat, i: nat, r: nat)
    requires Sound(g, m) && G.WellFormed(GraphOf(g)) && b < |g.blocks| && i < |g.blocks[b]| && Uses(g.blocks[b][i], r)
    ensures r in Before(g, b, i)
  {
    hide Sound, G.Dominates, G.WellFormed, R.Defs, SetIn;
    UseIsDominated(g, m, b, i, r);
    DefsAre(g.blocks[b][..i], r);
    forall d: nat | d < |g.blocks| && SetIn(g.blocks[d], r)
      ensures r in R.Defs(g.blocks[d])
    {
      DefsAre(g.blocks[d], r);
    }
  }

  lemma SetOnce(g: Gen, m: Marks, b: nat, i: nat)
    requires Sound(g, m) && G.WellFormed(GraphOf(g)) && b < |g.blocks| && i < |g.blocks[b]| && HasDst(g.blocks[b][i])
    ensures g.blocks[b][i].dst !in Before(g, b, i)
  {
    hide DomOk, KindsOk, G.Dominates, G.WellFormed, R.Defs;
    var r := g.blocks[b][i].dst;
    DefsAre(g.blocks[b][..i], r);
    assert InstrSound(g.blocks, m, b, i);
    forall d: nat | d < |g.blocks| && d != b ensures r !in R.Defs(g.blocks[d]) {
      DefsAre(g.blocks[d], r);
      forall k: nat | k < |g.blocks[d]| && HasDst(g.blocks[d][k])
        ensures g.blocks[d][k].dst != r
      {
        assert InstrSound(g.blocks, m, d, k);
      }
    }
    forall k: nat | k < i && HasDst(g.blocks[b][k])
      ensures g.blocks[b][k].dst != r
    {
      assert InstrSound(g.blocks, m, b, k);
    }
  }

  lemma ValueIsNoSlot(g: Gen, m: Marks, v: Operand)
    requires Sound(g, m) && ValueKind(g.blocks, m.def, v) && v.Reg?
    ensures v.r !in SlotsOf(g.blocks)
  {
    hide Sound, SlotsOf, GepsOf;
    KindOf(g, m, v.r);
  }

  lemma AddrIsPtr(g: Gen, m: Marks, p: Operand)
    requires Sound(g, m) && AddrKind(g.blocks, m.def, p)
    ensures R.PtrOk(CtxOf(g), p)
  {
    hide Sound, SlotsOf, GepsOf;
    if p.Reg? { KindOf(g, m, p.r); }
  }

  lemma DstKind(g: Gen, m: Marks, b: nat, i: nat)
    requires Sound(g, m) && b < |g.blocks| && i < |g.blocks[b]| && HasDst(g.blocks[b][i])
    ensures var k := g.blocks[b][i]; k.dst < g.next && (k.dst in GepsOf(g.blocks) <==> k.Gep?)
                                     && (k.dst in SlotsOf(g.blocks) <==> IsSlot(k))
  {
    hide DomOk, KindsOk, SlotsOf, GepsOf;
    assert InstrSound(g.blocks, m, b, i);
    assert Setter(g.blocks, m.def, g.blocks[b][i].dst) == Some(g.blocks[b][i]);
    KindOf(g, m, g.blocks[b][i].dst);
  }

  lemma InstrIsOk(g: Gen, m: Marks, b: nat, i: nat)
    requires Sound(g, m) && G.WellFormed(GraphOf(g)) && NoNumberIndexed(g.blocks) && b < |g.blocks| && i < |g.blocks[b]|
    ensures R.InstrOk(CtxOf(g), Before(g, b, i), g.blocks[b][i])
  {
    var k := g.blocks[b][i];
    assert KindsOk(g.blocks, m.def, k) by { assert InstrSound(g.blocks, m, b, i); }
    hide Sound, SlotsOf, GepsOf, Before, G.WellFormed, AddrKind, ValueKind, R.PtrOk;
    forall r {:trigger Uses(k, r)} | Uses(k, r) ensures r in Before(g, b, i) { UseIsBefore(g, m, b, i, r); }
    if HasDst(k) {
      SetOnce(g, m, b, i);
      DstKind(g, m, b, i);
    }
    forall v | ValueKind(g.blocks, m.def, v) && v.Reg? ensures v.r !in SlotsOf(g.blocks) { ValueIsNoSlot(g, m, v); }
    forall p | AddrKind(g.blocks, m.def, p) ensures R.PtrOk(CtxOf(g), p) { AddrIsPtr(g, m, p); }
  }

  lemma {:induction false} BodyIsOk(g: Gen, m: Marks, b: nat, i: nat)
    requires Sound(g, m) && Cfg(g) && G.WellFormed(GraphOf(g)) && NoNumberIndexed(g.blocks) && b < |g.blocks|
             && i <= |g.blocks[b]|
    ensures R.BodyOk(CtxOf(g), Before(g, b, i), g.blocks[b][i..])
    decreases |g.blocks[b]| - i
  {
    hide Sound, G.WellFormed, NoNumberIndexed, R.InstrOk, CtxOf, S.DefinedBefore;
    var body := g.blocks[b];
    if i < |body| {
      assert BlockOk(g, b);
      InstrIsOk(g, m, b, i);
      BodyIsOk(g, m, b, i + 1);
      assert body[i..][1..] == body[i + 1..];
      DefsSnoc(body, i);
      assert R.Plus(Before(g, b, i), body[i]) == Before(g, b, i + 1);
    }
  }

  lemma DefsSnoc(body: seq<Instr>, i: nat)
    requires i < |body|
    ensures R.Defs(body[..i + 1]) == R.Plus(R.Defs(body[..i]), body[i])
  {
    hide R.Defs;
    forall r: nat ensures r in R.Defs(body[..i + 1]) <==> r in R.Plus(R.Defs(body[..i]), body[i]) {
      DefsAre(body[..i + 1], r);
      DefsAre(body[..i], r);
      if SetIn(body[..i], r) {
        var k :| 0 <= k < |body[..i]| && HasDst(body[..i][k]) && body[..i][k].dst == r;
        assert body[..i + 1][k] == body[..i][k];
      }
      assert body[..i + 1][i] == body[i];
    }
  }

  /** Generated code is in the form SSA construction asks for if and only if the dominator analysis ends on
      it and no number variable is indexed. */
  lemma GeneratedIsOk(fd: FunDecl, names: map<string, Binding>, base: nat)
    requires GenFun(fd, names, base).Some? && NamesOk(names) && OwnSitesOf(fd, base)
    ensures var g := GenFun(fd, names, base).value;
            S.FunctionOk(GraphOf(g), CtxOf(g), g.blocks) <==> NoNumberIndexed(g.blocks) && AnalysisEnds(g)
  {
    hide Sound, NoNumberIndexed, OwnSitesOf, NamesOk, S.FunctionOk, AnalysisEnds;
    var g := GenFun(fd, names, base).value;
    FunCfg(fd, names, base);
    var m := FunDefs(fd, names, base);
    hide GenFun;
    if NoNumberIndexed(g.blocks) && AnalysisEnds(g) { SoundIsOk(g, m); }
    if S.FunctionOk(GraphOf(g), CtxOf(g), g.blocks) { OkIsUnindexed(g); }
  }

  lemma OkIsUnindexed(g: Gen)
    requires S.FunctionOk(GraphOf(g), CtxOf(g), g.blocks)
    ensures NoNumberIndexed(g.blocks) && AnalysisEnds(g)
  {
    hide SlotsOf, GepsOf;
    forall b, i | 0 <= b < |g.blocks| && 0 <= i < |g.blocks[b]| && g.blocks[b][i].Gep? && g.blocks[b][i].base.Reg?
      ensures g.blocks[b][i].base.r !in SlotsOf(g.blocks)
    {
      var avail := OkAt(CtxOf(g), S.DefinedBefore(GraphOf(g), g.blocks, b), g.blocks[b], i);
      assert Uses(g.blocks[b][i], g.blocks[b][i].base.r);
    }
  }

  lemma {:induction false} OkAt(c: R.Ctx, avail: set<nat>, body: seq<Instr>, i: nat) returns (avail': set<nat>)
    requires R.BodyOk(c, avail, body) && i < |body|
    ensures R.InstrOk(c, avail', body[i])
    decreases i
  {
    avail' := avail;
    if i > 0 { avail' := OkAt(c, R.Plus(avail, body[0]), body[1..], i - 1); }
  }

  /** The graph is well formed, and no block that the entry does not reach leads to a join that it does. */
  ghost predicate AnalysisEnds(g: Gen) {
    G.WellFormed(GraphOf(g)) && S.RunnersEnd(GraphOf(g))
  }

  lemma SoundIsOk(g: Gen, m: Marks)
    requires Sound(g, m) && Cfg(g) && NoNumberIndexed(g.blocks) && AnalysisEnds(g) && g.pred[0] == []
    ensures S.FunctionOk(GraphOf(g), CtxOf(g), g.blocks)
  {
    hide Sound, NoNumberIndexed, R.Defs, R.BodyOk, S.RunnersEnd;
    forall b: nat {:trigger g.blocks[b]} | b < |g.blocks|
      ensures R.BodyOk(CtxOf(g), S.DefinedBefore(GraphOf(g), g.blocks, b), g.blocks[b])
    {
      BodyIsOk(g, m, b, 0);
      assert g.blocks[b][0..] == g.blocks[b];
      assert Before(g, b, 0) == S.DefinedBefore(GraphOf(g), g.blocks, b) by { DefsOfNone(g.blocks[b]); }
    }
    forall b, i, t | 0 <= b < |g.blocks| && 0 <= i < |g.blocks[b]| && t in Targets(g.blocks[b][i])
      ensures G.Edge(GraphOf(g), b, t)
    {
      TargetIsEdge(g, b, i, t);
    }
    forall a: nat, b: nat | a < b < |g.blocks| ensures R.Defs(g.blocks[a]) !! R.Defs(g.blocks[b]) { Apart(g, m, a, b); }
    forall r | r in SlotsOf(g.blocks) || r in GepsOf(g.blocks) ensures r < g.next { NumberedBelow(g, m, r); }
  }

  lemma DefsOfNone(body: seq<Instr>)
    ensures R.Defs(body[..0]) == {}
  {}

  lemma TargetIsEdge(g: Gen, b: nat, i: nat, t: nat)
    requires Cfg(g) && G.WellFormed(GraphOf(g)) && b < |g.blocks| && i < |g.blocks[b]| && t in Targets(g.blocks[b][i])
    ensures G.Edge(GraphOf(g), b, t)
  {
    assert BlockOk(g, b);
    assert i == |g.blocks[b]| - 1 && g.succ[b] == Targets(g.blocks[b][i]);
    assert Mirror(g, b, t);
  }

  lemma Apart(g: Gen, m: Marks, a: nat, b: nat)
    requires Sound(g, m) && a < b < |g.blocks|
    ensures R.Defs(g.blocks[a]) !! R.Defs(g.blocks[b])
  {
    hide DomOk, KindsOk, R.Defs;
    forall r | r in R.Defs(g.blocks[a]) ensures r !in R.Defs(g.blocks[b]) {
      DefsAre(g.blocks[a], r);
      DefsAre(g.blocks[b], r);
      var i: nat :| i < |g.blocks[a]| && HasDst(g.blocks[a][i]) && g.blocks[a][i].dst == r;
      assert InstrSound(g.blocks, m, a, i);
      forall j: nat | j < |g.blocks[b]| && HasDst(g.blocks[b][j])
        ensures g.blocks[b][j].dst != r
      {
        assert InstrSound(g.blocks, m, b, j);
      }
    }
  }

  lemma NumberedBelow(g: Gen, m: Marks, r: nat)
    requires Sound(g, m) && (r in SlotsOf(g.blocks) || r in GepsOf(g.blocks))
    ensures r < g.next
  {
    hide DomOk, KindsOk;
    var b: nat, i: nat :| b < |g.blocks| && i < |g.blocks[b]| && HasDst(g.blocks[b][i]) && g.blocks[b][i].dst == r;
    assert InstrSound(g.blocks, m, b, i);
  }

  // ----- the passes one after the other -----------------------------------------------------------------------

  /** A source that returns, returns the same from the SSA form of its code. */
  lemma SourceToSsa(env: Env, fd: FunDecl, vars: map<string, Var>, names: map<string, Binding>, base: nat, w: World,
                    fuel: nat, m: P.Ssa)
    returns (n: nat)
    requires GenFun(fd, names, base).Some? && GlobalsOk(vars, names) && SourceOk(fd, base)
             && ExecFun(env, fd, vars, w, fuel).Returns?
    requires P.IsSsa(m) && m.orig == GenFun(fd, names, base).value.blocks
    ensures var r := ExecFun(env, fd, vars, w, fuel); RunFunction(env, P.After(m), w, n) == Done(r.v, r.w)
  {
    hide P.IsSsa, SourceOk, GlobalsOk, RunFunction, ExecFun;
    n := CodegenPreservesMeaning(env, fd, vars, names, base, w, fuel);
    var g := GenFun(fd, names, base).value;
    assert P.Before(m) == BlocksOf(g);
    P.SsaPreservesMeaning(m, env, w, n);
  }

  lemma SsaImplements(fd: FunDecl, vars: map<string, Var>, names: map<string, Binding>, base: nat, m: P.Ssa)
    requires GenFun(fd, names, base).Some? && GlobalsOk(vars, names) && SourceOk(fd, base)
    requires P.IsSsa(m) && m.orig == GenFun(fd, names, base).value.blocks
    ensures Implements(fd, vars, P.After(m))
  {
    hide SourceOk, GlobalsOk, RunFunction, ExecFun, P.After;
    forall env, w, n {:trigger ExecFun(env, fd, vars, w, n)} | ExecFun(env, fd, vars, w, n).Returns?
      ensures exists k :: RunFunction(env, P.After(m), w, k) == Done(ExecFun(env, fd, vars, w, n).v,
                                                                     ExecFun(env, fd, vars, w, n).w)
    {
      var k := SourceToSsa(env, fd, vars, names, base, w, n, m);
      assert RunFunction(env, P.After(m), w, k) == Done(ExecFun(env, fd, vars, w, n).v, ExecFun(env, fd, vars, w, n).w);
    }
  }

  /** Code generation and SSA construction together: what comes out implements the source. */
  method Compile(fd: FunDecl, names: map<string, Binding>, base: nat)
    returns (ok: bool, blocks: seq<Block>, ghost m0: P.Ssa)
    requires GenFun(fd, names, base).Some? && NamesOk(names) && OwnSitesOf(fd, base)
    requires var g := GenFun(fd, names, base).value; NoNumberIndexed(g.blocks) && AnalysisEnds(g)
    ensures var g := GenFun(fd, names, base).value;
            && P.Input(m0) && m0.g == GraphOf(g) && m0.c == CtxOf(g) && m0.orig == g.blocks
            && (forall v: nat :: H.IsIdf(m0.f, H.StoreBlocks(m0.c, m0.orig, v), H.PhiBlocks(m0.phis, v)))
            && (O.Harmless(m0) ==> ok) && (S.StoredFirst(m0.c, m0.orig) ==> ok)
    ensures ok ==> MadeFrom(blocks, fd, names, base)
    ensures ok ==> forall vars :: GlobalsOk(vars, names) ==> Implements(fd, vars, blocks)
  {
    hide P.IsSsa, P.Input, SourceOk, GlobalsOk, RunFunction, ExecFun, S.FunctionOk, S.StoredFirst, O.Harmless, H.IsIdf,
         O.NoClash, O.Walked;
    var g := GenFun(fd, names, base).value;
    GeneratedIsOk(fd, names, base);
    OwnSitesFine(fd, base);
    ghost var m, order;
    ok, blocks, m0, m, order := S.ConstructSsa(GraphOf(g), CtxOf(g), g.blocks);
    if ok {
      assert MadeBy(blocks, g, m);
      forall vars | GlobalsOk(vars, names)
        ensures Implements(fd, vars, blocks)
      {
        SsaImplements(fd, vars, names, base, m);
      }
    }
  }

  // ----- purity in a compiled module ----------------------------------------------------------------------------

  /** The blocks are the SSA form of the code for `fd`. */
  ghost predicate MadeFrom(blocks: seq<Block>, fd: FunDecl, names: map<string, Binding>, base: nat) {
    && GenFun(fd, names, base).Some? && NamesOk(names) && OwnSitesOf(fd, base)
    && exists m :: MadeBy(blocks, GenFun(fd, names, base).value, m)
  }

  ghost predicate MadeBy(blocks: seq<Block>, g: Gen, m: P.Ssa) {
    G.WellFormed(GraphOf(g)) && S.IsSsaFormOf(GraphOf(g), CtxOf(g), g.blocks, m) && blocks == P.After(m)
  }

  /** Such blocks set every register once, and use no phi for an address unless an array is passed. */
  lemma MadeIsPlain(blocks: seq<Block>, fd: FunDecl, names: map<string, Binding>, base: nat)
    requires MadeFrom(blocks, fd, names, base)
    ensures D.UniqueDefs(blocks) && OneBlock(blocks)
    ensures F.PtrParam !in ParamsOf(fd.params) ==> U.PlainAddresses(blocks)
  {
    hide OneBlock, Sound, OwnSitesOf, NamesOk, P.Input, P.After, D.UniqueDefs, U.PlainAddresses, S.LoadsOnly;
    var g := GenFun(fd, names, base).value;
    var k := FunDefs(fd, names, base);
    hide GenFun;
    var m :| MadeBy(blocks, g, m);
    AfterUnique(g, k, m);
    InputSizes(m);
    AfterOneBlock(g, k, m);
    if F.PtrParam !in ParamsOf(fd.params) { AfterPlain(g, k, m); }
  }

  /** And they implement the source. */
  lemma MadeImplements(blocks: seq<Block>, fd: FunDecl, vars: map<string, Var>, names: map<string, Binding>, base: nat)
    requires MadeFrom(blocks, fd, names, base) && GlobalsOk(vars, names)
    ensures Implements(fd, vars, blocks)
  {
    hide GlobalsOk, OwnSitesOf, SourceOk, NamesOk, P.IsSsa, P.After, S.LoadsOnly, S.OnePairPerEdge, Implements;
    OwnSitesFine(fd, base);
    var m :| MadeBy(blocks, GenFun(fd, names, base).value, m);
    SsaImplements(fd, vars, names, base, m);
  }

  /** A declaration, or a function that code generation and SSA construction have made. */
  ghost predicate Compiled(fn: F.Function) {
    fn.blocks == []
    || exists fd, names, base :: MadeFrom(fn.blocks, fd, names, base) && fn.params == ParamsOf(fd.params)
  }

  /** Registers are set once, and unless an array is passed no address is computed by a phi. */
  ghost predicate Shaped(fn: F.Function) {
    D.UniqueDefs(fn.blocks) && OneBlock(fn.blocks) && (F.PtrParam !in fn.params ==> U.PlainAddresses(fn.blocks))
  }

  lemma CompiledIsShaped(fn: F.Function)
    requires Compiled(fn)
    ensures Shaped(fn)
  {
    hide MadeFrom;
    if fn.blocks != [] {
      var fd, names, base :| MadeFrom(fn.blocks, fd, names, base) && fn.params == ParamsOf(fd.params);
      MadeIsPlain(fn.blocks, fd, names, base);
    }
  }

  /** The functions from which no chain of calls leads to one that is impure by itself. */
  ghost function PureFuns(m: F.Module): set<nat> {
    if F.ModuleOk(m) then set f: nat | f < |m| && !F.Impure(m, f) else {}
  }

  /** In a compiled module what the analysis calls pure is pure: a call of such a function that returns
      leaves every cell and the trace as they were, and returns the same value in every other world. */
  lemma CompiledPureCall(m: F.Module, ext: Oracle, depth: nat, k: nat, fuel: nat, fn: nat, vs: seq<Value>, w1: World,
                         w2: World)
    requires forall f: nat :: f < |m| ==> Compiled(m[f])
    requires forall f: nat, g: nat {:trigger F.Calls(m, f, g)} :: f < |m| && F.Calls(m, f, g) ==> g < |m|
    requires fn < |m| && U.NoFrames(w1, depth) && U.NoFrames(w2, depth)
             && U.CallFn(m, ext, depth, k, fuel, fn, vs, w1).Some?
    ensures F.ModuleOk(m)
    ensures F.Impure(m, fn) || (var v := U.CallFn(m, ext, depth, k, fuel, fn, vs, w1).value.0;
                                U.CallFn(m, ext, depth, k, fuel, fn, vs, w1) == Some((v, w1))
                                && U.CallFn(m, ext, depth, k, fuel, fn, vs, w2) == Some((v, w2)))
  {
    hide Compiled, Shaped, U.NoFrames, U.CallFn, F.Impure;
    forall f: nat | f < |m| ensures Shaped(m[f]) { CompiledIsShaped(m[f]); }
    ShapedModule(m);
    if !F.Impure(m, fn) {
      ShapedPureSet(m);
      U.PureCall(m, ext, PureFuns(m), depth, k, fuel, fn, vs, w1, w2);
    }
  }

  lemma ShapedModule(m: F.Module)
    requires forall f: nat :: f < |m| ==> Shaped(m[f])
    requires forall f: nat, g: nat {:trigger F.Calls(m, f, g)} :: f < |m| && F.Calls(m, f, g) ==> g < |m|
    ensures F.ModuleOk(m)
  {
    hide D.UniqueDefs, U.PlainAddresses;
    forall f: nat | f < |m| ensures D.UniqueDefs(m[f].blocks) { assert Shaped(m[f]); }
  }

  /** What is not impure by the analysis gets at nothing but its own frame. */
  lemma ShapedPureSet(m: F.Module)
    requires F.ModuleOk(m) && forall f: nat :: f < |m| ==> Shaped(m[f])
    ensures U.PureSet(m, PureFuns(m))
  {
    hide D.UniqueDefs, U.PlainAddresses;
    var isPure := map f: nat | f < |m| :: !F.Impure(m, f);
    forall f: nat | f in U.PureOf(m, isPure)
      ensures U.LocalAddresses(m[f].blocks)
    {
      assert Shaped(m[f]);
      if F.TrivialImpure(m, f) { F.TrivialIsImpure(m, f); }
      U.PlainIsLocal(m[f].blocks);
    }
    U.AnalysisIsPureSet(m, isPure);
    assert U.PureOf(m, isPure) == PureFuns(m);
  }

  // ----- types of compiled code -----------------------------------------------------------------------------------

  ghost predicate AllFitting(params: seq<F.ParamType>, types: T.Types, f: seq<seq<Instr>>) {
    forall b, i {:trigger f[b][i]} :: 0 <= b < |f| && 0 <= i < |f[b]| ==> T.Fitting(params, types, f[b][i])
  }

  /** However the registers of the code may be typed, its calls pass what their callees want. */
  ghost predicate CallsFit(sigs: T.Sigs, fd: FunDecl, names: map<string, Binding>, base: nat)
    requires GenFun(fd, names, base).Some?
  {
    var f := GenFun(fd, names, base).value.blocks;
    forall types :: AllFitting(ParamsOf(fd.params), types, f) ==>
      forall b, i {:trigger f[b][i]} :: 0 <= b < |f| && 0 <= i < |f[b]| ==>
        T.CallTyped(sigs, ParamsOf(fd.params), types, f[b][i])
  }

  lemma SoundFits(g: Gen, k: Marks)
    requires Sound(g, k)
    ensures AllFitting(k.params, k.types, g.blocks)
  {
    hide DomOk, T.Fitting;
    forall b, i {:trigger g.blocks[b][i]} | 0 <= b < |g.blocks| && 0 <= i < |g.blocks[b]|
      ensures T.Fitting(k.params, k.types, g.blocks[b][i])
    {
      assert InstrSound(g.blocks, k, b, i);
    }
  }

  lemma PromotedIsVar(g: Gen, k: Marks, b: nat, i: nat)
    requires Sound(g, k) && b < |g.blocks| && i < |g.blocks[b]|
    requires R.PromotedLoad(CtxOf(g), g.blocks[b][i]) || R.PromotedStore(CtxOf(g), g.blocks[b][i])
    ensures Y.IsVar(k.types, g.blocks[b][i].ptr.r)
  {
    hide DomOk, GepsOf, SlotsOf;
    var p := g.blocks[b][i].ptr;
    assert InstrSound(g.blocks, k, b, i);
    KindOf(g, k, p.r);
    var at := k.def[p.r];
    assert InstrSound(g.blocks, k, at.0, at.1);
  }

  lemma OrigIsTyped(g: Gen, k: Marks, m: P.Ssa)
    requires Sound(g, k) && G.WellFormed(GraphOf(g)) && S.IsSsaFormOf(GraphOf(g), CtxOf(g), g.blocks, m)
    ensures Y.OrigFits(m, k.params, k.types)
  {
    hide Sound, P.IsSsa, S.LoadsOnly, S.OnePairPerEdge, GepsOf, SlotsOf, T.Fitting, H.IsIdf, Y.IsVar;
    SoundFits(g, k);
    forall b, i {:trigger m.orig[b][i]} | 0 <= b < |m.orig| && 0 <= i < |m.orig[b]|
      ensures Y.InstrFits(m.c, k.params, k.types, m.orig[b][i])
    {
      if R.PromotedLoad(m.c, m.orig[b][i]) || R.PromotedStore(m.c, m.orig[b][i]) { PromotedIsVar(g, k, b, i); }
    }
    forall r | r in k.types ensures Y.SetAt(m, r) && r < m.c.limit { TypedIsSet(g, k, m, r); }
    forall b, j {:trigger m.phis[b][j]} | 0 <= b < |m.phis| && 0 <= j < |m.phis[b]|
      ensures Y.IsVar(k.types, m.phis[b][j].lval)
    {
      PhiIsVar(g, k, m, b, j);
    }
  }

  lemma TypedIsSet(g: Gen, k: Marks, m: P.Ssa, r: nat)
    requires Sound(g, k) && m.orig == g.blocks && m.c.limit == g.next && r in k.types
    ensures Y.SetAt(m, r) && r < m.c.limit
  {
    hide InstrSound, DomOk;
    var at := k.def[r];
    assert DefAt(g.blocks, at, r);
    assert m.orig[at.0][at.1].dst == r;
  }

  lemma PhiIsVar(g: Gen, k: Marks, m: P.Ssa, b: nat, j: nat)
    requires Sound(g, k) && G.WellFormed(GraphOf(g)) && S.IsSsaFormOf(GraphOf(g), CtxOf(g), g.blocks, m)
    requires b < |m.phis| && j < |m.phis[b]|
    ensures Y.IsVar(k.types, m.phis[b][j].lval)
  {
    hide Sound, P.IsSsa, S.LoadsOnly, S.OnePairPerEdge, GepsOf, SlotsOf, H.IsIdf, Y.IsVar;
    var v := m.phis[b][j].lval;
    assert P.HasPhi(m.phis[b], v);
    assert H.IsIdf(m.f, H.StoreBlocks(m.c, m.orig, v), H.PhiBlocks(m.phis, v));
    S.PhiNeedsStore(m.f, m.c, m.orig, m.phis, b, v);
    var x: nat :| x < |m.orig| && P.HasStore(m.c, m.orig[x], v);
    var i :| i in m.orig[x] && R.PromotedStore(m.c, i) && i.ptr.r == v;
    var n: nat :| n < |m.orig[x]| && m.orig[x][n] == i;
    PromotedIsVar(g, k, x, n);
  }

  /** The SSA form of generated code is typed when its calls are. */
  lemma MadeIsTyped(sigs: T.Sigs, blocks: seq<Block>, fd: FunDecl, names: map<string, Binding>, base: nat)
    requires MadeFrom(blocks, fd, names, base) && CallsFit(sigs, fd, names, base)
    ensures exists types :: T.CodeTyped(sigs, ParamsOf(fd.params), types, blocks)
  {
    hide Sound, OwnSitesOf, NamesOk, P.After, D.UniqueDefs, S.LoadsOnly, S.OnePairPerEdge, T.CallTyped,
         T.CodeTyped, Y.OrigFits, H.IsIdf, P.Input, P.PairsFilled, P.PhisPlaced, P.BlockRenamed;
    var g := GenFun(fd, names, base).value;
    var k := FunDefs(fd, names, base);
    assert CallsFit(sigs, fd, names, base);
    hide GenFun;
    var m :| MadeBy(blocks, g, m);
    AfterUnique(g, k, m);
    InputSizes(m);
    SoundFits(g, k);
    OrigIsTyped(g, k, m);
    Y.AfterTyped(sigs, k.params, k.types, m);
    assert T.CodeTyped(sigs, ParamsOf(fd.params), Y.SsaTypes(m, k.types), blocks);
  }
}

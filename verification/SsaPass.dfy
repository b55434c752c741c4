/** SSA construction of a whole function: dominators, phis, renaming, and the end of the allocas. */
module SsaPass {
  import opened Graph
  import opened DomTree
  import opened IR
  import opened Renaming
  import opened Promotion
  import opened PhiSites
  import opened RenameSteps
  import opened RenameWalk
  import opened RenameStacks
  import opened RenameTree
  import opened RenameOrder
  import opened Mem2Reg
  import D = Dominators

  // ----- what the pass asks of a function ------------------------------------------------------------

  /** Registers defined in the blocks that strictly dominate `b`. */
  ghost function DefinedBefore(g: Graph, bodies: seq<seq<Instr>>, b: nat): set<nat>
    requires WellFormed(g)
  {
    set d: nat, r | d < |bodies| && d != b && Dominates(g, d, b) && r in Defs(bodies[d]) :: r
  }

  /** The runner loops of the dominance frontiers end (`DomTree.RunnerStops`). */
  ghost predicate RunnersEnd(g: Graph)
    requires WellFormed(g)
  {
    forall p: nat, y: nat {:trigger Edge(g, p, y)} ::
      Edge(g, p, y) && |g.pred[y]| >= 2 && Reachable(g, y) ==> Reachable(g, p)
  }

  /** The dominator analysis ends, the entry block has no predecessor, branches follow the graph, every
      register has one definition, and it dominates its uses. */
  ghost predicate FunctionOk(g: Graph, c: Ctx, bodies: seq<seq<Instr>>) {
    && WellFormed(g) && |bodies| == |g.succ| && g.pred[0] == []
    && RunnersEnd(g)
    && (forall b, i :: 0 <= b < |bodies| && 0 <= i < |bodies[b]| ==> forall t :: t in Targets(bodies[b][i]) ==>
          Edge(g, b, t))
    && (forall b: nat {:trigger bodies[b]} :: b < |bodies| ==> BodyOk(c, DefinedBefore(g, bodies, b), bodies[b]))
    && (forall a: nat, b: nat :: a < b < |bodies| ==> Defs(bodies[a]) !! Defs(bodies[b]))
    && (forall r :: r in c.scalars || r in c.geps ==> r < c.limit)
  }

  function Start(g: Graph, c: Ctx, bodies: seq<seq<Instr>>, id: map<int, nat>, l: Links, f: map<int, set<nat>>,
                 phis: seq<seq<Phi>>): Ssa {
    Ssa(g, id, l, f, c, bodies, phis, map[], seq(|bodies|, _ => map[]), seq(|bodies|, _ => map[]))
  }

  lemma {:induction false} BodyOkGrows(c: Ctx, avail: set<nat>, avail': set<nat>, body: seq<Instr>)
    requires BodyOk(c, avail, body) && avail <= avail' && forall r :: r in avail' && r !in avail ==> r >= c.limit
    ensures BodyOk(c, avail', body)
    decreases body
  {
    if body != [] { BodyOkGrows(c, Plus(avail, body[0]), Plus(avail', body[0]), body[1..]); }
  }

  /** What dominates the start of a block is defined in its strict dominators, or is a phi. */
  lemma AvailIs(m: Ssa, b: nat)
    requires WellFormed(m.g) && IsDomTree(m.g, m.id, m.l) && |m.orig| == |m.phis| == |m.g.succ| && b < |m.orig|
             && b in m.l.known
    requires forall x, k :: 0 <= x < |m.phis| && 0 <= k < |m.phis[x]| ==> m.c.limit <= m.phis[x][k].dst
    ensures DefinedBefore(m.g, m.orig, b) <= AvailIn(m, b) + PhiDsts(m.phis[b])
    ensures forall r :: r in AvailIn(m, b) + PhiDsts(m.phis[b]) && r !in DefinedBefore(m.g, m.orig, b) ==>
              r >= m.c.limit
  {
    ChainIds(m.id, m.l, b);
    forall r | r in DefinedBefore(m.g, m.orig, b) ensures r in AvailIn(m, b) {
      var d: nat :| d < |m.orig| && d != b && Dominates(m.g, d, b) && r in Defs(m.orig[d]);
      assert d in Chain(m.id, m.l, b);
      AvailGrows(m, d, m.l.to[b]);
      assert r in AvailOut(m, d);
    }
    forall r | r in AvailIn(m, b) && r < m.c.limit ensures r in DefinedBefore(m.g, m.orig, b) {
      var d := AvailFrom(m, r, m.l.to[b]);
      ChainIds(m.id, m.l, m.l.to[b]);
      assert d in Chain(m.id, m.l, b) && r in Defs(m.orig[d]);
    }
  }

  /** Then blocks that the entry does not reach lead to no others. */
  lemma ReachedFromReached(g: Graph, p: nat, y: nat)
    requires WellFormed(g) && RunnersEnd(g) && g.pred[0] == [] && Edge(g, p, y) && Reachable(g, y)
    ensures Reachable(g, p)
  {
    var w :| PathTo(g, w, y);
    assert y != 0 && |w| > 1;
    var q := w[|w| - 2];
    assert PathTo(g, w[..|w| - 1], q) && Reachable(g, q) && q in g.pred[y];
    if |g.pred[y]| < 2 { assert |g.pred[y]| == 1 && q == g.pred[y][0] == p; }
  }

  lemma InputStart(m: Ssa, next: nat)
    requires FunctionOk(m.g, m.c, m.orig) && IsDomTree(m.g, m.id, m.l) && IsFrontier(m.g, m.id, m.l, m.f)
    requires |m.phis| == |m.orig| && FreshPhis(m.phis, m.c.limit, next) && OnePhiEach(m.phis) && m.S == map[]
    ensures Input(m)
  {
    hide IsFrontier;
    forall b: nat | Live(m, b) ensures BodyOk(m.c, AvailIn(m, b) + PhiDsts(m.phis[b]), m.orig[b]) {
      var _ := m.orig[b];
      AvailIs(m, b);
      BodyOkGrows(m.c, DefinedBefore(m.g, m.orig, b), AvailIn(m, b) + PhiDsts(m.phis[b]), m.orig[b]);
    }
    forall b: nat, r | b < |m.orig| && r in Defs(m.orig[b]) ensures r < m.c.limit {
      var _ := m.orig[b];
      DefsFresh(m.c, DefinedBefore(m.g, m.orig, b), m.orig[b]);
    }
    forall p: nat, y: nat {:trigger Edge(m.g, p, y)} | Edge(m.g, p, y) && y in m.l.known ensures p in m.l.known {
      ReachedFromReached(m.g, p, y);
    }
    UniqueStart(m, next);
  }

  lemma UniqueStart(m: Ssa, next: nat)
    requires FunctionOk(m.g, m.c, m.orig)
    requires |m.phis| == |m.orig| && FreshPhis(m.phis, m.c.limit, next) && OnePhiEach(m.phis) && m.S == map[]
    ensures DefsUnique(m)
  {
    forall a, b {:trigger BlockDefs(m, a), BlockDefs(m, b)} | 0 <= a < |m.orig| && 0 <= b < |m.orig| && a != b
      ensures BlockDefs(m, a) !! BlockDefs(m, b)
    {
      var _, _ := m.orig[a], m.orig[b];
      DefsFresh(m.c, DefinedBefore(m.g, m.orig, a), m.orig[a]);
      DefsFresh(m.c, DefinedBefore(m.g, m.orig, b), m.orig[b]);
      assert Defs(m.orig[a]) !! Defs(m.orig[b]);
      assert PhiDsts(m.phis[a]) !! PhiDsts(m.phis[b]);
    }
  }

  function StartWalk(m: Ssa): Walk {
    Walk(m.orig, m.phis, map[], map[], m.tin, m.tout, {}, {})
  }

  lemma {:induction false} SubstAllNothing(os: seq<Operand>)
    ensures SubstAll(map[], os) == os
  {
    if os != [] { SubstAllNothing(os[1..]); }
  }

  lemma {:induction false} SubstNothing(body: seq<Instr>)
    ensures SubstBody(map[], body) == body
  {
    if body != [] {
      SubstNothing(body[1..]);
      match body[0]
      case Gep(_, _, xs) => SubstAllNothing(xs);
      case Call(_, _, xs) => SubstAllNothing(xs);
      case _ =>
    }
  }

  lemma EntryLive(m: Ssa)
    requires Input(m)
    ensures Live(m, 0)
  {}

  lemma WalkStarts(m: Ssa)
    requires Input(m) && m.S == map[] && |m.tin| == |m.tout| == |m.orig|
    requires forall b, k :: 0 <= b < |m.phis| && 0 <= k < |m.phis[b]| ==> m.phis[b][k].pairs == []
    ensures Ready(m, StartWalk(m), 0)
  {
    hide IsDomTree, IsFrontier, DefsUnique, BodyOk;
    EntryLive(m);
    var w := StartWalk(m);
    forall b {:trigger w.body[b]} | 0 <= b < |m.orig|
      ensures BodyIs(m.c, w.S, m.orig[b], b in w.fin, w.body[b])
    {
      SubstNothing(m.orig[b]);
    }
    forall p: nat, b: nat, k: nat {:trigger PairsOk(m, w, p, b, k)} | p < |m.orig| && b < |m.orig| && k < |w.phis[b]|
      ensures PairsOk(m, w, p, b, k)
    {
      assert w.phis[b][k].pairs == [];
    }
    forall b: nat, r {:trigger ToCome(m, w, {}, b, r)} | ToCome(m, w, {}, b, r) ensures Untouched(w, r) {}
    assert TopsOf(map[]) == map[];
  }

  /** The iterated frontier is what renaming needs. */
  lemma IdfPlaces(m: Ssa)
    requires |m.orig| == |m.phis| && forall v: nat :: IsIdf(m.f, StoreBlocks(m.c, m.orig, v), PhiBlocks(m.phis, v))
    ensures PhisPlaced(m)
  {
    forall x: nat, y: nat, v: nat {:trigger InMap(m.f, x, y), HasPhi(m.phis[y], v)} |
      Live(m, x) && Live(m, y) && InMap(m.f, x, y) && (HasStore(m.c, m.orig[x], v) || HasPhi(m.phis[x], v))
      ensures HasPhi(m.phis[y], v)
    {
      assert IsIdf(m.f, StoreBlocks(m.c, m.orig, v), PhiBlocks(m.phis, v));
      assert x in StoreBlocks(m.c, m.orig, v) || x in PhiBlocks(m.phis, v);
      assert y in PhiBlocks(m.phis, v);
    }
  }

  // ----- functions on which the walk never stops -----------------------------------------------------

  /** Every variable that is stored anywhere is stored in the entry block, before it is loaded there. */
  ghost predicate StoredFirst(c: Ctx, bodies: seq<seq<Instr>>) {
    && |bodies| > 0
    && (forall b, v: nat {:trigger HasStore(c, bodies[b], v)} :: 0 <= b < |bodies| && HasStore(c, bodies[b], v) ==>
          HasStore(c, bodies[0], v))
    && (forall i :: 0 <= i < |bodies[0]| && PromotedLoad(c, bodies[0][i]) ==>
          HasStore(c, bodies[0][..i], bodies[0][i].ptr.r))
  }

  /** Only variables that are stored somewhere get phis. */
  lemma PhiNeedsStore(f: map<int, set<nat>>, c: Ctx, bodies: seq<seq<Instr>>, phis: seq<seq<Phi>>, b: nat, v: nat)
    requires IsIdf(f, StoreBlocks(c, bodies, v), PhiBlocks(phis, v)) && b < |phis| && HasPhi(phis[b], v)
    ensures exists x: nat :: x < |bodies| && HasStore(c, bodies[x], v)
  {
    assert ClosedDF(f, {}, {});
    assert b in PhiBlocks(phis, v) && StoreBlocks(c, bodies, v) != {};
    var x :| x in StoreBlocks(c, bodies, v);
  }

  lemma EntryStores(m: Ssa, x: nat, v: nat)
    requires |m.orig| == |m.phis| && x < |m.orig| && StoredFirst(m.c, m.orig) && Defines(m, x, v)
    requires IsIdf(m.f, StoreBlocks(m.c, m.orig, v), PhiBlocks(m.phis, v))
    ensures HasStore(m.c, m.orig[0], v)
  {
    if HasPhi(m.phis[x], v) { PhiNeedsStore(m.f, m.c, m.orig, m.phis, x, v); }
  }

  lemma EntryOnChain(m: Ssa, b: nat, v: nat)
    requires Input(m) && Live(m, b) && HasStore(m.c, m.orig[0], v)
    ensures DefinedOn(m, b, v) && (b != 0 ==> DefinedAbove(m, b, v))
  {
    hide IsFrontier, DefsUnique, BodyOk, HasStore, Dominates;
    ChainIds(m.id, m.l, b);
    assert Defines(m, 0, v);
    if b != 0 { ChainIds(m.id, m.l, m.l.to[b]); }
  }

  lemma NeverBare(m: Ssa, b: nat, v: nat)
    requires Input(m) && Live(m, b) && StoredFirst(m.c, m.orig) && HasStore(m.c, m.orig[0], v)
    ensures !BareLoad(m, b, v) && !BarePhi(m, b, v)
  {
    hide Input, DefinedOn, DefinedAbove;
    EntryOnChain(m, b, v);
    if b == 0 {
      forall i | 0 <= i < |m.orig[0]| ensures !LoadsBare(m, 0, v, i) {
        var l := m.orig[0][i];
        assert PromotedLoad(m.c, l) ==> HasStore(m.c, m.orig[0][..i], l.ptr.r);
      }
    }
  }

  lemma StoredFirstHarmless(m: Ssa)
    requires Input(m) && StoredFirst(m.c, m.orig)
    requires forall v: nat :: IsIdf(m.f, StoreBlocks(m.c, m.orig, v), PhiBlocks(m.phis, v))
    ensures Harmless(m)
  {
    hide IsFrontier, DefsUnique, BodyOk, BareLoad, BarePhi, IsDomTree;
    forall b: nat, v: nat, x: nat {:trigger BareUse(m, b, v), Defines(m, x, v)} |
      Live(m, b) && Live(m, x) && Defines(m, x, v)
      ensures !BareUse(m, b, v)
    {
      EntryStores(m, x, v);
      NeverBare(m, b, v);
    }
  }

  // ----- the pass --------------------------------------------------------------------------------------

  /** `m` is the SSA form that the pass makes of the function. */
  ghost predicate IsSsaFormOf(g: Graph, c: Ctx, bodies: seq<seq<Instr>>, m: Ssa) {
    && IsSsa(m) && m.g == g && m.c == c && m.orig == bodies && OnePairPerEdge(m) && LoadsOnly(m)
    && forall v: nat :: IsIdf(m.f, StoreBlocks(c, bodies, v), PhiBlocks(m.phis, v))
  }

  /** Only loads of promoted variables are replaced, in blocks that the entry reaches. */
  ghost predicate LoadsOnly(m: Ssa) {
    && (forall b, k {:trigger m.orig[b][k]} :: 0 <= b < |m.orig| && 0 <= k < |m.orig[b]| ==>
      HasDst(m.orig[b][k]) && !(Live(m, b) && PromotedLoad(m.c, m.orig[b][k])) ==> m.orig[b][k].dst !in m.S)
    && (forall r :: r in m.S ==> r !in m.c.geps && r !in m.c.scalars)
  }

  /** A phi has one pair for each edge from a block that has a value for its variable, and no other. */
  ghost predicate OnePairPerEdge(m: Ssa) {
    && |m.phis| == |m.tout| == |m.orig| == |m.g.succ|
    && forall p: nat, b: nat, k: nat {:trigger PairsFrom(m.phis[b][k].pairs, p)} ::
      p < |m.orig| && b < |m.orig| && k < |m.phis[b]| ==>
        PairsFrom(m.phis[b][k].pairs, p)
        == if p in m.l.known && m.phis[b][k].lval in m.tout[p] then Occurs(m.g.succ[p], b) else 0
  }

  lemma ResultOnePair(m: Ssa, w: Walk)
    requires Inv(m, w, {}) && forall b: nat :: b in w.vis <==> Live(m, b)
    ensures OnePairPerEdge(Result(m, w))
  {
    var m' := Result(m, w);
    forall p: nat, b: nat, k: nat {:trigger PairsFrom(m'.phis[b][k].pairs, p)} |
      p < |m.orig| && b < |m.orig| && k < |m'.phis[b]|
      ensures PairsFrom(m'.phis[b][k].pairs, p)
              == if p in m'.l.known && m'.phis[b][k].lval in m'.tout[p] then Occurs(m.g.succ[p], b) else 0
    {
      assert PairsOk(m, w, p, b, k) && (p in w.vis <==> Live(m, p));
    }
  }

  /** With every variable stored in the entry block first, every block has a value for it. */
  lemma {:induction false} HasValueOut(m: Ssa, b: nat, v: nat)
    requires IsSsa(m) && Linked(m.id, m.l) && b < |m.orig| && b in m.l.known && HasStore(m.c, m.orig[0], v)
    ensures v in m.tout[b]
    decreases m.id[0] - m.id[b]
  {
    hide IsDomTree, IsFrontier, DefsUnique, BodyOk, PhisPlaced, PairsFilled;
    InTreeOk(m, b);
    if b != 0 { InTreeOk(m, m.l.to[b]); }
    assert BlockRenamed(m, b);
    TopsKeys(m.c, m.S, m.tin[b], m.orig[b], v);
    if b != 0 {
      HasValueOut(m, m.l.to[b], v);
      PhiTopsKeys(m.tout[m.l.to[b]], m.phis[b], v);
    }
  }

  /** Then every phi ends with exactly one pair for every edge into its block. */
  lemma PhisComplete(g: Graph, c: Ctx, bodies: seq<seq<Instr>>, m: Ssa, p: nat, b: nat, k: nat)
    requires IsSsaFormOf(g, c, bodies, m) && StoredFirst(c, bodies) && WellFormed(g) && Reachable(g, p)
             && b < |bodies| && k < |m.phis[b]|
    ensures p < |g.succ| && PairsFrom(m.phis[b][k].pairs, p) == Occurs(g.succ[p], b)
  {
    ReachedInside(g, p);
    assert Live(m, p);
    var v := m.phis[b][k].lval;
    assert HasPhi(m.phis[b], v);
    PhiNeedsStore(m.f, c, bodies, m.phis, b, v);
    InTreeOk(m, p);
    HasValueOut(m, p, v);
  }

  lemma ReachedInside(g: Graph, b: nat)
    requires WellFormed(g) && Reachable(g, b)
    ensures b < |g.succ|
  {
    var w :| PathTo(g, w, b);
    PathInRange(g, w, b);
  }

  lemma ShapeKeepsPhiBlocks(m: Ssa, w: Walk, v: nat)
    requires Sized(m, w)
    ensures PhiBlocks(w.phis, v) == PhiBlocks(m.phis, v)
  {
    forall b: nat | b < |m.phis|
      ensures HasPhi(w.phis[b], v) <==> HasPhi(m.phis[b], v)
    {
      PhiDstsShape(m.phis[b], w.phis[b]);
    }
  }

  lemma {:induction false} StaysAt(c: Ctx, S: Tops, t: Tops, body: seq<Instr>, k: nat)
    requires LoadsOk(c, S, t, body) && k < |body| && HasDst(body[k]) && !PromotedLoad(c, body[k])
    ensures body[k].dst !in S
    decreases k
  {
    if k > 0 { StaysAt(c, S, TopsStep(c, S, t, body[0]), body[1..], k - 1); }
  }

  lemma {:induction false} DefAt(body: seq<Instr>, k: nat)
    requires k < |body| && HasDst(body[k])
    ensures body[k].dst in Defs(body)
    decreases k
  {
    if k > 0 { DefAt(body[1..], k - 1); }
  }

  lemma ReplacedAre(m: Ssa, w: Walk)
    requires Inv(m, w, {})
    ensures forall r :: r in w.S ==> r !in m.c.geps && r !in m.c.scalars
  {
    hide Input, AllPairs, AllRenamed, AllUntouched, UpClosed;
  }

  lemma ResultLoads(m: Ssa, w: Walk)
    requires Inv(m, w, {}) && forall b: nat :: Live(m, b) ==> b in w.vis
    ensures LoadsOnly(Result(m, w))
  {
    hide Input, Bodies, AllPairs, Untouched, Defs, LoadsOk;
    ReplacedAre(m, w);
    forall b, k {:trigger m.orig[b][k]} | 0 <= b < |m.orig| && 0 <= k < |m.orig[b]| && HasDst(m.orig[b][k])
                                          && !(Live(m, b) && PromotedLoad(m.c, m.orig[b][k]))
      ensures m.orig[b][k].dst !in w.S
    {
      if Live(m, b) {
        assert RenamedAt(m, w, b);
        StaysAt(m.c, w.S, w.tin[b], m.orig[b], k);
      } else {
        DefAt(m.orig[b], k);
        assert ToCome(m, w, {}, b, m.orig[b][k].dst);
        ToComeStays(w, m.orig[b][k].dst);
      }
    }
  }

  lemma ToComeStays(w: Walk, r: nat)
    requires Untouched(w, r)
    ensures r !in w.S
  {}

  lemma PassEnds(m: Ssa, w: Walk)
    requires Completed(m, StartWalk(m), w, 0)
    requires forall v: nat :: IsIdf(m.f, StoreBlocks(m.c, m.orig, v), PhiBlocks(m.phis, v))
    ensures Input(m) && IsSsaFormOf(m.g, m.c, m.orig, Result(m, w)) && |w.body| == |w.phis| == |m.orig|
    ensures forall b: nat :: b < |m.orig| ==> DropAllocas(w.body[b]) == AfterBody(Result(m, w), b)
    ensures forall b: nat :: b in w.vis <==> Reachable(m.g, b)
  {
    hide BodyOk, DefsUnique, IsFrontier, Bodies, UpClosed, AllRenamed, AllPairs, AllUntouched, KeysAre, Extends, IsSsa;
    IdfPlaces(m);
    forall b: nat | Live(m, b) ensures b in Subtree(m, 0) { ChainIds(m.id, m.l, b); }
    forall b: nat | b in m.l.known ensures b < |m.orig| { ReachedInside(m.g, b); }
    WalkEnds(m, w);
    ResultOnePair(m, w);
    ResultLoads(m, w);
    forall v: nat ensures PhiBlocks(w.phis, v) == PhiBlocks(m.phis, v) { ShapeKeepsPhiBlocks(m, w, v); }
  }

  function BlocksOf(phis: seq<seq<Phi>>, bodies: seq<seq<Instr>>): seq<Block>
    requires |phis| == |bodies|
  {
    seq(|phis|, b requires 0 <= b < |phis| => Block(phis[b], bodies[b]))
  }

  lemma BlocksAre(m: Ssa, w: Walk, bodies: seq<seq<Instr>>)
    requires |w.phis| == |bodies| == |m.orig| == |m.phis|
    requires forall b: nat :: b < |m.orig| ==> bodies[b] == AfterBody(Result(m, w), b)
    ensures BlocksOf(w.phis, bodies) == After(Result(m, w))
  {}

  lemma SetupStart(m: Ssa, children: map<int, set<nat>>)
    requires Input(m) && forall b, x: nat :: InMap(children, b, x) <==> x < |m.g.succ| && IdomOf(m.l, x) == b && b != x
    ensures ChildrenAre(m, children)
  {}

  lemma SamePreserved(g: Graph, c: Ctx, bodies: seq<seq<Instr>>, m0: Ssa, m: Ssa)
    requires IsSsaFormOf(g, c, bodies, m) && m0.orig == bodies
    ensures |m.orig| == |m.phis|
    ensures forall env, w, fuel {:trigger RunFunction(env, After(m), w, fuel)} ::
              RunFunction(env, Before(m0), w, fuel).Done? ==>
              RunFunction(env, After(m), w, fuel) == RunFunction(env, Before(m0), w, fuel)
  {
    assert Before(m0) == Before(m);
    forall env, w, fuel {:trigger RunFunction(env, After(m), w, fuel)} | RunFunction(env, Before(m), w, fuel).Done?
      ensures RunFunction(env, After(m), w, fuel) == RunFunction(env, Before(m), w, fuel)
    {
      SsaPreservesMeaning(m, env, w, fuel);
    }
  }

  /** No alloca of an int or a float is left, and every other alloca is. */
  ghost predicate Cleared(c: Ctx, bodies: seq<seq<Instr>>, blocks: seq<Block>) {
    && |blocks| == |bodies|
    && forall b: nat, i: Instr :: 0 <= b < |blocks| && i.Alloca? ==>
         (i in blocks[b].body <==> i in bodies[b] && !i.ty.IntSlot? && !i.ty.FloatSlot?)
  }

  /** In a block that is reached, no store to a variable is left, nor a load that was replaced, and every other
      instruction but the allocas is there, with its operands replaced. */
  ghost predicate VariablesGone(c: Ctx, bodies: seq<seq<Instr>>, blocks: seq<Block>, S: Tops, b: nat) {
    && b < |bodies| == |blocks|
    && (forall i :: i in blocks[b].body ==> !VarStore(c, i) && !(i.Load? && i.dst in S))
    && (forall k {:trigger bodies[b][k]} :: 0 <= k < |bodies[b]| && !bodies[b][k].Alloca? ==>
          VarStore(c, bodies[b][k]) || (bodies[b][k].Load? && bodies[b][k].dst in S)
          || SubstInstr(S, bodies[b][k]) in blocks[b].body)
  }

  lemma AfterIsCleared(g: Graph, c: Ctx, bodies: seq<seq<Instr>>, m: Ssa)
    requires IsSsaFormOf(g, c, bodies, m)
    ensures |m.orig| == |m.phis| && Cleared(c, bodies, After(m))
  {
    hide BodyOk, IsDomTree, IsFrontier, DefsUnique, PhisPlaced, PairsFilled, BlockRenamed, IsIdf, OnePairPerEdge;
    forall b: nat, i: Instr | 0 <= b < |bodies| && i.Alloca?
      ensures i in After(m)[b].body <==> i in bodies[b] && !i.ty.IntSlot? && !i.ty.FloatSlot?
    {
      AllocaStays(m, b, i);
    }
  }

  lemma AllocaStays(m: Ssa, b: nat, i: Instr)
    requires b < |m.orig| && i.Alloca?
    ensures i in AfterBody(m, b) <==> i in m.orig[b] && !i.ty.IntSlot? && !i.ty.FloatSlot?
  {
    forall k | 0 <= k < |m.orig[b]| ensures SubstInstr(m.S, m.orig[b][k]) == i <==> m.orig[b][k] == i {
      AllocaOnly(m.S, m.orig[b][k], i);
    }
    RenamedIs(m.c, m.S, m.orig[b], i);
    DropAllocasIs(SubstBody(m.S, m.orig[b]));
  }

  lemma AllocaOnly(S: Tops, i: Instr, a: Instr)
    requires a.Alloca?
    ensures SubstInstr(S, i) == a <==> i == a
  {}

  lemma AfterHasNoVariables(g: Graph, c: Ctx, bodies: seq<seq<Instr>>, m: Ssa, b: nat)
    requires IsSsaFormOf(g, c, bodies, m) && Reachable(g, b) && WellFormed(g)
    ensures |m.orig| == |m.phis| && VariablesGone(c, bodies, After(m), m.S, b)
  {
    hide BodyOk, IsFrontier, DefsUnique, PhisPlaced, PairsFilled, BlockRenamed, IsIdf, OnePairPerEdge, LoadsOnly,
         Renamed, VarStore, SubstInstr;
    ReachedInside(g, b);
    assert b in m.l.known && After(m)[b].body == Renamed(c, m.S, bodies[b]);
    forall i | i in Renamed(c, m.S, bodies[b]) ensures !VarStore(c, i) && !(i.Load? && i.dst in m.S) {
      LeftInstr(m, b, i);
    }
    forall k {:trigger bodies[b][k]} | 0 <= k < |bodies[b]| && !bodies[b][k].Alloca?
      ensures VarStore(c, bodies[b][k]) || (bodies[b][k].Load? && bodies[b][k].dst in m.S)
              || SubstInstr(m.S, bodies[b][k]) in Renamed(c, m.S, bodies[b])
    {
      KeptInstr(c, m.S, bodies[b], k);
    }
  }

  lemma LeftInstr(m: Ssa, b: nat, i: Instr)
    requires LoadsOnly(m) && b < |m.orig| && i in Renamed(m.c, m.S, m.orig[b])
    ensures !VarStore(m.c, i) && !(i.Load? && i.dst in m.S)
  {
    hide LoadsOnly, Renamed, SubstInstr;
    RenamedIs(m.c, m.S, m.orig[b], i);
    var k: nat :| k < |m.orig[b]| && i == SubstInstr(m.S, m.orig[b][k])
                  && !(VarLoad(m.c, m.orig[b][k]) && m.orig[b][k].dst in m.S) && !VarStore(m.c, m.orig[b][k]);
    StaysOut(m, b, k);
  }

  lemma KeptInstr(c: Ctx, S: Tops, body: seq<Instr>, k: nat)
    requires k < |body| && !body[k].Alloca?
    ensures VarStore(c, body[k]) || (body[k].Load? && body[k].dst in S) || SubstInstr(S, body[k]) in Renamed(c, S, body)
  {
    hide Renamed, SubstInstr;
    RenamedIs(c, S, body, SubstInstr(S, body[k]));
  }

  lemma StaysOut(m: Ssa, b: nat, k: nat)
    requires LoadsOnly(m) && b < |m.orig| && k < |m.orig[b]|
    requires !(VarLoad(m.c, m.orig[b][k]) && m.orig[b][k].dst in m.S) && !VarStore(m.c, m.orig[b][k])
    ensures var i := SubstInstr(m.S, m.orig[b][k]); !VarStore(m.c, i) && !(i.Load? && i.dst in m.S)
  {}

  /** The whole pass on one function: for any order in which the children of a dominator are visited,
      it either makes the SSA form, or stops at an empty stack. It never stops on harmless functions, as
      those are that store every variable in the entry block first; on others, some order stops it
      (`RenameOrder.HarmlessIsExact`). */
  method ConstructSsa(g: Graph, c: Ctx, bodies: seq<seq<Instr>>)
    returns (ok: bool, blocks: seq<Block>, ghost m0: Ssa, ghost m: Ssa, ghost order: seq<nat>)
    requires FunctionOk(g, c, bodies)
    ensures Input(m0) && m0.g == g && m0.c == c && m0.orig == bodies
    ensures forall v: nat :: IsIdf(m0.f, StoreBlocks(c, bodies, v), PhiBlocks(m0.phis, v))
    ensures Walked(m0, order) && (ok <==> NoClash(m0, order, 0))
    ensures Harmless(m0) ==> ok
    ensures StoredFirst(c, bodies) ==> ok
    ensures ok ==> IsSsaFormOf(g, c, bodies, m) && blocks == After(m)
    ensures ok ==> Cleared(c, bodies, blocks)
    ensures ok ==> forall b: nat :: Reachable(g, b) ==> VariablesGone(c, bodies, blocks, m.S, b)
    ensures ok ==> forall b: nat :: b in order <==> Reachable(g, b)
    ensures ok ==> forall env, w, fuel {:trigger RunFunction(env, blocks, w, fuel)} ::
              RunFunction(env, Before(m0), w, fuel).Done? ==>
                     RunFunction(env, blocks, w, fuel) == RunFunction(env, Before(m0), w, fuel)
  {
    hide BodyOk, IsFrontier, Input,  OnePhiEach, IsIdf, Completed, NoClash, Ready, IsSsaFormOf, StoredFirst, IsSsa,
         Walked, Harmless,
         D.Numbered, Numbering;
    blocks := [];
    var dominators := new D.Dominators(g);
    dominators.Run();
    var inserter := new PhiInserter(c, dominators.frontier, bodies);
    inserter.GeneratePhi();
    m0 := Start(g, c, bodies, dominators.postOrderId, dominators.idom, dominators.frontier, inserter.phis);
    m := m0;
    InputStart(m0, inserter.next);
    assert FreshPhis(m0.phis, c.limit, inserter.next);
    WalkStarts(m0);
    var renamer := new Renamer(m0, g, c, dominators.children, bodies, inserter.phis);
    SetupStart(m0, dominators.children);
    assert renamer.Setup();
    WalkedStart(m0);
    assert [] + [0] == [0];
    ok := renamer.ReName(0);
    order := renamer.order;
    if StoredFirst(c, bodies) { StoredFirstHarmless(m0); }
    if Harmless(m0) { HarmlessNoClash(m0, order); }
    if ok {
      ghost var w := renamer.W();
      PassEnds(m0, w);
      m := Result(m0, w);
      assert forall b :: b in order <==> b in Members(order);
      renamer.RemoveAlloca();
      blocks := BlocksOf(renamer.phis, renamer.body);
      BlocksAre(m0, w, renamer.body);
      SamePreserved(g, c, bodies, m0, m);
      AfterIsCleared(g, c, bodies, m);
      forall b: nat | Reachable(g, b)
        ensures VariablesGone(c, bodies, blocks, m.S, b)
      {
        AfterHasNoVariables(g, c, bodies, m, b);
      }
    }
  }
}

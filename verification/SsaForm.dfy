/** What the SSA form looks like: nothing names what has been erased, and where the walk stops. */
module SsaForm {
  import opened Cfg = Graph
  import opened DomTree
  import opened IR
  import opened Renaming
  import opened Promotion
  import opened PhiSites
  import opened RenameStacks
  import opened RenameWalk
  import opened RenameTree
  import opened RenameOrder
  import opened Mem2Reg
  import opened SsaPass

  /** A register named by a surviving instruction is no replaced load, and it is no slot, unless the
      instruction is a load that has no value and stays. */
  lemma OperandsSurvive(c: Ctx, S: Tops, avail: set<nat>, i: Instr, r: nat)
    requires InstrOk(c, avail, i) && Uses(SubstInstr(S, i), r) && !PromotedStore(c, i)
    requires forall q :: q in avail && q in S ==> ClosedOp(c, S, avail, S[q])
    ensures r !in S && (r in c.scalars ==> i.Load?)
  {
    OperandsOfSubst(S, i);
    var k :| 0 <= k < |Operands(i)| && Subst(S, Operands(i)[k]) == Reg(r);
    var o := Operands(i)[k];
    if o.Reg? { assert Uses(i, o.r); }
  }

  lemma {:induction false} BodySurvives(c: Ctx, S: Tops, avail: set<nat>, t: Tops, body: seq<Instr>, i: Instr, r: nat)
    requires BodyOk(c, avail, body) && LoadsOk(c, S, t, body) && Closed(c, S, avail, t)
    requires i in Renamed(c, S, body) && Uses(i, r)
    ensures r !in S && (r in c.scalars ==> i.Load?)
    decreases body
  {
    var h := body[0];
    if !Erased(c, S, h) && i == SubstInstr(S, h) {
      OperandsSurvive(c, S, avail, h, r);
    } else {
      ClosedStep(c, S, avail, t, body);
      BodySurvives(c, S, Plus(avail, h), TopsStep(c, S, t, h), body[1..], i, r);
    }
  }

  lemma ClosedStep(c: Ctx, S: Tops, avail: set<nat>, t: Tops, body: seq<Instr>)
    requires body != [] && BodyOk(c, avail, body) && LoadsOk(c, S, t, body) && Closed(c, S, avail, t)
    ensures Closed(c, S, Plus(avail, body[0]), TopsStep(c, S, t, body[0]))
  {
    var one := [body[0]];
    assert one[1..] == [] && BodyOk(c, Plus(avail, body[0]), []);
    assert BodyOk(c, avail, one) && LoadsOk(c, S, t, one);
    ClosedAfter(c, S, avail, t, one);
    assert TopsAfter(c, S, t, one) == TopsStep(c, S, t, body[0]) by {
      assert TopsAfter(c, S, TopsStep(c, S, t, body[0]), []) == TopsStep(c, S, t, body[0]);
    }
    assert avail + Defs(one) == Plus(avail, body[0]);
  }

  /** No instruction of the SSA form names a load that was replaced; only a load without a value can
      still name a slot. */
  lemma NoDanglingUse(m: Ssa, b: nat, i: Instr, r: nat)
    requires IsSsa(m) && Live(m, b) && i in After(m)[b].body && Uses(i, r)
    ensures r !in m.S && (r in m.c.scalars ==> i.Load?)
  {
    if b != 0 { ClosedOut(m, m.l.to[b]); }
    ClosedIn(m, b);
    assert BlockRenamed(m, b) && After(m)[b].body == Renamed(m.c, m.S, m.orig[b]);
    BodySurvives(m.c, m.S, AvailIn(m, b) + PhiDsts(m.phis[b]), m.tin[b], m.orig[b], i, r);
  }

  /** A phi takes, from each predecessor, a register that survives and dominates the end of it. */
  lemma NoDanglingPhi(m: Ssa, p: nat, b: nat, k: nat, r: nat)
    requires IsSsa(m) && Edge(m.g, p, b) && p in m.l.known && k < |m.phis[b]|
             && PairFor(m.phis[b][k].pairs, p) == Some(Reg(r))
    ensures r !in m.S && r !in m.c.scalars && r in AvailOut(m, p)
  {
    ClosedOut(m, p);
    assert PairFor(m.phis[b][k].pairs, p) == TopOf(m.tout[p], m.phis[b][k].lval);
  }

  // ----- a function on which the walk stops ------------------------------------------------------------

  /** `int x; if (a) x = 1; return 0;` before SSA construction. */
  const DiamondGraph := Graph([[2, 1], [3], [3], []], [[], [0], [0], [1, 2]])

  const DiamondCode: seq<seq<Instr>> := [
    [Alloca(0, IntSlot), CondBr(Arg(0), 1, 2)],
    [Store(ConstInt(1), Reg(0)), Br(3)],
    [Br(3)],
    [Ret(Some(ConstInt(0)))]]

  const DiamondCtx := Ctx({}, {0}, 1)

  lemma DiamondEdges(a: nat, b: nat)
    ensures WellFormed(DiamondGraph)
    ensures Edge(DiamondGraph, a, b) <==> (a, b) in {(0, 1), (0, 2), (1, 3), (2, 3)}
  {
    var s, p := DiamondGraph.succ, DiamondGraph.pred;
    assert s[0] == [2, 1] && s[1] == [3] && s[2] == [3] && s[3] == [];
    assert p[0] == [] && p[1] == [0] && p[2] == [0] && p[3] == [1, 2];
  }

  /** The function meets what the pass asks of its input. */
  lemma DiamondIsFine()
    ensures FunctionOk(DiamondGraph, DiamondCtx, DiamondCode)
  {
    hide BodyOk, Reachable, Dominates, Edge, DefinedBefore, Defs;
    var g, c, code := DiamondGraph, DiamondCtx, DiamondCode;
    DiamondReach();
    DiamondDefs();
    forall b: nat, d: nat | b < 4 && d < 4
      ensures Edge(g, b, d) <==> (b, d) in {(0, 1), (0, 2), (1, 3), (2, 3)}
    {
      DiamondEdges(b, d);
    }
    forall p: nat, y: nat {:trigger Edge(g, p, y)} | Edge(g, p, y) ensures Reachable(g, p) { DiamondEdges(p, y); }
    forall b: nat {:trigger code[b]} | b < 4 ensures BodyOk(c, DefinedBefore(g, code, b), code[b]) { DiamondBody(b); }
  }

  lemma DiamondDefs()
    ensures forall a: nat, b: nat :: a < b < 4 ==> Defs(DiamondCode[a]) !! Defs(DiamondCode[b])
  {
    var code := DiamondCode;
    assert Defs(code[0]) == {0} by { assert code[0][1..] == [CondBr(Arg(0), 1, 2)] && code[0][1..][1..] == []; }
    assert Defs(code[1]) == {} by { assert code[1][1..] == [Br(3)] && code[1][1..][1..] == []; }
    assert Defs(code[2]) == {} && Defs(code[3]) == {};
  }

  lemma DiamondReach()
    ensures WellFormed(DiamondGraph)
    ensures forall b: nat :: b < 4 ==> Reachable(DiamondGraph, b) && Dominates(DiamondGraph, 0, b)
  {
    var g := DiamondGraph;
    DiamondEdges(0, 1);
    DiamondEdges(0, 2);
    DiamondEdges(1, 3);
    assert PathTo(g, [0], 0);
    ExtendPath(g, [0], 0, 1);
    ExtendPath(g, [0], 0, 2);
    ExtendPath(g, [0] + [1], 1, 3);
    forall p, b: nat | PathTo(g, p, b) ensures 0 in p { PathHasEntry(g, p, b); }
  }

  lemma {:induction false} PathHasEntry(g: Cfg.Graph, p: seq<nat>, b: nat)
    requires WellFormed(g) && PathTo(g, p, b)
    ensures 0 in p
    decreases |p|
  {
    if |p| > 1 { PathHasEntry(g, p[..|p| - 1], p[|p| - 2]); }
  }

  lemma DiamondBodyIn(b: nat, avail: set<nat>)
    requires b < 4 && (if b == 0 then avail == {} else 0 in avail)
    ensures BodyOk(DiamondCtx, avail, DiamondCode[b])
  {
    var c, body := DiamondCtx, DiamondCode[b];
    if b == 0 {
      assert body[1..] == [CondBr(Arg(0), 1, 2)] && body[1..][1..] == [];
      assert BodyOk(c, Plus(avail, body[0]), body[1..]);
    } else if b == 1 {
      assert body[1..] == [Br(3)] && body[1..][1..] == [];
      assert BodyOk(c, Plus(avail, body[0]), body[1..]);
    } else {
      assert body[1..] == [];
    }
  }

  lemma DiamondBody(b: nat)
    requires b < 4
    ensures WellFormed(DiamondGraph) && BodyOk(DiamondCtx, DefinedBefore(DiamondGraph, DiamondCode, b), DiamondCode[b])
  {
    hide BodyOk, Edge, Reachable, Dominates;
    DiamondReach();
    var avail := DefinedBefore(DiamondGraph, DiamondCode, b);
    if b == 0 {
      NothingBeforeEntry();
    } else {
      assert DiamondCode[0][1..] == [CondBr(Arg(0), 1, 2)];
      assert 0 in Defs(DiamondCode[0]) && 0 in avail;
    }
    DiamondBodyIn(b, avail);
  }

  lemma NothingBeforeEntry()
    ensures WellFormed(DiamondGraph) && DefinedBefore(DiamondGraph, DiamondCode, 0) == {}
  {
    DiamondReach();
    EntryReachable(DiamondGraph);
  }

  /** The only phi is one for slot 0 in block 3. */
  lemma DiamondPhis(m: Ssa, b: nat, v: nat)
    requires Input(m) && m.g == DiamondGraph && m.c == DiamondCtx && m.orig == DiamondCode && b < 4
    requires IsIdf(m.f, StoreBlocks(m.c, m.orig, v), PhiBlocks(m.phis, v))
    ensures HasPhi(m.phis[b], v) <==> b == 3 && v == 0
  {
    hide BodyOk, DefsUnique, IsDomTree;
    var sites, stores := PhiBlocks(m.phis, v), StoreBlocks(m.c, m.orig, v);
    assert forall x: nat :: x in stores <==> x == 1 && v == 0 by { DiamondStores(v); }
    var T: set<nat> := if v == 0 then {3} else {};
    forall x: nat, y: nat {:trigger InMap(m.f, x, y)} | (x in stores || x in T) && InMap(m.f, x, y)
      ensures y in T
    {
      DiamondFrontier(m, x, y);
    }
    assert ClosedDF(m.f, stores, T);
    assert sites <= T;
    if v == 0 {
      DiamondFrontier(m, 1, 3);
      assert InMap(m.f, 1, 3) && 1 in stores;
    }
    assert b in sites <==> HasPhi(m.phis[b], v);
  }

  lemma DiamondStores(v: nat)
    ensures forall x: nat :: x in StoreBlocks(DiamondCtx, DiamondCode, v) <==> x == 1 && v == 0
  {
    assert Store(ConstInt(1), Reg(0)) in DiamondCode[1];
    forall x: nat | x < 4 ensures HasStore(DiamondCtx, DiamondCode[x], v) <==> x == 1 && v == 0 {
      assert x == 0 || x == 1 || x == 2 || x == 3;
    }
  }

  lemma DiamondPaths()
    ensures WellFormed(DiamondGraph) && !Dominates(DiamondGraph, 1, 3) && DominatedByEntry(DiamondGraph, 2)
  {
    var g := DiamondGraph;
    DiamondEdges(0, 2);
    DiamondEdges(2, 3);
    assert PathTo(g, [0], 0);
    ExtendPath(g, [0], 0, 2);
    assert [0] + [2] == [0, 2] && [0, 2] + [3] == [0, 2, 3];
    ExtendPath(g, [0, 2], 2, 3);
  }

  lemma DiamondFrontier(m: Ssa, x: nat, y: nat)
    requires Input(m) && m.g == DiamondGraph && x < 4
    ensures InMap(m.f, x, y) ==> y == 3
    ensures x == 1 && y == 3 ==> InMap(m.f, x, y)
  {
    hide BodyOk, DefsUnique, Dominates, DominatedByEntry, Reachable, Defs, Targets;
    DiamondEdges(1, 3);
    DiamondPaths();
    DiamondReach();
    assert x in m.l.known && 1 in m.l.known && 3 in m.l.known;
    ChainIds(m.id, m.l, 3);
    ChainIds(m.id, m.l, 1);
    if x == 1 && y == 3 { assert OnRunner(m.id, m.l, 1, 1, 3); }
  }

  ghost predicate DominatedByEntry(g: Cfg.Graph, b: nat)
    requires WellFormed(g)
  {
    forall d: nat :: Dominates(g, d, b) ==> d == 0 || d == b
  }

  ghost predicate IsDiamond(m: Ssa) {
    && Input(m) && m.g == DiamondGraph && m.c == DiamondCtx && m.orig == DiamondCode
    && forall v: nat :: IsIdf(m.f, StoreBlocks(m.c, m.orig, v), PhiBlocks(m.phis, v))
  }

  lemma DiamondDefines(m: Ssa, x: nat, v: nat)
    requires IsDiamond(m) && x < 4
    ensures Defines(m, x, v) <==> v == 0 && (x == 1 || x == 3)
  {
    hide Input, IsIdf;
    assert IsIdf(m.f, StoreBlocks(m.c, m.orig, v), PhiBlocks(m.phis, v));
    DiamondPhis(m, x, v);
    DiamondStores(v);
    assert x in StoreBlocks(m.c, m.orig, v) <==> HasStore(m.c, m.orig[x], v);
  }

  /** No block on the way to block 2 defines slot 0. */
  lemma DiamondUndefined(m: Ssa, v: nat)
    requires IsDiamond(m)
    ensures Live(m, 2) && !DefinedOn(m, 2, v)
  {
    hide BodyOk, DefsUnique, IsFrontier, IsIdf, HasPhi, Defines, Dominates, IsDiamond;
    DiamondInput(m);
    DiamondPaths();
    assert Live(m, 2);
    if d: nat :| d in Chain(m.id, m.l, 2) && d < |m.orig| && Defines(m, d, v) {
      assert Dominates(m.g, d, 2);
      DiamondDefines(m, d, v);
    }
  }

  lemma DiamondPhiAfter(m: Ssa, b: nat, v: nat)
    requires IsDiamond(m) && b < 4
    ensures (exists y: nat :: Edge(m.g, b, y) && HasPhi(m.phis[y], v)) <==> v == 0 && (b == 1 || b == 2)
  {
    hide Input, HasPhi, IsIdf;
    DiamondInput(m);
    assert IsIdf(m.f, StoreBlocks(m.c, m.orig, v), PhiBlocks(m.phis, v));
    forall y: nat | y < 4 ensures HasPhi(m.phis[y], v) <==> y == 3 && v == 0 { DiamondPhis(m, y, v); }
    forall y: nat ensures Edge(m.g, b, y) <==> (b, y) in {(0, 1), (0, 2), (1, 3), (2, 3)} { DiamondEdges(b, y); }
    if v == 0 && (b == 1 || b == 2) { assert Edge(m.g, b, 3) && HasPhi(m.phis[3], v); }
  }

  lemma DiamondDefined(m: Ssa)
    requires IsDiamond(m)
    ensures Live(m, 1) && DefinedOn(m, 1, 0)
  {
    hide BodyOk, DefsUnique, IsFrontier, IsIdf, Defines, Dominates, IsDiamond;
    DiamondInput(m);
    assert Live(m, 1);
    ChainIds(m.id, m.l, 1);
    DiamondDefines(m, 1, 0);
  }

  lemma DiamondBare(m: Ssa, b: nat, v: nat)
    requires IsDiamond(m) && Live(m, b)
    ensures !BareLoad(m, b, v) && (BarePhi(m, b, v) <==> v == 0 && b == 2)
  {
    hide Input, HasPhi, Edge, IsDiamond, HasStore, DefinedOn, DefinedAbove;
    DiamondInput(m);
    DiamondPhiAfter(m, b, v);
    DiamondUndefined(m, v);
    DiamondDefined(m);
    assert forall i :: 0 <= i < |DiamondCode[b]| ==> !DiamondCode[b][i].Load?;
  }

  lemma DiamondKnown(m: Ssa, before: set<nat>, v: nat)
    requires IsDiamond(m)
    ensures Known(m, before, v) <==> v == 0 && (1 in before || 3 in before)
  {
    hide Input, IsIdf, Defines;
    DiamondInput(m);
    forall x: nat | x < 4 ensures Defines(m, x, v) <==> v == 0 && (x == 1 || x == 3) { DiamondDefines(m, x, v); }
  }

  lemma DiamondClash(m: Ssa, before: set<nat>, b: nat)
    requires IsDiamond(m) && b < 4
    ensures Clash(m, before, b) <==> b == 2 && (1 in before || 3 in before)
  {
    hide IsDiamond, Input, BareLoad, BarePhi, Known;
    DiamondInput(m);
    DiamondBare(m, b, 0);
    DiamondKnown(m, before, 0);
    if v: nat :| (BareLoad(m, b, v) || BarePhi(m, b, v)) && Known(m, before, v) {
      DiamondBare(m, b, v);
      DiamondKnown(m, before, v);
    }
  }

  /** Only the entry dominates another block. */
  lemma DiamondDominators(d: nat, b: nat)
    requires WellFormed(DiamondGraph) && b < 4 && Dominates(DiamondGraph, d, b)
    ensures d == b || d == 0
  {
    var g := DiamondGraph;
    forall x: nat, y: nat ensures Edge(g, x, y) <==> (x, y) in {(0, 1), (0, 2), (1, 3), (2, 3)} { DiamondEdges(x, y); }
    assert PathTo(g, [0], 0);
    ExtendPath(g, [0], 0, 1);
    ExtendPath(g, [0], 0, 2);
    assert [0] + [1] == [0, 1] && [0] + [2] == [0, 2];
    ExtendPath(g, [0, 1], 1, 3);
    ExtendPath(g, [0, 2], 2, 3);
    assert [0, 1] + [3] == [0, 1, 3] && [0, 2] + [3] == [0, 2, 3];
    assert b == 3 ==> d in [0, 1, 3] && d in [0, 2, 3];
  }

  lemma DiamondChains(m: Ssa, b: nat, d: nat)
    requires IsDiamond(m) && b < 4
    ensures Input(m) && |m.orig| == 4 && |m.l.to| == 4 && Live(m, b) && (b != 0 ==> m.l.to[b] == 0)
    ensures d in Chain(m.id, m.l, b) <==> d == b || d == 0
  {
    hide BodyOk, DefsUnique, IsFrontier, IsIdf, Dominates;
    DiamondInput(m);
    DiamondPaths();
    assert Live(m, b);
    ChainIds(m.id, m.l, b);
    if d in Chain(m.id, m.l, b) {
      assert Dominates(m.g, d, b);
      DiamondDominators(d, b);
    }
    if b != 0 {
      assert m.l.to[b] in m.l.known;
      var p: nat := m.l.to[b];
      ChainIds(m.id, m.l, p);
      assert p in Chain(m.id, m.l, b) && Dominates(m.g, p, b);
      DiamondDominators(p, b);
    }
  }

  /** The entry first, then the others in any order. */
  lemma DiamondWalked(m: Ssa, s: seq<nat>)
    requires IsDiamond(m) && |s| == 4 && s[0] == 0 && (forall i :: 0 <= i < 4 ==> s[i] < 4)
    requires forall i, j :: 0 <= i < j < 4 ==> s[i] != s[j]
    ensures Input(m) && Walked(m, s)
  {
    hide Input, Chain;
    DiamondInput(m);
    forall i | 0 <= i < 4 ensures Live(m, s[i]) && IdomBefore(m, s, i) {
      DiamondChains(m, s[i], 0);
      assert i > 0 ==> s[..i][0] == 0;
    }
    forall i, j | 0 <= i < j < 4 ensures LeftWhole(m, s, i, j) {
      DiamondChains(m, s[j], s[i]);
      forall x: nat | x in Subtree(m, s[i]) && s[i] != 0 ensures x in Members(s[..j]) {
        DiamondChains(m, x, s[i]);
        assert s[..j][i] == x;
      }
    }
  }

  /** Block 2 passes no value to the phi in block 3: whether that stops the walk depends on whether
      block 1, which stores the variable, was visited before it. */
  lemma DiamondDependsOnOrder(m: Ssa)
    requires IsDiamond(m)
    ensures Walked(m, [0, 1, 2, 3]) && ClashAt(m, [0, 1, 2, 3], 2)
    ensures Walked(m, [0, 2, 1, 3]) && NoClash(m, [0, 2, 1, 3], 0)
  {
    hide IsDiamond, Input, Walked, NoClash, ClashAt;
    DiamondWalked(m, [0, 1, 2, 3]);
    DiamondWalked(m, [0, 2, 1, 3]);
    DiamondOrders(m);
  }

  lemma DiamondOrders(m: Ssa)
    requires IsDiamond(m)
    ensures ClashAt(m, [0, 1, 2, 3], 2) && NoClash(m, [0, 2, 1, 3], 0)
  {
    hide IsDiamond, Input, Clash;
    DiamondInput(m);
    var stop, go := [0, 1, 2, 3], [0, 2, 1, 3];
    assert stop[..2] == [0, 1];
    DiamondClash(m, (set x | x in stop[..2]), 2);
    forall k: nat {:trigger ClashAt(m, go, k)} | k < |go| ensures !ClashAt(m, go, k) {
      assert go[..1] == [0] && go[1] == 2;
      DiamondClash(m, (set x | x in go[..k]), go[k]);
    }
  }

  lemma DiamondInput(m: Ssa)
    requires IsDiamond(m)
    ensures Input(m) && m.g == DiamondGraph && m.c == DiamondCtx && m.orig == DiamondCode && |m.phis| == 4
    ensures forall b: nat :: b < 4 ==> Live(m, b)
  {
    DiamondReach();
  }
}

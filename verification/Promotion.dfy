/** What SSA construction makes of a whole function, and why every terminating run survives it. */
module Promotion {
  import opened Graph
  import opened DomTree
  import opened IR
  import opened Renaming

  /** The input (`g`, `orig`, `c`), the dominator information about it (`id`, `l`, `f`), and the
      result: phis, replaced loads `S`, and the stack tops on entry to and exit from each block. */
  datatype Ssa = Ssa(g: Graph, id: map<int, nat>, l: Links, f: map<int, set<nat>>, c: Ctx,
                     orig: seq<seq<Instr>>, phis: seq<seq<Phi>>, S: Tops, tin: seq<Tops>, tout: seq<Tops>)

  function PhiDsts(phis: seq<Phi>): set<nat> {
    set k | 0 <= k < |phis| :: phis[k].dst
  }

  /** Registers defined in block `b`, new phis included. */
  function BlockDefs(m: Ssa, b: nat): set<nat>
    requires b < |m.orig| && b < |m.phis|
  {
    Defs(m.orig[b]) + PhiDsts(m.phis[b])
  }

  /** Registers whose definition dominates the end of block `b`. */
  ghost function AvailOut(m: Ssa, b: nat): set<nat>
    requires Linked(m.id, m.l) && b in m.l.known && |m.l.to| == |m.orig| == |m.phis|
    decreases m.id[0] - m.id[b]
  {
    BlockDefs(m, b) + if b == 0 then {} else AvailOut(m, m.l.to[b])
  }

  /** Registers whose definition dominates the start of block `b`, its phis left out. */
  ghost function AvailIn(m: Ssa, b: nat): set<nat>
    requires Linked(m.id, m.l) && b in m.l.known && |m.l.to| == |m.orig| == |m.phis|
  {
    if b == 0 then {} else AvailOut(m, m.l.to[b])
  }

  /** A function in the form the code generator leaves it, with the dominator information. Blocks that the
      entry does not reach lead to no others. */
  ghost predicate Input(m: Ssa) {
    && WellFormed(m.g) && IsDomTree(m.g, m.id, m.l) && IsFrontier(m.g, m.id, m.l, m.f)
    && |m.orig| == |m.phis| == |m.g.succ|
    && (forall p: nat, y: nat {:trigger Edge(m.g, p, y)} :: Edge(m.g, p, y) && y in m.l.known ==> p in m.l.known)
    && m.g.pred[0] == []
    && (forall b, i :: 0 <= b < |m.orig| && 0 <= i < |m.orig[b]| ==>
          forall t :: t in Targets(m.orig[b][i]) ==> Edge(m.g, b, t))
    && (forall b: nat :: Live(m, b) ==>
          BodyOk(m.c, AvailIn(m, b) + PhiDsts(m.phis[b]), m.orig[b]))
    && (forall b, r :: 0 <= b < |m.orig| && r in Defs(m.orig[b]) ==> r < m.c.limit)
    && DefsUnique(m)
  }

  ghost predicate DefsUnique(m: Ssa)
    requires |m.orig| == |m.phis|
  {
    && (forall a, b {:trigger BlockDefs(m, a), BlockDefs(m, b)} ::
          0 <= a < |m.orig| && 0 <= b < |m.orig| && a != b ==> BlockDefs(m, a) !! BlockDefs(m, b))
    && (forall b, k :: 0 <= b < |m.phis| && 0 <= k < |m.phis[b]| ==> m.c.limit <= m.phis[b][k].dst)
    && (forall b :: 0 <= b < |m.phis| ==> DistinctPhis(m.phis[b]))
    && (forall r :: r in m.c.scalars || r in m.c.geps || r in m.S ==> r < m.c.limit)
  }

  /** A block that the entry reaches. */
  predicate Live(m: Ssa, b: nat) {
    b < |m.orig| && b in m.l.known
  }

  predicate DistinctPhis(phis: seq<Phi>) {
    forall j, k :: 0 <= j < k < |phis| ==> phis[j].dst != phis[k].dst && phis[j].lval != phis[k].lval
  }

  predicate HasPhi(phis: seq<Phi>, v: nat) {
    exists k :: 0 <= k < |phis| && phis[k].lval == v
  }

  predicate HasStore(c: Ctx, body: seq<Instr>, v: nat) {
    exists i :: i in body && PromotedStore(c, i) && i.ptr.r == v
  }

  /** Phis become the newest values of their variables. */
  function PhiTops(t: Tops, phis: seq<Phi>): Tops
    decreases phis
  {
    if phis == [] then t else PhiTops(t[phis[0].lval := Reg(phis[0].dst)], phis[1..])
  }

  /** Every block that a definition of `v` reaches at its frontier has a phi for `v`. */
  ghost predicate PhisPlaced(m: Ssa)
    requires |m.orig| == |m.phis|
  {
    forall x: nat, y: nat, v: nat {:trigger InMap(m.f, x, y), HasPhi(m.phis[y], v)} ::
      Live(m, x) && Live(m, y) && InMap(m.f, x, y) && (HasStore(m.c, m.orig[x], v) || HasPhi(m.phis[x], v)) ==>
        HasPhi(m.phis[y], v)
  }

  ghost predicate BlockRenamed(m: Ssa, b: nat)
    requires |m.l.to| == |m.orig| == |m.phis| == |m.tin| == |m.tout| && b < |m.orig|
    requires b != 0 ==> 0 <= m.l.to[b] < |m.orig|
  {
    && m.tin[b] == PhiTops(if b == 0 then map[] else m.tout[m.l.to[b]], m.phis[b])
    && LoadsOk(m.c, m.S, m.tin[b], m.orig[b])
    && m.tout[b] == TopsAfter(m.c, m.S, m.tin[b], m.orig[b])
  }

  function TopOf(t: Tops, v: nat): Option<Operand> {
    if v in t then Some(t[v]) else None
  }

  /** Every phi has, for every predecessor, the newest value at the end of that predecessor. */
  ghost predicate PairsFilled(m: Ssa)
    requires WellFormed(m.g) && |m.phis| == |m.tout| == |m.g.succ|
  {
    forall p: nat, b: nat, k {:trigger Edge(m.g, p, b), m.phis[b][k]} ::
      Edge(m.g, p, b) && p in m.l.known && 0 <= k < |m.phis[b]| ==>
      PairFor(m.phis[b][k].pairs, p) == TopOf(m.tout[p], m.phis[b][k].lval)
  }

  ghost predicate IsSsa(m: Ssa) {
    && Input(m)
    && |m.tin| == |m.tout| == |m.orig|
    && (forall b: nat :: Live(m, b) ==> BlockRenamed(m, b))
    && PhisPlaced(m)
    && PairsFilled(m)
  }

  /** The function before and after. */
  function Before(m: Ssa): seq<Block> {
    seq(|m.orig|, b requires 0 <= b < |m.orig| => Block([], m.orig[b]))
  }

  function After(m: Ssa): seq<Block>
    requires |m.orig| == |m.phis|
  {
    seq(|m.orig|, b requires 0 <= b < |m.orig| => Block(m.phis[b], AfterBody(m, b)))
  }

  /** In a block that the entry does not reach, replaced loads are replaced and allocas of numbers go. */
  function AfterBody(m: Ssa, b: nat): seq<Instr>
    requires b < |m.orig|
  {
    if b in m.l.known then Renamed(m.c, m.S, m.orig[b]) else DropAllocas(SubstBody(m.S, m.orig[b]))
  }

  // ----- definitions that dominate ---------------------------------------------------------------

  lemma {:induction false} AvailGrows(m: Ssa, d: nat, b: nat)
    requires Linked(m.id, m.l) && |m.l.to| == |m.orig| == |m.phis|
    requires b in m.l.known && d in Chain(m.id, m.l, b)
    ensures d in m.l.known && AvailOut(m, d) <= AvailOut(m, b)
    decreases m.id[0] - m.id[b]
  {
    if b != 0 && d != b { AvailGrows(m, d, m.l.to[b]); }
  }

  lemma {:induction false} AvailFrom(m: Ssa, r: nat, b: nat) returns (d: nat)
    requires Linked(m.id, m.l) && |m.l.to| == |m.orig| == |m.phis|
    requires b in m.l.known && r in AvailOut(m, b)
    ensures d in Chain(m.id, m.l, b) && d < |m.orig| && r in BlockDefs(m, d)
    decreases m.id[0] - m.id[b]
  {
    if r in BlockDefs(m, b) { d := b; ChainIds(m.id, m.l, b); } else { d := AvailFrom(m, r, m.l.to[b]); }
  }

  /** Nothing defined in `b` is available before `b`. */
  lemma DefsNotBefore(m: Ssa, b: nat, r: nat)
    requires Input(m) && 0 < b && Live(m, b) && r in BlockDefs(m, b)
    ensures r !in AvailOut(m, m.l.to[b])
  {
    if r in AvailOut(m, m.l.to[b]) {
      var d := AvailFrom(m, r, m.l.to[b]);
      ChainIds(m.id, m.l, m.l.to[b]);
    }
  }

  /** What dominates the start of `b` dominates the end of each predecessor. */
  lemma AvailOnEdge(m: Ssa, p: nat, b: nat)
    requires Input(m) && Edge(m.g, p, b) && p in m.l.known && Live(m, b)
    ensures 0 < b && AvailOut(m, m.l.to[b]) <= AvailOut(m, p)
  {
    IdomOnPredChain(m.g, m.id, m.l, p, b);
    AvailGrows(m, m.l.to[b], p);
  }

  // ----- the stack tops ----------------------------------------------------------------------------

  lemma {:induction false} PhiTopsOf(t: Tops, phis: seq<Phi>, v: nat)
    requires DistinctPhis(phis)
    ensures !HasPhi(phis, v) ==> TopOf(PhiTops(t, phis), v) == TopOf(t, v)
    ensures forall k :: 0 <= k < |phis| && phis[k].lval == v ==> TopOf(PhiTops(t, phis), v) == Some(Reg(phis[k].dst))
    decreases phis
  {
    if phis != [] {
      var t1 := t[phis[0].lval := Reg(phis[0].dst)];
      PhiTopsOf(t1, phis[1..], v);
      assert forall k :: 1 <= k < |phis| ==> phis[k] == phis[1..][k - 1];
    }
  }

  lemma {:induction false} TopsWithoutStore(c: Ctx, S: Tops, t: Tops, body: seq<Instr>, v: nat)
    requires !HasStore(c, body, v)
    ensures TopOf(TopsAfter(c, S, t, body), v) == TopOf(t, v)
    decreases body
  {
    if body != [] {
      assert body[0] in body && forall i :: i in body[1..] ==> i in body;
      TopsWithoutStore(c, S, TopsStep(c, S, t, body[0]), body[1..], v);
    }
  }

  /** Between a predecessor of `b` and the immediate dominator of `b`, a variable without a phi in
      `b` keeps its newest value. */
  lemma {:induction false} NoDefsUpTo(m: Ssa, p: nat, b: nat, x: nat, v: nat)
    requires IsSsa(m) && Edge(m.g, p, b) && p in m.l.known && Live(m, b) && !HasPhi(m.phis[b], v)
    requires x in Chain(m.id, m.l, p) && x in m.l.known && m.l.to[b] in Chain(m.id, m.l, x)
    ensures TopOf(m.tout[x], v) == TopOf(m.tout[m.l.to[b]], v)
    decreases m.id[0] - m.id[x]
  {
    IdomOnPredChain(m.g, m.id, m.l, p, b);
    if x != m.l.to[b] {
      ChainIds(m.id, m.l, m.l.to[b]);
      ChainIds(m.id, m.l, x);
      assert OnRunner(m.id, m.l, x, p, b);
      FrontierIsJoin(m.g, m.id, m.l, x, p, b);
      assert Live(m, x) && InMap(m.f, x, b);
      assert BlockRenamed(m, x);
      TopsWithoutStore(m.c, m.S, m.tin[x], m.orig[x], v);
      PhiTopsOf(m.tout[m.l.to[x]], m.phis[x], v);
      ChainNested(m.id, m.l, x, p);
      ChainIds(m.id, m.l, m.l.to[x]);
      NoDefsUpTo(m, p, b, m.l.to[x], v);
    }
  }

  /** Phi placement: without a phi, the value on leaving any predecessor is the one on leaving the
      immediate dominator, which is what the renaming sees on top of the stack. */
  lemma PhiPlacement(m: Ssa, p: nat, b: nat, v: nat)
    requires IsSsa(m) && Edge(m.g, p, b) && p in m.l.known && Live(m, b) && !HasPhi(m.phis[b], v)
    ensures 0 < b && TopOf(m.tin[b], v) == TopOf(m.tout[p], v)
  {
    IdomOnPredChain(m.g, m.id, m.l, p, b);
    ChainIds(m.id, m.l, p);
    NoDefsUpTo(m, p, b, p, v);
    PhiTopsOf(m.tout[m.l.to[b]], m.phis[b], v);
    assert BlockRenamed(m, b);
  }

  // ----- what the stack tops name ------------------------------------------------------------------

  lemma {:induction false} ClosedPhis(c: Ctx, S: Tops, avail: set<nat>, t: Tops, phis: seq<Phi>)
    requires Closed(c, S, avail, t)
    requires forall k :: 0 <= k < |phis| ==> phis[k].dst in avail && phis[k].dst !in S && phis[k].dst !in c.scalars
    ensures Closed(c, S, avail, PhiTops(t, phis))
    decreases phis
  {
    if phis != [] {
      ClosedPhis(c, S, avail, t[phis[0].lval := Reg(phis[0].dst)], phis[1..]);
    }
  }

  /** On entry to a block, the newest values name only registers that dominate the block. */
  lemma ClosedIn(m: Ssa, b: nat)
    requires IsSsa(m) && Live(m, b)
    requires b != 0 ==> Closed(m.c, m.S, AvailOut(m, m.l.to[b]), m.tout[m.l.to[b]])
    ensures Closed(m.c, m.S, AvailIn(m, b) + PhiDsts(m.phis[b]), m.tin[b])
  {
    assert BlockRenamed(m, b);
    var t := if b == 0 then map[] else m.tout[m.l.to[b]];
    var avail := AvailIn(m, b) + PhiDsts(m.phis[b]);
    forall r | r in PhiDsts(m.phis[b]) ensures m.c.limit <= r {}
    assert Closed(m.c, m.S, avail, t);
    ClosedPhis(m.c, m.S, avail, t, m.phis[b]);
  }

  lemma {:induction false} ClosedOut(m: Ssa, b: nat)
    requires IsSsa(m) && b < |m.orig| && b in m.l.known
    ensures Closed(m.c, m.S, AvailOut(m, b), m.tout[b])
    decreases m.id[0] - m.id[b]
  {
    if b != 0 { ClosedOut(m, m.l.to[b]); }
    ClosedIn(m, b);
    assert BlockRenamed(m, b);
    ClosedAfter(m.c, m.S, AvailIn(m, b) + PhiDsts(m.phis[b]), m.tin[b], m.orig[b]);
    assert AvailIn(m, b) + PhiDsts(m.phis[b]) + Defs(m.orig[b]) == AvailOut(m, b);
  }

  // ----- entering a block ----------------------------------------------------------------------------

  lemma {:induction false} EnterPhisElse(env: Env, phis: seq<Phi>, from: nat, before: map<nat, Value>,
                                         regs: map<nat, Value>, r: nat)
    requires r !in PhiDsts(phis)
    ensures r in EnterPhis(env, phis, from, before, regs) <==> r in regs
    ensures r in regs ==> EnterPhis(env, phis, from, before, regs)[r] == regs[r]
    decreases phis
  {
    if phis != [] {
      assert phis[0].dst in PhiDsts(phis);
      forall x | x in PhiDsts(phis[1..]) ensures x in PhiDsts(phis) {
        var k :| 0 <= k < |phis[1..]| && phis[1..][k].dst == x;
        assert phis[k + 1].dst == x;
      }
      var regs' := match PairFor(phis[0].pairs, from)
        case None => regs - {phis[0].dst}
        case Some(o) => (match Eval(env, before, o) case None => regs - {phis[0].dst} case Some(v) =>
                         regs[phis[0].dst := v]);
      EnterPhisElse(env, phis[1..], from, before, regs', r);
    }
  }

  /** A phi whose operand on this edge has a value gets it, as it was before the edge. */
  lemma {:induction false} EnterPhisAt(env: Env, phis: seq<Phi>, from: nat, before: map<nat, Value>,
                                       regs: map<nat, Value>, k: nat, o: Operand, x: Value)
    requires DistinctPhis(phis) && k < |phis|
    requires PairFor(phis[k].pairs, from) == Some(o) && Eval(env, before, o) == Some(x)
    ensures Eval(env, EnterPhis(env, phis, from, before, regs), Reg(phis[k].dst)) == Some(x)
    decreases phis
  {
    var regs' := match PairFor(phis[0].pairs, from)
      case None => regs - {phis[0].dst}
      case Some(o) => (match Eval(env, before, o) case None => regs - {phis[0].dst} case Some(v) =>
                       regs[phis[0].dst := v]);
    if k == 0 {
      forall x | x in PhiDsts(phis[1..]) ensures x != phis[0].dst {
        var j :| 0 <= j < |phis[1..]| && phis[1..][j].dst == x;
        assert phis[j + 1].dst == x;
      }
      EnterPhisElse(env, phis[1..], from, before, regs', phis[0].dst);
    } else {
      assert forall j :: 0 <= j < |phis[1..]| ==> phis[1..][j] == phis[j + 1];
      EnterPhisAt(env, phis[1..], from, before, regs', k - 1, o, x);
    }
  }

  /** On an edge into `b`, the phis of `b` disturb nothing that dominates `b`. */
  lemma PhisKeepOperand(m: Ssa, env: Env, p: nat, b: nat, s': State, o: Operand)
    requires IsSsa(m) && Edge(m.g, p, b) && p in m.l.known && Live(m, b) && 0 < b
    requires ClosedOp(m.c, m.S, AvailOut(m, m.l.to[b]), o)
    ensures Eval(env, EnterPhis(env, m.phis[b], p, s'.regs, s'.regs), o) == Eval(env, s'.regs, o)
  {
    if o.Reg? {
      if o.r in PhiDsts(m.phis[b]) {
        assert o.r in BlockDefs(m, b);
        DefsNotBefore(m, b, o.r);
      }
      EnterPhisElse(env, m.phis[b], p, s'.regs, s'.regs, o.r);
    }
  }

  lemma SimEdgeReg(m: Ssa, env: Env, p: nat, b: nat, s: State, s': State, r: nat)
    requires IsSsa(m) && Edge(m.g, p, b) && p in m.l.known && Live(m, b)
    requires Rel(m.c, m.S, env, AvailOut(m, p), m.tout[p], s, s')
    requires r in s.regs && r in AvailIn(m, b) + PhiDsts(m.phis[b]) && r !in m.c.scalars
    ensures Eval(env, EnterPhis(env, m.phis[b], p, s'.regs, s'.regs), Subst(m.S, Reg(r))) == Some(s.regs[r])
  {
    AvailOnEdge(m, p, b);
    assert r < m.c.limit;
    assert r in AvailOut(m, m.l.to[b]);
    ClosedOut(m, m.l.to[b]);
    PhisKeepOperand(m, env, p, b, s', Subst(m.S, Reg(r)));
  }

  lemma SimEdgePhi(m: Ssa, env: Env, p: nat, b: nat, s': State, k: nat, x: Value)
    requires IsSsa(m) && Edge(m.g, p, b) && p in m.l.known && Live(m, b) && k < |m.phis[b]|
             && m.phis[b][k].lval in m.tout[p]
    requires Eval(env, s'.regs, m.tout[p][m.phis[b][k].lval]) == Some(x)
    ensures Eval(env, EnterPhis(env, m.phis[b], p, s'.regs, s'.regs), Reg(m.phis[b][k].dst)) == Some(x)
  {
    var phis := m.phis[b];
    assert PairFor(m.phis[b][k].pairs, p) == TopOf(m.tout[p], phis[k].lval);
    EnterPhisAt(env, phis, p, s'.regs, s'.regs, k, m.tout[p][phis[k].lval], x);
  }

  lemma TopsIn(m: Ssa, b: nat, v: nat)
    requires IsSsa(m) && 0 < b && Live(m, b)
    ensures !HasPhi(m.phis[b], v) ==> TopOf(m.tin[b], v) == TopOf(m.tout[m.l.to[b]], v)
    ensures forall k :: 0 <= k < |m.phis[b]| && m.phis[b][k].lval == v ==>
              TopOf(m.tin[b], v) == Some(Reg(m.phis[b][k].dst))
  {
    assert BlockRenamed(m, b);
    PhiTopsOf(m.tout[m.l.to[b]], m.phis[b], v);
  }

  lemma SimEdgeSlot(m: Ssa, env: Env, p: nat, b: nat, s': State, v: nat, x: Value)
    requires IsSsa(m) && Edge(m.g, p, b) && p in m.l.known && Live(m, b)
    requires v in m.tout[p] && Eval(env, s'.regs, m.tout[p][v]) == Some(x)
    ensures v in m.tin[b]
    ensures Eval(env, EnterPhis(env, m.phis[b], p, s'.regs, s'.regs), m.tin[b][v]) == Some(x)
  {
    AvailOnEdge(m, p, b);
    TopsIn(m, b, v);
    if HasPhi(m.phis[b], v) {
      var k :| 0 <= k < |m.phis[b]| && m.phis[b][k].lval == v;
      SimEdgePhi(m, env, p, b, s', k, x);
    } else {
      var d := m.l.to[b];
      PhiPlacement(m, p, b, v);
      ClosedOut(m, d);
      PhisKeepOperand(m, env, p, b, s', m.tout[d][v]);
    }
  }

  /** The relation at the end of `p` becomes the relation at the start of `b`. */
  lemma SimEdge(m: Ssa, env: Env, p: nat, b: nat, s: State, s': State)
    requires IsSsa(m) && Edge(m.g, p, b) && p in m.l.known && Live(m, b)
    requires Rel(m.c, m.S, env, AvailOut(m, p), m.tout[p], s, s')
    ensures Rel(m.c, m.S, env, AvailIn(m, b) + PhiDsts(m.phis[b]), m.tin[b], s,
                s'.(regs := EnterPhis(env, m.phis[b], p, s'.regs, s'.regs)))
  {
    forall r {:trigger r in s.regs} | r in s.regs && r in AvailIn(m, b) + PhiDsts(m.phis[b]) && r !in m.c.scalars
      ensures Eval(env, EnterPhis(env, m.phis[b], p, s'.regs, s'.regs), Subst(m.S, Reg(r))) == Some(s.regs[r])
    {
      SimEdgeReg(m, env, p, b, s, s', r);
    }
    forall v | v in s.slots
      ensures v in m.tin[b] && Eval(env, EnterPhis(env, m.phis[b], p, s'.regs, s'.regs), m.tin[b][v])
              == Some(s.slots[v])
    {
      SimEdgeSlot(m, env, p, b, s', v, s.slots[v]);
    }
  }

  // ----- whole runs ------------------------------------------------------------------------------------

  lemma {:induction false} GotoIsEdge(m: Ssa, env: Env, b: nat, k: nat, s: State)
    requires Input(m) && b < |m.orig| && k <= |m.orig[b]|
    ensures var n := ExecBody(env, m.orig[b][k..], s); n.Goto? ==> Edge(m.g, b, n.to)
    decreases |m.orig[b]| - k
  {
    if k < |m.orig[b]| {
      var i := m.orig[b][k];
      if IsTerminator(i) {
        assert forall t :: t in Targets(i) ==> Edge(m.g, b, t);
        if i.Br? { assert Targets(i)[0] == i.target; }
        if i.CondBr? { assert Targets(i)[0] == i.ifFalse && Targets(i)[1] == i.ifTrue; }
      } else if Step(env, i, s).Some? {
        assert m.orig[b][k..][1..] == m.orig[b][k + 1..];
        GotoIsEdge(m, env, b, k + 1, Step(env, i, s).value);
      }
    }
  }

  /** The two runs at the start of block `b`, entered from `from`. */
  ghost predicate RelAt(m: Ssa, env: Env, b: nat, from: nat, s: State, s': State) {
    && IsSsa(m) && Live(m, b)
    && Rel(m.c, m.S, env, AvailIn(m, b) + PhiDsts(m.phis[b]), m.tin[b], s,
           s'.(regs := EnterPhis(env, m.phis[b], from, s'.regs, s'.regs)))
  }

  lemma SimBlock(m: Ssa, env: Env, b: nat, from: nat, s: State, s': State) returns (n: Next, n': Next)
    requires RelAt(m, env, b, from, s, s')
    ensures n == RunBlock(env, Before(m)[b], from, s) && n' == RunBlock(env, After(m)[b], from, s')
    ensures n.Return? ==> n' == n
    ensures n.Goto? ==> n'.Goto? && n'.to == n.to && Live(m, n.to) && RelAt(m, env, n.to, b, n.s, n'.s)
  {
    var s1' := s'.(regs := EnterPhis(env, m.phis[b], from, s'.regs, s'.regs));
    var avail := AvailIn(m, b) + PhiDsts(m.phis[b]);
    if b != 0 { ClosedOut(m, m.l.to[b]); }
    ClosedIn(m, b);
    assert BlockRenamed(m, b);
    SimBody(m.c, m.S, env, avail, m.tin[b], s, s1', m.orig[b]);
    assert avail + Defs(m.orig[b]) == AvailOut(m, b);
    n := ExecBody(env, m.orig[b], s);
    assert s.(regs := s.regs) == s;
    assert AfterBody(m, b) == Renamed(m.c, m.S, m.orig[b]);
    n' := ExecBody(env, Renamed(m.c, m.S, m.orig[b]), s1');
    if n.Goto? {
      assert m.orig[b][0..] == m.orig[b];
      GotoIsEdge(m, env, b, 0, s);
      IdomOnPredChain(m.g, m.id, m.l, b, n.to);
      SimEdge(m, env, b, n.to, n.s, n'.s);
    }
  }

  /** SSA construction preserves meaning: every activation that returns still returns, through the
      same blocks, with the same value, the same memory and the same trace. */
  lemma SsaPreservesMeaning(m: Ssa, env: Env, w: World, fuel: nat)
    requires IsSsa(m)
    requires RunFunction(env, Before(m), w, fuel).Done?
    ensures RunFunction(env, After(m), w, fuel) == RunFunction(env, Before(m), w, fuel)
  {
    var R: Relation := (b: nat, from: nat, s, s') => RelAt(m, env, b, from, s, s');
    forall b: nat, from: nat, s: State, s': State | R(b, from, s, s')
      ensures Agree(env, Before(m), After(m), R, b, from, s, s')
    {
      var _, _ := SimBlock(m, env, b, from, s, s');
    }
    Lockstep(env, Before(m), After(m), R, 0, 0, State(map[], map[], w), State(map[], map[], w), fuel);
  }
}

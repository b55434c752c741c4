/** The renaming walk over a subtree of the dominator tree: what it adds, and what it gives back. */
module RenameTree {
  import opened Graph
  import opened DomTree
  import opened IR
  import opened Renaming
  import opened Promotion
  import opened RenameSteps
  import opened RenameWalk
  import opened RenameStacks

  predicate ChildOf(m: Ssa, b: nat, c: nat)
    requires |m.l.to| == |m.orig|
  {
    Live(m, c) && c != b && m.l.to[c] == b
  }

  /** The blocks that `b` dominates, without those below the children in `todo`. */
  ghost function Under(m: Ssa, b: nat, todo: set<nat>): set<nat>
    requires Input(m)
  {
    set x: nat | x < |m.orig| && x in m.l.known && b in Chain(m.id, m.l, x) && forall c :: c in todo ==>
      c !in Chain(m.id, m.l, x)
  }

  ghost function Subtree(m: Ssa, b: nat): set<nat>
    requires Input(m)
  {
    set x: nat | x < |m.orig| && x in m.l.known && b in Chain(m.id, m.l, x)
  }

  lemma UnderNone(m: Ssa, b: nat)
    requires Input(m)
    ensures Under(m, b, {}) == Subtree(m, b)
  {}

  lemma InTree(m: Ssa, b: nat)
    requires Input(m) && Live(m, b)
    ensures Linked(m.id, m.l) && b in m.l.known && |m.l.to| == |m.orig| == |m.phis| && b in Subtree(m, b)
    ensures BodyOk(m.c, AvailIn(m, b) + PhiDsts(m.phis[b]), m.orig[b])
  {
    ChainIds(m.id, m.l, b);
  }

  /** A block below `b` is `b` itself or below one of its children. */
  lemma {:induction false} BelowChild(m: Ssa, b: nat, x: nat)
    requires Input(m) && Live(m, b) && Live(m, x) && b in Chain(m.id, m.l, x)
    ensures x == b || exists c: nat :: ChildOf(m, b, c) && c in Chain(m.id, m.l, x)
    decreases m.id[0] - m.id[x]
  {
    ChainIds(m.id, m.l, x);
    if x != b {
      assert x != 0 && b in Chain(m.id, m.l, m.l.to[x]);
      ChainIds(m.id, m.l, m.l.to[x]);
      if m.l.to[x] == b {
        assert ChildOf(m, b, x) && x in Chain(m.id, m.l, x);
      } else {
        BelowChild(m, b, m.l.to[x]);
        var c: nat :| ChildOf(m, b, c) && c in Chain(m.id, m.l, m.l.to[x]);
        assert c in Chain(m.id, m.l, x);
      }
    }
  }

  lemma UnderAll(m: Ssa, b: nat, todo: set<nat>)
    requires Input(m) && Live(m, b) && forall c: nat :: c in todo <==> ChildOf(m, b, c)
    ensures Under(m, b, todo) == {b}
  {
    ChainIds(m.id, m.l, b);
    forall c | c in todo ensures c !in Chain(m.id, m.l, b) { ChildBelow(m, b, c); }
    forall x: nat | x in Under(m, b, todo) ensures x == b { BelowChild(m, b, x); }
  }

  lemma ChildBelow(m: Ssa, b: nat, c: nat)
    requires Input(m) && Live(m, b) && ChildOf(m, b, c)
    ensures c != 0 && c in m.id && b in m.id && m.id[c] < m.id[b] && Chain(m.id, m.l, c)
            == {c as int} + Chain(m.id, m.l, b) && c !in Chain(m.id, m.l, b)
    ensures b in Chain(m.id, m.l, c)
  {
    ChainIds(m.id, m.l, b);
  }

  /** No block is below two children of the same block. */
  lemma ChildrenApart(m: Ssa, b: nat, c: nat, d: nat, x: nat)
    requires Input(m) && Live(m, b) && ChildOf(m, b, c) && ChildOf(m, b, d) && Live(m, x)
    requires c in Chain(m.id, m.l, x) && d in Chain(m.id, m.l, x)
    ensures c == d
  {
    hide DefsUnique, BodyOk, IsFrontier, Dominates;
    ChildBelow(m, b, c);
    ChildBelow(m, b, d);
    ChainIds(m.id, m.l, b);
    if m.id[c] <= m.id[d] {
      ChainLinear(m.id, m.l, c, d, x);
    } else {
      ChainLinear(m.id, m.l, d, c, x);
    }
  }

  lemma UnderStep(m: Ssa, b: nat, todo: set<nat>, c: nat)
    requires Input(m) && Live(m, b) && c in todo && forall d: nat :: d in todo ==> ChildOf(m, b, d)
    ensures Under(m, b, todo - {c}) == Under(m, b, todo) + Subtree(m, c) && Under(m, b, todo) !! Subtree(m, c)
    ensures b in Under(m, b, todo)
  {
    forall d: nat | d in todo ensures d !in Chain(m.id, m.l, b) { ChildBelow(m, b, d); }
    ChainIds(m.id, m.l, b);
    ChildBelow(m, b, c);
    forall x: nat | x in Subtree(m, c) ensures x in Under(m, b, todo - {c}) {
      ChainNested(m.id, m.l, c, x);
      forall d: nat | d in todo && d in Chain(m.id, m.l, x) ensures d == c { ChildrenApart(m, b, c, d, x); }
    }
  }

  // ----- entering and leaving ----------------------------------------------------------------------

  /** The walk may rename block `bb` next. */
  ghost predicate Ready(m: Ssa, w: Walk, bb: nat) {
    && Inv(m, w, {}) && Live(m, bb) && bb !in w.vis && (bb != 0 ==> m.l.to[bb] in w.vis)
    && TopsOf(w.stacks) == TopsAbove(m, w, bb)
    && KeysAre(m, w.stacks, w.vis)
  }

  ghost predicate SameTouts(w0: Walk, w: Walk) {
    |w.tout| == |w0.tout| && forall x: nat {:trigger w.tout[x]} :: x in w0.vis && x < |w.tout| ==>
      w.tout[x] == w0.tout[x]
  }

  /** The subtree of `bb` has been renamed, every stack is as it was, older blocks are unaffected. */
  ghost predicate Completed(m: Ssa, w0: Walk, w: Walk, bb: nat) {
    && Inv(m, w, {}) && w.vis == w0.vis + Subtree(m, bb) && w.fin == w0.fin + Subtree(m, bb)
    && SameStacks(w0.stacks, w.stacks)
    && KeysAre(m, w.stacks, w.vis)
    && Extends(m, w0.S, w.S, w0.vis)
    && SameTouts(w0, w)
  }

  function PushCount(m: Ssa, bb: nat, v: nat): nat
    requires Live(m, bb) && bb < |m.phis|
  {
    PhiCount(m.phis[bb], v) + StoreCount(m.c, m.orig[bb], v)
  }

  ghost predicate StacksOver(m: Ssa, base: Stacks, st: Stacks, bb: nat)
    requires Live(m, bb) && bb < |m.phis|
  {
    forall v: nat {:trigger PushCount(m, bb, v)} :: Above(base, st, v, PushCount(m, bb, v))
  }

  /** Block `bb`, entered in state `w0`, has been renamed, and its children except those in `todo`. */
  ghost predicate Among(m: Ssa, w0: Walk, w: Walk, bb: nat, dead: set<nat>, todo: set<nat>) {
    && Inv(m, w, {}) && Live(m, bb) && bb !in w0.vis && bb !in w0.fin
    && (forall c: nat :: c in todo ==> ChildOf(m, bb, c))
    && w.vis == w0.vis + Under(m, bb, todo)
    && w.fin == w0.fin + (Under(m, bb, todo) - {bb})
    && TopsOf(w.stacks) == w.tout[bb]
    && StacksOver(m, w0.stacks, w.stacks, bb) && w0.stacks.Keys <= w.stacks.Keys
    && KeysAre(m, w.stacks, w.vis)
    && Extends(m, w0.S, w.S, w0.vis)
    && SameTouts(w0, w)
    && DeadUpTo(m, w, bb, |m.orig[bb]|, dead)
  }

  // ----- entering a block --------------------------------------------------------------------------

  lemma Enter(m: Ssa, w: Walk, bb: nat)
    requires Ready(m, w, bb)
    ensures bb < |w.phis| && bb < |w.tin|
    ensures BlockInv(m, AfterEnter(m, w, bb), AfterEnter(m, w, bb), bb, 0, {})
  {
    hide Input, Bodies, UpClosed, AllRenamed, AllPairs, AllUntouched, BlockInv, Untouched;
    var w1 := AfterEnter(m, w, bb);
    EnterBlock(m, w, bb);
    assert m.orig[bb][..0] == [];
    forall v: nat
      ensures v in w1.stacks <==> Known(m, w.vis, v) || HasPhi(m.phis[bb], v) || HasStore(m.c, m.orig[bb][..0], v)
    {
      PushPhisKeys(w.stacks, w.phis[bb], |w.phis[bb]|, v);
      assert w.phis[bb][..|w.phis[bb]|] == w.phis[bb];
      PhiDstsShape(m.phis[bb], w.phis[bb]);
    }
    assert KeysInside(m, w1.stacks, w1.vis, bb, 0);
    BlockStart(m, w1, bb);
  }

  // ----- leaving a block for its children ------------------------------------------------------------

  /** Some phi after `bb` gets no value from it, while its variable is known from elsewhere. */
  ghost predicate BarePhiIn(m: Ssa, vis: set<nat>, bb: nat) {
    Input(m) && Live(m, bb) && exists v: nat :: BarePhi(m, bb, v) && Known(m, vis, v)
  }

  ghost predicate EmptyStack(st: Stacks, v: nat) {
    v in st && st[v] == []
  }

  /** A phi of a successor of `bb` is for a variable whose stack is empty. */
  ghost predicate PhiClash(m: Ssa, w: Walk, bb: nat)
    requires WellFormed(m.g)
  {
    exists y: nat, k :: Edge(m.g, bb, y) && y < |w.phis| && 0 <= k < |w.phis[y]|
                        && EmptyStack(w.stacks, w.phis[y][k].lval)
  }

  /** At the end of the block, an empty stack is the one of a variable that no block above defines. */
  lemma EmptyAtEnd(m: Ssa, w0: Walk, w: Walk, bb: nat, dead: set<nat>, v: nat)
    requires Live(m, bb) && BlockInv(m, w0, w, bb, |m.orig[bb]|, dead)
    ensures EmptyStack(w.stacks, v) <==> !DefinedOn(m, bb, v) && Known(m, w.vis, v)
  {
    var n := |m.orig[bb]|;
    assert m.orig[bb][..n] == m.orig[bb];
    InKeys(m, w, bb, n, v);
    ChainIds(m.id, m.l, bb);
    assert DefinedOn(m, bb, v) <==> Defines(m, bb, v) || DefinedAbove(m, bb, v);
  }

  lemma PhiClashIsBarePhi(m: Ssa, w0: Walk, w: Walk, bb: nat, dead: set<nat>)
    requires Live(m, bb) && BlockInv(m, w0, w, bb, |m.orig[bb]|, dead)
    ensures WellFormed(m.g) && (PhiClash(m, w, bb) <==> BarePhiIn(m, w.vis, bb))
  {
    hide Inside, Bodies, UpClosed, AllRenamed, AllPairs, AllUntouched, KeysInside, Extends, StacksAbove, DeadUpTo,
         NoBareUpTo;
    if PhiClash(m, w, bb) {
      var y: nat, k :| Edge(m.g, bb, y) && y < |w.phis| && 0 <= k < |w.phis[y]|
          && EmptyStack(w.stacks, w.phis[y][k].lval);
      PhiDstsShape(m.phis[y], w.phis[y]);
      EmptyAtEnd(m, w0, w, bb, dead, w.phis[y][k].lval);
      assert HasPhi(w.phis[y], w.phis[y][k].lval);
      assert BarePhi(m, bb, w.phis[y][k].lval);
    }
    if BarePhiIn(m, w.vis, bb) {
      var v: nat :| BarePhi(m, bb, v) && Known(m, w.vis, v);
      EmptyAtEnd(m, w0, w, bb, dead, v);
      var y: nat :| Edge(m.g, bb, y) && HasPhi(m.phis[y], v);
      PhiDstsShape(m.phis[y], w.phis[y]);
      var k :| 0 <= k < |w.phis[y]| && w.phis[y][k].lval == v;
      assert EmptyStack(w.stacks, w.phis[y][k].lval);
    }
  }

  lemma {:induction false} PhiCountShape(p: seq<Phi>, q: seq<Phi>, v: nat)
    requires SameShape(p, q)
    ensures PhiCount(p, v) == PhiCount(q, v)
    decreases p
  {
    if p != [] {
      assert SameShape(p[1..], q[1..]);
      PhiCountShape(p[1..], q[1..], v);
    }
  }

  /** Pushes of the phis and then of the stores. */
  lemma PushedInBlock(m: Ssa, base: Stacks, phis: seq<Phi>, st: Stacks, bb: nat, v: nat)
    requires Live(m, bb) && |m.orig| == |m.phis| && SameShape(m.phis[bb], phis)
    requires StacksAbove(m, PushPhis(base, phis, |phis|), st, bb, |m.orig[bb]|)
    ensures Above(base, st, v, PushCount(m, bb, v))
  {
    assert m.orig[bb][..|m.orig[bb]|] == m.orig[bb] && phis[..|phis|] == phis;
    var mid := PushPhis(base, phis, |phis|);
    PushPhisAbove(base, phis, |phis|, v);
    PhiCountShape(m.phis[bb], phis, v);
    assert Above(mid, st, v, CountTo(m, bb, |m.orig[bb]|, v));
    AboveTrans(base, mid, st, v, PhiCount(phis, v), CountTo(m, bb, |m.orig[bb]|, v));
  }

  lemma LeaveKeys(m: Ssa, st: Stacks, vis: set<nat>, bb: nat)
    requires Input(m) && Live(m, bb) && KeysInside(m, st, vis, bb, |m.orig[bb]|)
    ensures KeysAre(m, st, vis + {bb})
  {
    assert m.orig[bb][..|m.orig[bb]|] == m.orig[bb];
    forall v: nat ensures v in st <==> Known(m, vis + {bb}, v) { KnownGrows(m, vis, bb, v); }
  }

  lemma KeysGrow(m: Ssa, st0: Stacks, vis0: set<nat>, st: Stacks, vis: set<nat>)
    requires Input(m) && KeysAre(m, st0, vis0) && KeysAre(m, st, vis) && vis0 <= vis
    ensures st0.Keys <= st.Keys
  {
    hide Input;
    forall v: nat | v in st0 ensures v in st { assert Known(m, vis0, v); assert Known(m, vis, v); }
  }

  lemma DeadSame(m: Ssa, w: Walk, w': Walk, bb: nat, i: nat, dead: set<nat>)
    requires Live(m, bb) && i <= |m.orig[bb]| && DeadUpTo(m, w, bb, i, dead) && w'.S == w.S
    ensures DeadUpTo(m, w', bb, i, dead)
  {}

  lemma Leave(m: Ssa, w0: Walk, w: Walk, bb: nat, dead: set<nat>, phis: seq<seq<Phi>>, todo: set<nat>)
    requires Ready(m, w0, bb) && bb < |w0.phis| && bb < |w0.tin|
    requires BlockInv(m, AfterEnter(m, w0, bb), w, bb, |m.orig[bb]|, dead)
    requires PairsAdded(m, w.phis, phis, TopsOf(w.stacks), bb)
    requires forall c: nat :: c in todo <==> ChildOf(m, bb, c)
    ensures bb < |w.tout| && Among(m, w0, AfterLeave(w, bb, phis), bb, dead, todo)
  {
    hide Bodies, AllRenamed, AllPairs, AllUntouched, NoBareUpTo, KeysInside, KeysAre, DeadUpTo, Extends, StacksAbove,
         PairsAdded, IsDomTree, IsFrontier, DefsUnique, BodyOk, Above, TopsOf, Under;
    LeaveBlock(m, w, bb, phis);
    UnderAll(m, bb, todo);
    assert Under(m, bb, todo) - {bb} == {};
    DeadSame(m, w, AfterLeave(w, bb, phis), bb, |m.orig[bb]|, dead);
    LeaveKeys(m, w.stacks, w.vis, bb);
    KeysGrow(m, w0.stacks, w0.vis, w.stacks, w.vis + {bb});
    var n := |w0.phis[bb]|;
    forall v: nat {:trigger PushCount(m, bb, v)} ensures Above(w0.stacks, w.stacks, v, PushCount(m, bb, v)) {
      PushedInBlock(m, w0.stacks, w0.phis[bb], w.stacks, bb, v);
    }
  }

  // ----- the children ----------------------------------------------------------------------------------

  lemma ChildReady(m: Ssa, w0: Walk, w: Walk, bb: nat, dead: set<nat>, todo: set<nat>, c: nat)
    requires Ready(m, w0, bb) && Among(m, w0, w, bb, dead, todo) && c in todo
    ensures Ready(m, w, c)
  {
    hide Bodies, AllRenamed, AllPairs, AllUntouched, KeysAre, Extends, StacksOver, DeadUpTo, SameTouts, IsDomTree,
         IsFrontier, DefsUnique, BodyOk;
    UnderStep(m, bb, todo, c);
    NotYet(m, w0.vis, bb, todo, c);
    SubsetTops(m, w, bb, c);
  }

  lemma NotYet(m: Ssa, vis: set<nat>, bb: nat, todo: set<nat>, c: nat)
    requires Input(m) && Live(m, bb) && bb !in vis && c in todo && ChildOf(m, bb, c)
    requires forall b: nat {:trigger b in vis} :: b in vis ==> Live(m, b) && Chain(m.id, m.l, b) <= vis
    ensures c !in vis + Under(m, bb, todo) && c != 0
  {
    ChildBelow(m, bb, c);
    ChainIds(m.id, m.l, c);
  }

  lemma SubsetTops(m: Ssa, w: Walk, bb: nat, c: nat)
    requires Input(m) && |w.tout| == |m.orig| && Live(m, bb) && ChildOf(m, bb, c)
    ensures TopsAbove(m, w, c) == w.tout[bb]
  {
    ChildBelow(m, bb, c);
  }

  lemma ExtendsTrans(m: Ssa, S0: Tops, S1: Tops, S2: Tops, vis0: set<nat>, vis1: set<nat>)
    requires Extends(m, S0, S1, vis0) && Extends(m, S1, S2, vis1) && vis0 <= vis1
    ensures Extends(m, S0, S2, vis0)
  {}

  lemma {:induction false} DstInDefs(body: seq<Instr>, j: nat)
    requires j < |body| && HasDst(body[j])
    ensures body[j].dst in Defs(body)
  {
    if j > 0 { DstInDefs(body[1..], j - 1); }
  }

  lemma DeadExtends(m: Ssa, w: Walk, w': Walk, bb: nat, i: nat, dead: set<nat>)
    requires Live(m, bb) && i <= |m.orig[bb]| && DeadUpTo(m, w, bb, i, dead) && Extends(m, w.S, w'.S, w.vis)
             && bb in w.vis
    ensures DeadUpTo(m, w', bb, i, dead)
  {
    forall j: nat | j < i ensures Dead(m.c, w'.S, m.orig[bb][j]) <==> Dead(m.c, w.S, m.orig[bb][j]) {
      if HasDst(m.orig[bb][j]) { DstInDefs(m.orig[bb], j); }
    }
  }

  lemma SameStacksOver(m: Ssa, base: Stacks, st: Stacks, st': Stacks, bb: nat)
    requires Live(m, bb) && bb < |m.phis| && StacksOver(m, base, st, bb) && SameStacks(st, st')
    ensures StacksOver(m, base, st', bb)
  {
    forall v: nat {:trigger PushCount(m, bb, v)} ensures Above(base, st', v, PushCount(m, bb, v)) {
      assert StackOf(st', v) == StackOf(st, v);
    }
  }

  lemma ChildDone(m: Ssa, w0: Walk, w: Walk, bb: nat, dead: set<nat>, todo: set<nat>, c: nat, w': Walk)
    requires Among(m, w0, w, bb, dead, todo) && c in todo && Completed(m, w, w', c)
    ensures Among(m, w0, w', bb, dead, todo - {c})
  {
    hide Bodies, UpClosed, AllRenamed, AllPairs, AllUntouched, KeysAre, Extends, StacksOver, DeadUpTo, IsDomTree,
         IsFrontier, DefsUnique,
         BodyOk, SameStacks, TopsOf, Under, Subtree;
    UnderStep(m, bb, todo, c);
    SameTops(w.stacks, w'.stacks);
    ExtendsTrans(m, w0.S, w.S, w'.S, w0.vis, w.vis);
    DeadExtends(m, w, w', bb, |m.orig[bb]|, dead);
    SameStacksOver(m, w0.stacks, w.stacks, w'.stacks, bb);
    KeysGrow(m, w.stacks, w.vis, w'.stacks, w'.vis);
    OutsideSubtree(m, w0, w, bb, todo, c);
  }

  lemma OutsideSubtree(m: Ssa, w0: Walk, w: Walk, bb: nat, todo: set<nat>, c: nat)
    requires Input(m) && Live(m, bb) && c in todo && forall d: nat :: d in todo ==> ChildOf(m, bb, d)
    ensures bb !in Subtree(m, c)
  {
    UnderStep(m, bb, todo, c);
  }

  // ----- giving back what was pushed -------------------------------------------------------------------

  function PendingCount(c: Ctx, phis: seq<Phi>, body: seq<Instr>, v: nat): nat {
    PhiCount(phis, v) + StoreCount(c, body, v)
  }

  /** The stacks are those of `base`, below one value for each of the phis and each of the stores. */
  ghost predicate Pending(c: Ctx, base: Stacks, st: Stacks, phis: seq<Phi>, body: seq<Instr>) {
    forall v: nat {:trigger PendingCount(c, phis, body, v)} :: Above(base, st, v, PendingCount(c, phis, body, v))
  }

  lemma PopPhi(c: Ctx, base: Stacks, st: Stacks, phis: seq<Phi>, body: seq<Instr>, k: nat)
    requires k < |phis| && Pending(c, base, st, phis[k..], body)
    ensures var v := phis[k].lval; v in st && st[v] != [] && Pending(c, base, Pop(st, v), phis[k + 1..], body)
  {
    var u := phis[k].lval;
    assert phis[k..][1..] == phis[k + 1..] && phis[k..][0] == phis[k];
    assert PendingCount(c, phis[k..], body, u) > 0 && Above(base, st, u, PendingCount(c, phis[k..], body, u));
    forall v: nat {:trigger PendingCount(c, phis[k + 1..], body, v)}
      ensures Above(base, Pop(st, u), v, PendingCount(c, phis[k + 1..], body, v))
    {
      PopAbove(base, st, u, v, PendingCount(c, phis[k..], body, v));
    }
  }

  lemma PopStore(c: Ctx, base: Stacks, st: Stacks, body: seq<Instr>, i: nat)
    requires i < |body| && Pending(c, base, st, [], body[i..])
    ensures PromotedStore(c, body[i]) ==>
              var v := body[i].ptr.r; v in st && st[v] != [] && Pending(c, base, Pop(st, v), [], body[i + 1..])
    ensures !PromotedStore(c, body[i]) ==> Pending(c, base, st, [], body[i + 1..])
  {
    assert body[i..][1..] == body[i + 1..] && body[i..][0] == body[i];
    if PromotedStore(c, body[i]) {
      var u := body[i].ptr.r;
      assert PendingCount(c, [], body[i..], u) > 0 && Above(base, st, u, PendingCount(c, [], body[i..], u));
      forall v: nat {:trigger PendingCount(c, [], body[i + 1..], v)}
        ensures Above(base, Pop(st, u), v, PendingCount(c, [], body[i + 1..], v))
      {
        PopAbove(base, st, u, v, PendingCount(c, [], body[i..], v));
      }
    } else {
      forall v: nat {:trigger PendingCount(c, [], body[i + 1..], v)}
        ensures Above(base, st, v, PendingCount(c, [], body[i + 1..], v))
      {
        assert PendingCount(c, [], body[i + 1..], v) == PendingCount(c, [], body[i..], v);
      }
    }
  }

  lemma PoppedAll(c: Ctx, base: Stacks, st: Stacks, st': Stacks)
    requires Pending(c, base, st', [], []) && st'.Keys == st.Keys && base.Keys <= st.Keys
    ensures SameStacks(base, st')
  {
    forall v: nat ensures StackOf(st', v) == StackOf(base, v) { assert PendingCount(c, [], [], v) == 0; }
  }

  lemma {:induction false} StoreCountSubst(c: Ctx, S: Tops, avail: set<nat>, body: seq<Instr>, v: nat)
    requires BodyOk(c, avail, body) && forall r :: r in S ==> r !in c.geps && r !in c.scalars
    ensures StoreCount(c, SubstBody(S, body), v) == StoreCount(c, body, v)
    decreases body
  {
    if body != [] {
      SubstKeepsKind(c, S, avail, body[0]);
      assert SubstBody(S, body)[1..] == SubstBody(S, body[1..]);
      StoreCountSubst(c, S, Plus(avail, body[0]), body[1..], v);
    }
  }

  /** The list of `bb` before the walk leaves it for good. */
  lemma BodyBefore(m: Ssa, w: Walk, bb: nat)
    requires Inv(m, w, {}) && Live(m, bb) && bb !in w.fin
    ensures w.body[bb] == SubstBody(w.S, m.orig[bb])
  {
    assert BodyIs(m.c, w.S, m.orig[bb], bb in w.fin, w.body[bb]);
  }

  lemma PendingInBlock(m: Ssa, w0: Walk, w: Walk, bb: nat, dead: set<nat>)
    requires Among(m, w0, w, bb, dead, {})
    ensures Pending(m.c, w0.stacks, w.stacks, w.phis[bb], w.body[bb])
  {
    hide UpClosed, AllRenamed, AllPairs, AllUntouched, KeysAre, Extends, DeadUpTo, IsDomTree, IsFrontier, SameTouts,
         Under;
    BodyBefore(m, w, bb);
    InTree(m, bb);
    forall v: nat {:trigger PendingCount(m.c, w.phis[bb], w.body[bb], v)}
      ensures Above(w0.stacks, w.stacks, v, PendingCount(m.c, w.phis[bb], w.body[bb], v))
    {
      PhiCountShape(m.phis[bb], w.phis[bb], v);
      StoreCountSubst(m.c, w.S, AvailIn(m, bb) + PhiDsts(m.phis[bb]), m.orig[bb], v);
      assert Above(w0.stacks, w.stacks, v, PushCount(m, bb, v));
    }
  }

  lemma PoppedInv(m: Ssa, w0: Walk, w: Walk, bb: nat, dead: set<nat>, st: Stacks)
    requires Among(m, w0, w, bb, dead, {}) && SameStacks(w0.stacks, st)
    ensures Inv(m, w.(stacks := st), {})
  {
    hide Input, Bodies, UpClosed, AllRenamed, AllPairs, AllUntouched, KeysAre, Extends, SameTouts, DeadUpTo,
         SameStacks, StacksOver;
    forall b: nat, r: nat {:trigger ToCome(m, w, {}, b, r)} | ToCome(m, w, {}, b, r)
      ensures NoNewName(w.stacks, st, r)
    {
      PrefixNames(m, w0.stacks, w.stacks, st, bb, r);
    }
    StacksKeepInv(m, w, {}, st);
  }

  lemma DeadPositions(m: Ssa, w: Walk, bb: nat, dead: set<nat>)
    requires Live(m, bb) && DeadUpTo(m, w, bb, |m.orig[bb]|, dead)
    ensures Without(SubstBody(w.S, m.orig[bb]), dead, 0) == Swept(m.c, w.S, m.orig[bb])
  {
    hide Without, Swept, Dead;
    forall j | 0 <= j < |m.orig[bb]| ensures 0 + j in dead <==> Dead(m.c, w.S, m.orig[bb][j]) { var j': nat := j; }
    WithoutIsSwept(m.c, w.S, m.orig[bb], dead, 0);
  }

  lemma ErasedBody(m: Ssa, w: Walk, bb: nat, dead: set<nat>)
    requires Inv(m, w, {}) && Live(m, bb) && bb !in w.fin && DeadUpTo(m, w, bb, |m.orig[bb]|, dead)
    ensures Without(w.body[bb], dead, 0) == Swept(m.c, w.S, m.orig[bb])
  {
    hide *;
    BodyBefore(m, w, bb);
    DeadPositions(m, w, bb, dead);
  }

  lemma Finish(m: Ssa, w0: Walk, w: Walk, bb: nat, dead: set<nat>, st: Stacks)
    requires Among(m, w0, w, bb, dead, {}) && SameStacks(w0.stacks, st) && st.Keys == w.stacks.Keys
    ensures bb < |w.body| && Completed(m, w0, AfterErase(m, w.(stacks := st), bb), bb)
    ensures Without(w.body[bb], dead, 0) == Swept(m.c, w.S, m.orig[bb])
  {
    hide Input, Bodies, UpClosed, AllRenamed, AllPairs, AllUntouched, KeysAre, Extends, DeadUpTo, SameStacks,
         StacksOver, TopsOf, Swept, Without, Under, Subtree;
    InTree(m, bb);
    UnderNone(m, bb);
    PoppedInv(m, w0, w, bb, dead, st);
    EraseBlock(m, w.(stacks := st), bb);
    ErasedBody(m, w, bb, dead);
    KeysSame(m, w.stacks, st, w.vis);
  }

  lemma KeysSame(m: Ssa, st: Stacks, st': Stacks, vis: set<nat>)
    requires Input(m) && KeysAre(m, st, vis) && st.Keys == st'.Keys
    ensures KeysAre(m, st', vis)
  {
    hide Input;
    forall v: nat ensures v in st' <==> v in st { assert v in st.Keys <==> v in st'.Keys; }
  }

  lemma PrefixNames(m: Ssa, base: Stacks, st: Stacks, st': Stacks, bb: nat, r: nat)
    requires Live(m, bb) && bb < |m.phis| && StacksOver(m, base, st, bb) && SameStacks(base, st')
    ensures NoNewName(st, st', r)
  {
    forall v: nat | v in st' && Reg(r) in st'[v] ensures v in st && Reg(r) in st[v] {
      assert Above(base, st, v, PushCount(m, bb, v)) && StackOf(st', v) == StackOf(base, v);
      var k :| 0 <= k < |st'[v]| && st'[v][k] == Reg(r);
      assert StackOf(st, v)[k] == Reg(r);
    }
  }
}

/** The chains of immediate-dominator links and what the iteration over the blocks keeps about them. */
module DomTree {
  import opened Graph

  /** Numbering of the blocks reached by the depth-first visit: `order` is the reverse post-order
      and `id` the post-order number of each block in it. */
  ghost predicate Numbering(g: Graph, order: seq<nat>, id: map<int, nat>)
    requires WellFormed(g)
  {
    && 0 < |order| && order[0] == 0
    && (forall b :: b in id ==> 0 <= b)
    && (forall b: nat :: b in id <==> Reachable(g, b))
    && (forall i :: 0 <= i < |order| ==> order[i] in id && id[order[i]] == |order| - 1 - i)
    && (forall b :: b in id ==> id[b] < |order| && order[|order| - 1 - id[b]] == b)
    && (forall b: nat {:trigger HasHigherPred(g, id, b)} :: b in id && b != 0 ==> HasHigherPred(g, id, b))
  }

  ghost predicate HigherPred(g: Graph, id: map<int, nat>, p: nat, b: nat)
    requires WellFormed(g)
  {
    Edge(g, p, b) && p in id && b in id && id[p] > id[b]
  }

  ghost predicate HasHigherPred(g: Graph, id: map<int, nat>, b: nat)
    requires WellFormed(g)
  {
    exists p: nat :: HigherPred(g, id, p, b)
  }

  /** The `idom_` map: `known` are the blocks whose entry is not null, `to` holds the entries. */
  datatype Links = Links(known: set<int>, to: seq<int>) {
    function Set(b: nat, d: int): Links
      requires b < |to|
    {
      Links(known + {b}, to[b := d])
    }
  }

  /** Links lead from numbered blocks to blocks with a higher number, up to the entry block. */
  ghost predicate Linked(id: map<int, nat>, l: Links) {
    && 0 in id && 0 in l.known && |l.to| > 0 && l.to[0] == 0
    && (forall b {:trigger b in l.known} :: b in l.known ==> 0 <= b < |l.to| && b in id && id[b] <= id[0])
    && (forall b {:trigger l.to[b]} :: b in l.known ==> l.to[b] in l.known && l.to[b] in id)
    && (forall b {:trigger l.to[b]} :: b in l.known && b != 0 ==> id[b] < id[l.to[b]])
    && (forall a, b :: a in id && b in id && id[a] == id[b] ==> a == b)
  }

  /** The blocks met on the way from `b` to the entry, `b` included. */
  ghost function Chain(id: map<int, nat>, l: Links, b: nat): set<int>
    requires Linked(id, l) && b in l.known
    decreases id[0] - id[b]
  {
    if b == 0 then {0} else {b} + Chain(id, l, l.to[b])
  }

  lemma {:induction false} ChainIds(id: map<int, nat>, l: Links, b: nat)
    requires Linked(id, l) && b in l.known
    ensures b in Chain(id, l, b) && 0 in Chain(id, l, b)
    ensures forall x :: x in Chain(id, l, b) ==> x in l.known && x in id && id[b] <= id[x] && (x != b ==> id[b] < id[x])
    decreases id[0] - id[b]
  {
    if b != 0 { ChainIds(id, l, l.to[b]); }
  }

  lemma {:induction false} ChainNested(id: map<int, nat>, l: Links, x: nat, b: nat)
    requires Linked(id, l) && b in l.known && x in Chain(id, l, b)
    ensures x in l.known && Chain(id, l, x) <= Chain(id, l, b)
    decreases id[0] - id[b]
  {
    if b != 0 && x != b { ChainNested(id, l, x, l.to[b]); }
  }

  /** Of two members of a chain, the one with the higher number is on the chain of the other. */
  lemma {:induction false} ChainLinear(id: map<int, nat>, l: Links, x: nat, y: nat, b: nat)
    requires Linked(id, l) && b in l.known
    requires x in Chain(id, l, b) && y in Chain(id, l, b)
    requires x in id && y in id && id[x] <= id[y]
    ensures x in l.known && y in Chain(id, l, x)
    decreases id[0] - id[b]
  {
    ChainIds(id, l, b);
    if b != 0 && x != b {
      ChainIds(id, l, l.to[b]);
      ChainLinear(id, l, x, y, l.to[b]);
    }
  }

  // ----- what every true dominator keeps ---------------------------------------------------

  /** Every strict dominator of `b` also dominates the block that `b` links to. */
  ghost predicate KeepsDominators(g: Graph, l: Links)
    requires WellFormed(g)
  {
    forall b: nat, d: nat {:trigger Dominates(g, d, b)} ::
      b in l.known && b < |l.to| && 0 <= l.to[b] && Dominates(g, d, b) && d != b ==> Dominates(g, d, l.to[b])
  }

  lemma {:induction false} ChainHoldsDominators(g: Graph, id: map<int, nat>, l: Links, d: nat, b: nat)
    requires WellFormed(g) && Linked(id, l) && KeepsDominators(g, l)
    requires b in l.known && Dominates(g, d, b)
    ensures d in Chain(id, l, b)
    decreases id[0] - id[b]
  {
    if b == 0 {
      EntryReachable(g);
    } else if d != b {
      ChainHoldsDominators(g, id, l, d, l.to[b]);
    }
  }

  /** A dominator of `b` also dominates everything below it on the chain of `b`. */
  lemma {:induction false} DominatesBelow(g: Graph, id: map<int, nat>, l: Links, d: nat, r: nat, b: nat)
    requires WellFormed(g) && Linked(id, l) && KeepsDominators(g, l)
    requires b in l.known && Dominates(g, d, b)
    requires r in Chain(id, l, b) && r in id && d in id && id[r] <= id[d]
    ensures Dominates(g, d, r)
    decreases id[0] - id[b]
  {
    ChainIds(id, l, b);
    if b != 0 && r != b {
      ChainHoldsDominators(g, id, l, d, b);
      ChainIds(id, l, l.to[b]);
      DominatesBelow(g, id, l, d, r, l.to[b]);
    }
  }

  // ----- the fixpoint ------------------------------------------------------------------------

  /** `x` lies on the chain of every predecessor of `b` that already has a link. */
  ghost predicate Common(g: Graph, id: map<int, nat>, l: Links, x: int, b: nat)
    requires WellFormed(g) && Linked(id, l)
  {
    forall p: nat {:trigger Edge(g, p, b)} :: Edge(g, p, b) && p in l.known ==> x in Chain(id, l, p)
  }

  /** The link of `b` is where the chains of its predecessors meet. */
  ghost predicate Settled(g: Graph, id: map<int, nat>, l: Links, b: nat)
    requires WellFormed(g) && Linked(id, l)
  {
    b in l.known && forall x {:trigger x in Chain(id, l, l.to[b])} ::
      x in Chain(id, l, l.to[b]) ==> Common(g, id, l, x, b)
  }

  lemma {:induction false} SettledOnPaths(g: Graph, id: map<int, nat>, l: Links, d: nat, b: nat, p: seq<nat>)
    requires WellFormed(g) && Linked(id, l)
    requires forall x: nat :: Reachable(g, x) ==> x in l.known
    requires forall x: nat :: x in l.known && x != 0 ==> Settled(g, id, l, x)
    requires PathTo(g, p, b) && b in l.known && d in Chain(id, l, b)
    ensures d in p
    decreases |p|
  {
    if |p| > 1 && d != b {
      var a, q := p[|p| - 2], p[..|p| - 1];
      assert Reachable(g, a);
      if b != 0 {
        assert Settled(g, id, l, b);
        assert d in Chain(id, l, l.to[b]);
        assert Common(g, id, l, d, b);
        assert Edge(g, a, b);
        SettledOnPaths(g, id, l, d, a, q);
      }
    }
  }

  /** At a fixpoint that has kept the dominators, chains are exactly the dominator sets. */
  lemma FixpointIsDominance(g: Graph, id: map<int, nat>, l: Links)
    requires WellFormed(g) && Linked(id, l) && KeepsDominators(g, l)
    requires forall x: nat :: x in l.known <==> Reachable(g, x)
    requires forall x: nat :: x in l.known && x != 0 ==> Settled(g, id, l, x)
    ensures forall b: nat, d: nat :: b in l.known ==> (d in Chain(id, l, b) <==> Dominates(g, d, b))
  {
    forall b: nat, d: nat | b in l.known ensures d in Chain(id, l, b) <==> Dominates(g, d, b) {
      if Dominates(g, d, b) {
        ChainHoldsDominators(g, id, l, d, b);
      }
      if d in Chain(id, l, b) {
        forall p | PathTo(g, p, b) ensures d in p {
          SettledOnPaths(g, id, l, d, b, p);
        }
      }
    }
  }

  // ----- what one update of a link changes ---------------------------------------------------

  /** Chains of blocks above `b` do not notice that `b` links elsewhere. */
  lemma {:induction false} UpdateAbove(id: map<int, nat>, l: Links, b: nat, r: nat, x: nat)
    requires b < |l.to| && Linked(id, l) && Linked(id, l.Set(b, r))
    requires b in id && x in l.known && id[b] < id[x]
    ensures Chain(id, l.Set(b, r), x) == Chain(id, l, x)
    decreases id[0] - id[x]
  {
    if x != 0 { UpdateAbove(id, l, b, r, l.to[x]); }
  }

  /** Moving the link of `b` up its own chain makes chains smaller. */
  lemma {:induction false} UpdateShrinks(id: map<int, nat>, l: Links, b: nat, r: nat, x: nat)
    requires b < |l.to| && Linked(id, l) && Linked(id, l.Set(b, r))
    requires b != 0 && b in id && (b in l.known ==> r in Chain(id, l, l.to[b])) && r in l.known && id[b] < id[r]
    requires x in l.known
    ensures Chain(id, l.Set(b, r), x) <= Chain(id, l, x)
    decreases id[0] - id[x]
  {
    if x == 0 {
    } else if x == b {
      UpdateAbove(id, l, b, r, r);
      ChainNested(id, l, r, l.to[b]);
    } else {
      UpdateShrinks(id, l, b, r, l.to[x]);
    }
  }

  lemma UpdateKeepsLinked(id: map<int, nat>, l: Links, b: nat, r: nat)
    requires Linked(id, l) && b in id && 0 < b < |l.to| && r in l.known && id[b] < id[r] && id[b] <= id[0]
    ensures Linked(id, l.Set(b, r))
  {}

  /** The strict dominators of `b` dominate the block where the chains of its predecessors meet. */
  lemma MeetIsDominated(g: Graph, id: map<int, nat>, l: Links, b: nat, r: nat, d: nat, p: nat)
    requires WellFormed(g) && Linked(id, l) && KeepsDominators(g, l)
    requires r in l.known && Edge(g, p, b) && p in l.known
    requires forall x :: x in Chain(id, l, r) <==> Common(g, id, l, x, b)
    requires Dominates(g, d, b) && d != b
    ensures Dominates(g, d, r)
  {
    forall p: nat {:trigger Edge(g, p, b)} | Edge(g, p, b) && p in l.known ensures d in Chain(id, l, p) {
      DominatesPred(g, d, p, b);
      ChainHoldsDominators(g, id, l, d, p);
    }
    assert Common(g, id, l, d, b);
    ChainIds(id, l, r);
    assert Common(g, id, l, r, b);
    DominatesPred(g, d, p, b);
    DominatesBelow(g, id, l, d, r, p);
  }

  lemma UpdateKeepsDominators(g: Graph, id: map<int, nat>, l: Links, b: nat, r: nat, p: nat)
    requires WellFormed(g) && Linked(id, l) && KeepsDominators(g, l)
    requires 0 < b < |l.to| && r in l.known && Edge(g, p, b) && p in l.known
    requires forall x :: x in Chain(id, l, r) <==> Common(g, id, l, x, b)
    ensures KeepsDominators(g, l.Set(b, r))
  {
    forall d: nat | Dominates(g, d, b) && d != b ensures Dominates(g, d, r) {
      MeetIsDominated(g, id, l, b, r, d, p);
    }
  }

  // ----- why the iteration stops ---------------------------------------------------------------

  /** `up` links every numbered block to a predecessor with a higher number. */
  ghost predicate Parents(g: Graph, id: map<int, nat>, up: Links)
    requires WellFormed(g)
  {
    && Linked(id, up)
    && up.known == id.Keys
    && (forall b: nat {:trigger up.to[b]} :: b in up.known && b != 0 && b < |up.to| ==>
          0 <= up.to[b] && Edge(g, up.to[b], b))
  }

  /** Links stay on the parent chain, and no block common to the predecessors lies below the link. */
  ghost predicate Climbing(g: Graph, id: map<int, nat>, l: Links, up: Links)
    requires WellFormed(g) && Linked(id, l) && Parents(g, id, up)
  {
    forall b: nat {:trigger ClimbsAt(g, id, l, up, b)} :: b in l.known && b != 0 ==> ClimbsAt(g, id, l, up, b)
  }

  ghost predicate ClimbsAt(g: Graph, id: map<int, nat>, l: Links, up: Links, b: nat)
    requires WellFormed(g) && Linked(id, l) && Parents(g, id, up) && b in l.known
  {
    && up.to[b] in l.known
    && l.to[b] in Chain(id, up, up.to[b])
    && (forall x {:trigger Common(g, id, l, x, b)} :: Common(g, id, l, x, b) ==> x in id && id[l.to[b]] <= id[x])
  }

  /** The link of `z` lies on the chain of its parent. */
  ghost predicate FollowsParent(id: map<int, nat>, l: Links, up: Links, z: nat)
    requires Linked(id, l)
  {
    z in l.known && z < |up.to| && up.to[z] in l.known && l.to[z] in Chain(id, l, up.to[z])
  }

  lemma {:induction false} ChainOnParents(g: Graph, id: map<int, nat>, l: Links, up: Links, b: nat)
    requires WellFormed(g) && Linked(id, l) && Parents(g, id, up) && Climbing(g, id, l, up)
    requires b in l.known
    ensures Chain(id, l, b) <= Chain(id, up, b)
    decreases id[0] - id[b]
  {
    if b != 0 {
      assert ClimbsAt(g, id, l, up, b);
      ChainOnParents(g, id, l, up, l.to[b]);
      ChainNested(id, up, l.to[b], up.to[b]);
    }
  }

  /** Where links follow the parents, a chain member above a parent-chain member is on its chain. */
  lemma {:induction false} WalkUp(g: Graph, id: map<int, nat>, l: Links, up: Links, y: nat, u: nat, p: nat)
    requires WellFormed(g) && Linked(id, l) && Parents(g, id, up)
    requires p in l.known && y in Chain(id, l, p) && u in Chain(id, up, p)
    requires y in id && u in id && id[u] <= id[y]
    requires forall z: nat {:trigger FollowsParent(id, l, up, z)} :: z in id && id[p] <= id[z] && z != 0 ==>
               FollowsParent(id, l, up, z)
    ensures u in l.known && y in Chain(id, l, u)
    decreases id[0] - id[p]
  {
    ChainIds(id, up, p);
    if u != p {
      assert FollowsParent(id, l, up, p);
      ChainNested(id, l, l.to[p], up.to[p]);
      WalkUp(g, id, l, up, y, u, up.to[p]);
    }
  }

  /** An update at `b` climbs: the new link is on the chain of the old one. */
  lemma UpdateClimbs(g: Graph, id: map<int, nat>, l: Links, up: Links, b: nat, r: nat)
    requires WellFormed(g) && Linked(id, l) && Parents(g, id, up) && Climbing(g, id, l, up)
    requires b in id && b != 0 && b in l.known && r in l.known
    requires forall x :: x in Chain(id, l, r) <==> Common(g, id, l, x, b)
    requires forall z: nat {:trigger FollowsParent(id, l, up, z)} :: z in id && id[b] < id[z] && z != 0 ==>
               FollowsParent(id, l, up, z)
    ensures r in Chain(id, l, l.to[b])
  {
    ChainIds(id, l, r);
    assert Common(g, id, l, r, b);
    var p: nat := up.to[b];
    assert Edge(g, p, b) && ClimbsAt(g, id, l, up, b);
    WalkUp(g, id, l, up, r, l.to[b], p);
  }

  lemma CommonShrinks(g: Graph, id: map<int, nat>, l: Links, b: nat, r: nat, x: int, c: nat)
    requires WellFormed(g) && b < |l.to| && Linked(id, l) && Linked(id, l.Set(b, r))
    requires b != 0 && b in id && (b in l.known ==> r in Chain(id, l, l.to[b])) && r in l.known && id[b] < id[r]
    requires Common(g, id, l.Set(b, r), x, c)
    ensures Common(g, id, l, x, c)
  {
    forall p: nat {:trigger Edge(g, p, c)} | Edge(g, p, c) && p in l.known ensures x in Chain(id, l, p) {
      assert p in l.Set(b, r).known;
      UpdateShrinks(id, l, b, r, p);
    }
  }

  lemma UpdateKeepsClimbing(g: Graph, id: map<int, nat>, l: Links, up: Links, b: nat, r: nat)
    requires WellFormed(g) && b < |l.to| && Linked(id, l) && Linked(id, l.Set(b, r))
    requires Parents(g, id, up) && Climbing(g, id, l, up)
    requires b != 0 && b in id && (b in l.known ==> r in Chain(id, l, l.to[b])) && r in l.known && id[b] < id[r]
    requires up.to[b] in l.known
    requires forall x :: x in Chain(id, l, r) <==> Common(g, id, l, x, b)
    ensures Climbing(g, id, l.Set(b, r), up)
  {
    var l' := l.Set(b, r);
    ChainIds(id, l, r);
    assert Common(g, id, l, r, b) && Edge(g, up.to[b], b);
    ChainOnParents(g, id, l, up, up.to[b]);
    assert Chain(id, l, up.to[b]) <= Chain(id, up, up.to[b]);
    forall c: nat | c in l'.known && c != 0 ensures ClimbsAt(g, id, l', up, c) {
      assert c != b ==> ClimbsAt(g, id, l, up, c);
      forall x: int | Common(g, id, l', x, c) ensures x in id && id[l'.to[c]] <= id[x] {
        CommonShrinks(g, id, l, b, r, x, c);
      }
    }
  }

  /** How far the links of `bs` still are from the entry; an unset link counts most. */
  ghost function Slack(id: map<int, nat>, l: Links, bs: seq<nat>): nat
    requires Linked(id, l)
  {
    if bs == [] then 0 else SlackOf(id, l, bs[0]) + Slack(id, l, bs[1..])
  }

  ghost function SlackOf(id: map<int, nat>, l: Links, b: nat): nat
    requires Linked(id, l)
  {
    if b in l.known && l.to[b] in id && id[l.to[b]] <= id[0] then id[0] - id[l.to[b]] else id[0] + 1
  }

  lemma {:induction false} SlackShrinks(id: map<int, nat>, l: Links, l': Links, b: nat, bs: seq<nat>)
    requires Linked(id, l) && Linked(id, l')
    requires forall x: nat :: SlackOf(id, l', x) <= SlackOf(id, l, x)
    requires SlackOf(id, l', b) < SlackOf(id, l, b)
    ensures Slack(id, l', bs) <= Slack(id, l, bs)
    ensures b in bs ==> Slack(id, l', bs) < Slack(id, l, bs)
  {
    if bs != [] { SlackShrinks(id, l, l', b, bs[1..]); }
  }

  /** Every update of a link brings the slack down. */
  lemma UpdateLowersSlack(id: map<int, nat>, l: Links, b: nat, r: nat, bs: seq<nat>)
    requires b < |l.to| && Linked(id, l) && Linked(id, l.Set(b, r))
    requires b != 0 && b in bs && b in id && r in l.known
    requires b in l.known ==> r != l.to[b] && r in Chain(id, l, l.to[b])
    ensures Slack(id, l.Set(b, r), bs) < Slack(id, l, bs)
  {
    if b in l.known { ChainIds(id, l, l.to[b]); }
    SlackShrinks(id, l, l.Set(b, r), b, bs);
  }

  /** The lower of two fingers can climb without leaving the common part of the chains. */
  lemma FingerStep(id: map<int, nat>, l: Links, x: nat, y: nat)
    requires Linked(id, l) && x in l.known && y in l.known && id[x] < id[y]
    ensures l.to[x] in l.known && id[x] < id[l.to[x]]
    ensures Chain(id, l, l.to[x]) * Chain(id, l, y) == Chain(id, l, x) * Chain(id, l, y)
    ensures Chain(id, l, y) * Chain(id, l, l.to[x]) == Chain(id, l, y) * Chain(id, l, x)
  {
    ChainIds(id, l, y);
    ChainIds(id, l, x);
  }

  // ----- one pass over the blocks ----------------------------------------------------------------

  /** What holds in a pass once all blocks numbered `n` or higher have been processed. */
  ghost predicate Pass(g: Graph, id: map<int, nat>, l: Links, up: Links, n: int)
    requires WellFormed(g)
  {
    && |l.to| == |g.succ| && Linked(id, l) && Parents(g, id, up)
    && KeepsDominators(g, l) && Climbing(g, id, l, up)
    && (forall z: nat {:trigger FollowsParent(id, l, up, z)} :: z in id && n <= id[z] && z != 0 ==>
          FollowsParent(id, l, up, z))
  }

  /** The state of the links after block `b` has been given the link `r`. */
  function Relink(l: Links, b: nat, r: nat): Links
    requires b < |l.to|
  {
    if b in l.known && l.to[b] == r then l else l.Set(b, r)
  }

  lemma ParentKnown(g: Graph, id: map<int, nat>, l: Links, up: Links, b: nat)
    requires WellFormed(g) && b in id && b != 0 && Pass(g, id, l, up, id[b] + 1)
    ensures 0 <= up.to[b] && up.to[b] in l.known && Edge(g, up.to[b], b)
  {
    if up.to[b] != 0 { assert FollowsParent(id, l, up, up.to[b]); }
  }

  lemma PassStep(g: Graph, id: map<int, nat>, l: Links, up: Links, b: nat, r: nat, bs: seq<nat>)
    requires WellFormed(g) && b in id && b != 0 && b < |l.to| && Pass(g, id, l, up, id[b] + 1)
    requires r in l.known && b in bs
    requires forall x :: x in Chain(id, l, r) <==> Common(g, id, l, x, b)
    ensures Pass(g, id, Relink(l, b, r), up, id[b])
    ensures Relink(l, b, r) != l ==> Slack(id, Relink(l, b, r), bs) < Slack(id, l, bs)
    ensures Relink(l, b, r) == l ==> Settled(g, id, l, b)
  {
    var l' := Relink(l, b, r);
    var p: nat := up.to[b];
    ParentKnown(g, id, l, up, b);
    ChainIds(id, l, r);
    assert Common(g, id, l, r, b);
    ChainIds(id, l, p);
    if b in l.known { UpdateClimbs(g, id, l, up, b, r); }
    if l' != l {
      UpdateKeepsLinked(id, l, b, r);
      UpdateKeepsDominators(g, id, l, b, r, p);
      UpdateKeepsClimbing(g, id, l, up, b, r);
      UpdateLowersSlack(id, l, b, r, bs);
    }
    forall z: nat {:trigger FollowsParent(id, l', up, z)} | z in id && id[b] <= id[z] && z != 0
      ensures FollowsParent(id, l', up, z)
    {
      if z == b {
        if l' != l { UpdateAbove(id, l, b, r, p); }
      } else {
        assert FollowsParent(id, l, up, z);
        if l' != l { UpdateAbove(id, l, b, r, up.to[z]); }
      }
    }
  }

  ghost function ParentOf(g: Graph, id: map<int, nat>, b: nat): (p: nat)
    requires WellFormed(g)
    ensures HasHigherPred(g, id, b) ==> HigherPred(g, id, p, b)
  {
    if HasHigherPred(g, id, b) then var q: nat :| HigherPred(g, id, q, b); q else 0
  }

  lemma ReachableInRange(g: Graph, b: nat)
    requires WellFormed(g) && Reachable(g, b)
    ensures b < |g.succ|
  {
    var p :| PathTo(g, p, b);
    PathInRange(g, p, b);
  }

  ghost function ParentsUpTo(g: Graph, id: map<int, nat>, n: nat): (to: seq<int>)
    requires WellFormed(g)
    ensures |to| == n && forall b {:trigger to[b]} :: 0 <= b < n ==> to[b] == if b == 0 then 0 else ParentOf(g, id, b)
  {
    if n == 0 then [] else ParentsUpTo(g, id, n - 1) + [if n == 1 then 0 else ParentOf(g, id, n - 1)]
  }

  lemma MakeParents(g: Graph, order: seq<nat>, id: map<int, nat>) returns (up: Links)
    requires WellFormed(g) && Numbering(g, order, id)
    ensures Parents(g, id, up)
  {
    up := Links(id.Keys, ParentsUpTo(g, id, |g.succ|));
    EntryReachable(g);
    forall b {:trigger b in up.known} | b in up.known
      ensures 0 <= b < |up.to| && id[b] <= id[0]
    {
      ReachableInRange(g, b);
    }
    forall b: nat {:trigger up.to[b]} | b in up.known && b != 0
      ensures up.to[b] >= 0 && HigherPred(g, id, up.to[b], b)
    {
      assert HasHigherPred(g, id, b);
    }
    assert Linked(id, up);
  }

  /** The links are exactly the immediate dominators: chains are dominator sets. */
  ghost predicate IsDomTree(g: Graph, id: map<int, nat>, l: Links)
    requires WellFormed(g)
  {
    && |l.to| == |g.succ| && Linked(id, l)
    && (forall b: nat :: b in l.known <==> Reachable(g, b))
    && (forall b: nat, d: nat :: b in l.known ==> (d in Chain(id, l, b) <==> Dominates(g, d, b)))
  }

  lemma FirstPass(g: Graph, order: seq<nat>, id: map<int, nat>, l: Links, up: Links)
    requires WellFormed(g) && Numbering(g, order, id) && Parents(g, id, up)
    requires l.known == {0} && |l.to| == |g.succ| && l.to[0] == 0
    ensures Pass(g, id, l, up, |order|)
  {
    assert forall b :: b in id ==> id[b] < |order| && id[0] == |order| - 1;
  }

  lemma PassEnds(g: Graph, order: seq<nat>, id: map<int, nat>, l: Links, up: Links)
    requires WellFormed(g) && Numbering(g, order, id) && Pass(g, id, l, up, 0)
    requires forall j :: 0 <= j < |order| && order[j] != 0 ==> Settled(g, id, l, order[j])
    ensures IsDomTree(g, id, l)
  {
    forall b: nat | b in id && b != 0 ensures Settled(g, id, l, b) {
      assert order[|order| - 1 - id[b]] == b;
    }
    FixpointIsDominance(g, id, l);
  }

  // ----- dominance frontiers ---------------------------------------------------------------------

  /** No block, as the null pointer that `get_idom` gives for a block without a link. */
  const NULL := -1

  function IdomOf(l: Links, b: int): int
    requires forall x :: x in l.known ==> 0 <= x < |l.to|
  {
    if b in l.known then l.to[b] else NULL
  }

  /** Where the runner stands after `k` steps up from `p`. */
  function Climb(l: Links, p: int, k: nat): int
    requires forall x :: x in l.known ==> 0 <= x < |l.to|
    decreases k
  {
    if k == 0 then p else Climb(l, IdomOf(l, p), k - 1)
  }

  /** The runner that starts at predecessor `p` of `y` passes `x` before it stops. */
  ghost predicate OnRunner(id: map<int, nat>, l: Links, x: nat, p: nat, y: nat)
    requires Linked(id, l)
  {
    p in l.known && y in l.known && x in Chain(id, l, p) && x !in Chain(id, l, l.to[y])
  }

  predicate InMap(m: map<int, set<nat>>, x: int, y: nat) {
    x in m && y in m[x]
  }

  function AddTo(m: map<int, set<nat>>, x: int, y: nat): (r: map<int, set<nat>>)
    ensures forall a, b :: InMap(r, a, b) <==> InMap(m, a, b) || (a == x && b == y)
  {
    m[x := (if x in m then m[x] else {}) + {y}]
  }

  /** The dominance frontier as the analysis leaves it. */
  ghost predicate IsFrontier(g: Graph, id: map<int, nat>, l: Links, f: map<int, set<nat>>)
    requires WellFormed(g) && Linked(id, l)
  {
    forall x: nat, y: nat {:trigger InMap(f, x, y)} :: x in l.known ==>
      (InMap(f, x, y) <==> y < |g.pred| && |g.pred[y]| >= 2 && exists p: nat ::
         Edge(g, p, y) && OnRunner(id, l, x, p, y))
  }

  lemma IdomOnPredChain(g: Graph, id: map<int, nat>, l: Links, p: nat, y: nat)
    requires WellFormed(g) && IsDomTree(g, id, l) && Edge(g, p, y) && p in l.known
    ensures y in l.known && l.to[y] in Chain(id, l, p)
  {
    EdgeReachable(g, p, y);
    ChainIds(id, l, y);
    if y != 0 {
      ChainIds(id, l, l.to[y]);
      DominatesPred(g, l.to[y], p, y);
    } else {
      ChainIds(id, l, p);
    }
  }

  lemma {:induction false} ClimbReaches(id: map<int, nat>, l: Links, p: nat, x: nat) returns (k: nat)
    requires Linked(id, l) && p in l.known && x in Chain(id, l, p)
    ensures Climb(l, p, k) == x
    decreases id[0] - id[p]
  {
    if p == x { k := 0; } else { k := ClimbReaches(id, l, l.to[p], x); k := k + 1; }
  }

  lemma {:induction false} ClimbNull(l: Links, k: nat)
    requires forall x :: x in l.known ==> 0 <= x < |l.to|
    ensures Climb(l, NULL, k) == NULL
    decreases k
  {
    if k != 0 { ClimbNull(l, k - 1); }
  }

  lemma RunnerStep(id: map<int, nat>, l: Links, p: nat, runner: nat)
    requires Linked(id, l) && p in l.known && runner in Chain(id, l, p) && runner in l.known
    ensures runner != 0 ==> Chain(id, l, runner) == {runner} + Chain(id, l, l.to[runner])
    ensures runner != 0 ==> runner !in Chain(id, l, l.to[runner]) && l.to[runner] in Chain(id, l, p)
    ensures runner == 0 ==> Chain(id, l, runner) == {0}
  {
    if runner != 0 {
      ChainIds(id, l, l.to[runner]);
      ChainNested(id, l, runner, p);
    }
  }

  /** The runner loop ends exactly when a reachable join is not entered from an unreachable block. */
  lemma RunnerStops(g: Graph, id: map<int, nat>, l: Links, p: nat, y: nat)
    requires WellFormed(g) && IsDomTree(g, id, l) && Edge(g, p, y)
    ensures (exists k :: Climb(l, p, k) == IdomOf(l, y)) <==> (Reachable(g, y) ==> Reachable(g, p))
  {
    if Reachable(g, p) {
      IdomOnPredChain(g, id, l, p, y);
      var k := ClimbReaches(id, l, p, l.to[y]);
    } else if !Reachable(g, y) {
      assert Climb(l, p, 1) == Climb(l, NULL, 0) == IdomOf(l, y);
    } else {
      forall k: nat ensures Climb(l, p, k) != l.to[y] {
        if k > 0 { ClimbNull(l, k - 1); }
      }
    }
  }

  lemma OnRunnerIsFrontier(g: Graph, id: map<int, nat>, l: Links, x: nat, p: nat, y: nat)
    requires WellFormed(g) && IsDomTree(g, id, l)
    requires p in l.known && y in l.known && y != 0
    ensures OnRunner(id, l, x, p, y) <==> Dominates(g, x, p) && !(x != y && Dominates(g, x, y))
  {
    ChainIds(id, l, y);
    ChainIds(id, l, l.to[y]);
  }

  /** A join has at least two predecessors. */
  lemma FrontierIsJoin(g: Graph, id: map<int, nat>, l: Links, x: nat, p: nat, y: nat)
    requires WellFormed(g) && IsDomTree(g, id, l) && y != 0
    requires Edge(g, p, y) && OnRunner(id, l, x, p, y)
    ensures |g.pred[y]| >= 2
  {
    if |g.pred[y]| == 1 {
      assert forall q: nat :: Edge(g, q, y) ==> q == p;
      if p == y {
        SelfPredUnreachable(g, y);
      } else {
        forall w | PathTo(g, w, y) ensures p in w { assert Edge(g, w[|w| - 2], y); }
        assert Dominates(g, p, y);
        assert p in Chain(id, l, y);
        ChainNested(id, l, p, l.to[y]);
      }
    }
  }

  /** In a tree of immediate dominators, the frontier of `x` is what it is meant to be. At the entry the
      runner stops at the entry itself: a loop back to it puts it into the frontier of all blocks above the
      end of the loop but its own, and only when there are two such edges. */
  lemma FrontierIsExact(g: Graph, id: map<int, nat>, l: Links, f: map<int, set<nat>>, x: nat, y: nat)
    requires WellFormed(g) && IsDomTree(g, id, l) && IsFrontier(g, id, l, f)
    requires Reachable(g, x) && Reachable(g, y)
    requires forall p: nat :: Edge(g, p, y) ==> Reachable(g, p)
    ensures y != 0 ==> (InMap(f, x, y) <==> (exists p: nat :: Edge(g, p, y) && Dominates(g, x, p))
                                            && !(x != y && Dominates(g, x, y)))
    ensures y == 0 ==> (InMap(f, x, y) <==> |g.pred[0]| >= 2 && x != 0
                                            && exists p: nat :: Edge(g, p, 0) && Dominates(g, x, p))
  {
    assert x in l.known && y in l.known;
    ReachableInRange(g, y);
    if y == 0 {
      EntryFrontier(g, id, l, f, x);
    } else {
      JoinFrontier(g, id, l, f, x, y);
    }
  }

  lemma EntryFrontier(g: Graph, id: map<int, nat>, l: Links, f: map<int, set<nat>>, x: nat)
    requires WellFormed(g) && IsDomTree(g, id, l) && IsFrontier(g, id, l, f) && x in l.known
    requires forall p: nat :: Edge(g, p, 0) ==> Reachable(g, p)
    ensures InMap(f, x, 0) <==> |g.pred[0]| >= 2 && x != 0 && exists p: nat :: Edge(g, p, 0) && Dominates(g, x, p)
  {
    forall p: nat | Edge(g, p, 0) ensures OnRunner(id, l, x, p, 0) <==> x != 0 && Dominates(g, x, p) {
      ChainIds(id, l, p);
    }
  }

  lemma JoinFrontier(g: Graph, id: map<int, nat>, l: Links, f: map<int, set<nat>>, x: nat, y: nat)
    requires WellFormed(g) && IsDomTree(g, id, l) && IsFrontier(g, id, l, f)
    requires x in l.known && y in l.known && y != 0 && y < |g.pred|
    requires forall p: nat :: Edge(g, p, y) ==> Reachable(g, p)
    ensures InMap(f, x, y) <==> (exists p: nat :: Edge(g, p, y) && Dominates(g, x, p))
                                && !(x != y && Dominates(g, x, y))
  {
    if InMap(f, x, y) {
      var p: nat :| Edge(g, p, y) && OnRunner(id, l, x, p, y);
      OnRunnerIsFrontier(g, id, l, x, p, y);
    }
    if p: nat :| Edge(g, p, y) && Dominates(g, x, p) && !(x != y && Dominates(g, x, y)) {
      assert Reachable(g, p);
      OnRunnerIsFrontier(g, id, l, x, p, y);
      FrontierIsJoin(g, id, l, x, p, y);
    }
  }

  lemma {:induction false} SelfPredOnPath(g: Graph, y: nat, w: seq<nat>)
    requires WellFormed(g) && y != 0 && (forall q: nat :: Edge(g, q, y) ==> q == y)
    ensures !PathTo(g, w, y)
    decreases |w|
  {
    if |w| > 1 && PathTo(g, w, y) { SelfPredOnPath(g, y, w[..|w| - 1]); }
  }

  lemma SelfPredUnreachable(g: Graph, y: nat)
    requires WellFormed(g) && y != 0 && (forall q: nat :: Edge(g, q, y) ==> q == y)
    ensures !Reachable(g, y)
  {
    forall w ensures !PathTo(g, w, y) { SelfPredOnPath(g, y, w); }
  }
}

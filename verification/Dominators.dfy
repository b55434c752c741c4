/** The dominator analysis of one function: depth-first numbering, the iteration for immediate
    dominators, dominance frontiers and the children lists of the dominator tree. */
module Dominators {
  import opened Graph
  import opened DomTree

  /** What the depth-first visit has numbered so far: `done` in post-order, `id` its inverse. */
  ghost predicate Numbered(g: Graph, done: seq<nat>, id: map<int, nat>, seen: set<nat>) {
    && (forall x :: x in seen ==> x < |g.succ|)
    && (forall b :: b in id ==> 0 <= b && b in seen)
    && (forall i :: 0 <= i < |done| ==> done[i] in id && id[done[i]] == i)
    && (forall b :: b in id ==> id[b] < |done| && done[id[b]] == b)
  }

  /** What one call of the visit at `bb` adds to the numbering. */
  ghost predicate Visited(g: Graph, bb: nat, id0: map<int, nat>, seen0: set<nat>, id: map<int, nat>, seen: set<nat>)
    requires WellFormed(g)
  {
    && (forall b :: b in id0 ==> b in id && id[b] == id0[b])
    && (forall b: nat :: b in id && b !in id0 ==> b in seen && b !in seen0)
    && (forall b: nat :: b in seen <==> b in seen0 || (b in id && b !in id0))
    && (forall x: nat, y: nat {:trigger Edge(g, x, y)} :: x in id && x !in id0 && Edge(g, x, y) ==> y in seen)
    && (forall b: nat {:trigger HasHigherPred(g, id, b)} :: b in id && b !in id0 && b != bb ==> HasHigherPred(g, id, b))
    && (forall b: nat :: b in id && b !in id0 ==> Reachable(g, b))
  }

  /** What the visit of `bb` has added after some of its successors. */
  ghost predicate Visiting(g: Graph, bb: nat, id0: map<int, nat>, seen0: set<nat>, id: map<int, nat>, seen: set<nat>)
    requires WellFormed(g)
  {
    && bb !in id
    && (forall b :: b in id0 ==> b in id && id[b] == id0[b])
    && (forall b: nat :: b in id && b !in id0 ==> b in seen && b !in seen0)
    && (forall b: nat :: b in seen <==> b in seen0 || b == bb || (b in id && b !in id0))
    && (forall x: nat, y: nat {:trigger Edge(g, x, y)} :: x in id && x !in id0 && Edge(g, x, y) ==> y in seen)
    && (forall b: nat {:trigger HasHigherPred(g, id, b)} :: b in id && b !in id0 ==>
          Edge(g, bb, b) || HasHigherPred(g, id, b))
    && (forall b: nat :: b in id && b !in id0 ==> Reachable(g, b))
  }

  lemma VisitSuccessor(g: Graph, bb: nat, id0: map<int, nat>, seen0: set<nat>, id1: map<int, nat>, seen1: set<nat>,
                       b: nat, id: map<int, nat>, seen: set<nat>)
    requires WellFormed(g) && bb in seen1
    requires Visiting(g, bb, id0, seen0, id1, seen1) && Visited(g, b, id1, seen1, id, seen)
    requires Edge(g, bb, b)
    ensures Visiting(g, bb, id0, seen0, id, seen)
  {
    forall c: nat | c in id && c !in id0 ensures Edge(g, bb, c) || HasHigherPred(g, id, c) {
      if c in id1 && !Edge(g, bb, c) {
        assert HasHigherPred(g, id1, c);
        var p: nat :| HigherPred(g, id1, p, c);
        assert HigherPred(g, id, p, c);
      }
    }
  }

  lemma VisitFinish(g: Graph, bb: nat, id0: map<int, nat>, seen0: set<nat>, id: map<int, nat>, seen: set<nat>, n: nat)
    requires WellFormed(g) && bb !in id0 && bb !in seen0 && Reachable(g, bb)
    requires Visiting(g, bb, id0, seen0, id, seen)
    requires forall y: nat {:trigger Edge(g, bb, y)} :: Edge(g, bb, y) ==> y in seen
    requires forall b :: b in id ==> id[b] < n
    ensures Visited(g, bb, id0, seen0, id[bb := n], seen)
  {
    var id' := id[bb := n];
    forall c: nat | c in id' && c !in id0 && c != bb ensures HasHigherPred(g, id', c) {
      if Edge(g, bb, c) {
        assert HigherPred(g, id', bb, c);
      } else {
        assert HasHigherPred(g, id, c);
        var p: nat :| HigherPred(g, id, p, c);
        assert HigherPred(g, id', p, c);
      }
    }
  }

  function Blocks(n: nat): (s: set<nat>)
    ensures forall b: nat :: b in s <==> b < n
  {
    if n == 0 then {} else Blocks(n - 1) + {n - 1}
  }

  class Dominators {
    const g: Graph
    var reversePostOrder: seq<nat>
    var postOrderId: map<int, nat>
    var idom: Links
    var frontier: map<int, set<nat>>
    var children: map<int, set<nat>>

    constructor (g: Graph)
      requires WellFormed(g)
      ensures this.g == g
    {
      this.g := g;
      reversePostOrder, postOrderId := [], map[];
      idom := Links({}, []);
      frontier, children := map[], map[];
    }

    method PostOrderVisit(bb: nat, seen: set<nat>) returns (seen': set<nat>)
      requires WellFormed(g) && bb < |g.succ| && bb !in seen && Reachable(g, bb)
      requires Numbered(g, reversePostOrder, postOrderId, seen)
      modifies this`reversePostOrder, this`postOrderId
      ensures Numbered(g, reversePostOrder, postOrderId, seen')
      ensures bb in postOrderId && postOrderId[bb] == |reversePostOrder| - 1
      ensures Visited(g, bb, old(postOrderId), seen, postOrderId, seen')
      decreases Blocks(|g.succ|) - seen
    {
      ghost var id0 := postOrderId;
      seen' := seen + {bb};
      var i := 0;
      while i < |g.succ[bb]|
        invariant 0 <= i <= |g.succ[bb]|
        invariant seen + {bb} <= seen' && Numbered(g, reversePostOrder, postOrderId, seen')
        invariant forall j :: 0 <= j < i ==> g.succ[bb][j] in seen'
        invariant Visiting(g, bb, id0, seen, postOrderId, seen')
      {
        var b := g.succ[bb][i];
        if b !in seen' {
          assert Edge(g, bb, b);
          EdgeReachable(g, bb, b);
          ghost var id1, seen1 := postOrderId, seen';
          seen' := PostOrderVisit(b, seen');
          VisitSuccessor(g, bb, id0, seen, id1, seen1, b, postOrderId, seen');
        }
        i := i + 1;
      }
      assert forall y: nat {:trigger Edge(g, bb, y)} :: Edge(g, bb, y) ==> y in seen';
      VisitFinish(g, bb, id0, seen, postOrderId, seen', |reversePostOrder|);
      postOrderId := postOrderId[bb := |reversePostOrder|];
      reversePostOrder := reversePostOrder + [bb];
    }

    method CreateReversePostOrder()
      requires WellFormed(g)
      modifies this`reversePostOrder, this`postOrderId
      ensures Numbering(g, reversePostOrder, postOrderId)
    {
      reversePostOrder, postOrderId := [], map[];
      EntryReachable(g);
      var seen := PostOrderVisit(0, {});
      ghost var done := reversePostOrder;
      ClosedHoldsReachable(g, seen);
      reversePostOrder := Reverse(reversePostOrder);
    }

    /** The lowest block on both chains, found by two fingers that climb in turn. */
    method Intersect(b1: nat, b2: nat) returns (r: nat)
      requires Linked(postOrderId, idom) && b1 in idom.known && b2 in idom.known
      ensures r in idom.known
      ensures Chain(postOrderId, idom, r) == Chain(postOrderId, idom, b1) * Chain(postOrderId, idom, b2)
    {
      ghost var id, l := postOrderId, idom;
      ghost var both := Chain(id, l, b1) * Chain(id, l, b2);
      var x, y := b1, b2;
      while x != y
        invariant x in l.known && y in l.known && Chain(id, l, x) * Chain(id, l, y) == both
        decreases 2 * id[0] - id[x] - id[y]
      {
        ghost var x0, y0 := x, y;
        while postOrderId[x] < postOrderId[y]
          invariant x in l.known && Chain(id, l, x) * Chain(id, l, y) == both
          invariant x == x0 || id[x0] < id[x]
          decreases id[0] - id[x]
        {
          FingerStep(id, l, x, y);
          x := idom.to[x];
        }
        while postOrderId[y] < postOrderId[x]
          invariant y in l.known && Chain(id, l, x) * Chain(id, l, y) == both
          invariant y == y0 || id[y0] < id[y]
          decreases id[0] - id[y]
        {
          FingerStep(id, l, y, x);
          y := idom.to[y];
        }
      }
      r := x;
    }

    /** The block where the chains of the linked predecessors of `bb` meet. */
    method MeetOfPreds(bb: nat) returns (r: nat)
      requires WellFormed(g) && Linked(postOrderId, idom) && bb < |g.pred|
      requires exists p: nat :: Edge(g, p, bb) && p in idom.known
      ensures r in idom.known
      ensures forall x :: x in Chain(postOrderId, idom, r) <==> Common(g, postOrderId, idom, x, bb)
    {
      var i := 0;
      while g.pred[bb][i] !in idom.known
        invariant 0 <= i < |g.pred[bb]|
        invariant forall j :: 0 <= j < i ==> g.pred[bb][j] !in idom.known
        decreases |g.pred[bb]| - i
      {
        i := i + 1;
      }
      var pred := g.pred[bb][i];
      r := pred;
      var j := 0;
      while j < |g.pred[bb]|
        invariant 0 <= j <= |g.pred[bb]| && r in idom.known
        invariant forall x :: x in Chain(postOrderId, idom, r) <==>
                    x in Chain(postOrderId, idom, pred)
                    && forall k {:trigger g.pred[bb][k]} :: 0 <= k < j && g.pred[bb][k] in idom.known ==>
                         x in Chain(postOrderId, idom, g.pred[bb][k])
      {
        var p := g.pred[bb][j];
        if p != pred && p in idom.known {
          r := Intersect(p, r);
        }
        j := j + 1;
      }
      assert Edge(g, pred, bb);
      forall x | x in Chain(postOrderId, idom, r) ensures Common(g, postOrderId, idom, x, bb) {
        forall p: nat {:trigger Edge(g, p, bb)} | Edge(g, p, bb) && p in idom.known
          ensures x in Chain(postOrderId, idom, p)
        {
          var k :| 0 <= k < |g.pred[bb]| && g.pred[bb][k] == p;
        }
      }
      forall x | Common(g, postOrderId, idom, x, bb) ensures x in Chain(postOrderId, idom, r) {
        forall k {:trigger g.pred[bb][k]} | 0 <= k < |g.pred[bb]| && g.pred[bb][k] in idom.known
          ensures x in Chain(postOrderId, idom, g.pred[bb][k])
        {
          assert Edge(g, g.pred[bb][k], bb);
        }
      }
    }

    /** One pass over the blocks in reverse post-order. */
    method IdomPass(ghost up: Links) returns (changed: bool)
      requires WellFormed(g) && Numbering(g, reversePostOrder, postOrderId)
      requires Pass(g, postOrderId, idom, up, |reversePostOrder|)
      modifies this`idom
      ensures Pass(g, postOrderId, idom, up, 0)
      ensures changed ==> Slack(postOrderId, idom, reversePostOrder) < Slack(postOrderId, old(idom), reversePostOrder)
      ensures !changed ==> idom == old(idom) && IsDomTree(g, postOrderId, idom)
    {
      ghost var id, order, l0 := postOrderId, reversePostOrder, idom;
      changed := false;
      var i := 0;
      while i < |reversePostOrder|
        invariant 0 <= i <= |order| && Pass(g, id, idom, up, |order| - i)
        invariant if changed then Slack(id, idom, order) < Slack(id, l0, order) else idom == l0
        invariant !changed ==> forall j :: 0 <= j < i && order[j] != 0 ==> Settled(g, id, l0, order[j])
      {
        var bb := reversePostOrder[i];
        if bb != 0 {
          ParentKnown(g, id, idom, up, bb);
          var newIdom := MeetOfPreds(bb);
          PassStep(g, id, idom, up, bb, newIdom, order);
          if !(bb in idom.known && idom.to[bb] == newIdom) {
            idom := idom.Set(bb, newIdom);
            changed := true;
          }
        }
        i := i + 1;
      }
      if !changed { PassEnds(g, order, id, idom, up); }
    }

    /** Iterates over the blocks until no immediate dominator changes. */
    method CreateIdom()
      requires WellFormed(g) && Numbering(g, reversePostOrder, postOrderId)
      modifies this`idom
      ensures IsDomTree(g, postOrderId, idom)
    {
      idom := Links({0}, seq(|g.succ|, _ => 0));
      ghost var up := MakeParents(g, reversePostOrder, postOrderId);
      FirstPass(g, reversePostOrder, postOrderId, idom, up);
      var changed := true;
      while changed
        invariant Pass(g, postOrderId, idom, up, |reversePostOrder|)
        invariant !changed ==> IsDomTree(g, postOrderId, idom)
        decreases Slack(postOrderId, idom, reversePostOrder), changed
      {
        changed := IdomPass(up);
      }
    }

    /** The runner loop for one predecessor `p` of the join `bb`. */
    method AddRunner(p: nat, bb: nat)
      requires WellFormed(g) && IsDomTree(g, postOrderId, idom) && Edge(g, p, bb)
      requires Reachable(g, bb) ==> Reachable(g, p)
      requires forall x, y: nat :: InMap(frontier, x, y) ==> y < |g.pred|
      modifies this`frontier
      ensures forall x, y: nat :: InMap(frontier, x, y) ==> y < |g.pred|
      ensures forall x: nat, y: nat :: x in idom.known ==>
                (InMap(frontier, x, y) <==> InMap(old(frontier), x, y)
                                            || (y == bb && OnRunner(postOrderId, idom, x, p, bb)))
    {
      ghost var id, l := postOrderId, idom;
      var stop := IdomOf(idom, bb);
      var runner: int := p;
      if p in l.known { IdomOnPredChain(g, id, l, p, bb); ChainIds(id, l, p); }
      while runner != stop
        invariant forall x, y: nat :: InMap(frontier, x, y) ==> y < |g.pred|
        invariant p in l.known ==> runner in Chain(id, l, p) && runner in l.known && stop in Chain(id, l, runner)
        invariant p in l.known ==> forall x: nat, y: nat :: x in l.known ==>
                    (InMap(frontier, x, y) <==>
                       InMap(old(frontier), x, y) || (y == bb && x in Chain(id, l, p) && x !in Chain(id, l, runner)))
        invariant p !in l.known ==> runner in {p, NULL} && forall x: nat, y: nat :: x in l.known ==>
                    (InMap(frontier, x, y) <==> InMap(old(frontier), x, y))
        decreases if runner in l.known then id[0] - id[runner] + 2 else if runner == p then 1 else 0
      {
        if p in l.known { RunnerStep(id, l, p, runner); }
        frontier := AddTo(frontier, runner, bb);
        runner := IdomOf(idom, runner);
      }
    }

    method CreateDominanceFrontier()
      requires WellFormed(g) && IsDomTree(g, postOrderId, idom)
      requires forall p: nat, y: nat {:trigger Edge(g, p, y)} ::
                 Edge(g, p, y) && |g.pred[y]| >= 2 && Reachable(g, y) ==> Reachable(g, p)
      modifies this`frontier
      ensures IsFrontier(g, postOrderId, idom, frontier)
      ensures forall x, y: nat :: InMap(frontier, x, y) ==> y < |g.pred|
    {
      hide IsDomTree, OnRunner, Reachable;
      DomTreeLinks(g, postOrderId, idom);
      frontier := map[];
      var bb := 0;
      while bb < |g.pred|
        invariant 0 <= bb <= |g.pred| && forall x, y: nat :: InMap(frontier, x, y) ==> y < |g.pred|
        invariant forall x: nat, y: nat {:trigger InMap(frontier, x, y)} :: x in idom.known ==>
                    (InMap(frontier, x, y) <==>
                       y < bb && |g.pred[y]| >= 2 && exists p: nat ::
                         Edge(g, p, y) && OnRunner(postOrderId, idom, x, p, y))
      {
        if |g.pred[bb]| >= 2 {
          ghost var f0 := frontier;
          var i := 0;
          while i < |g.pred[bb]|
            invariant 0 <= i <= |g.pred[bb]| && forall x, y: nat :: InMap(frontier, x, y) ==> y < |g.pred|
            invariant forall x: nat, y: nat {:trigger InMap(frontier, x, y)} :: x in idom.known ==>
                        (InMap(frontier, x, y) <==>
                           InMap(f0, x, y) || (y == bb && exists j {:trigger g.pred[bb][j]} ::
                                                 0 <= j < i && OnRunner(postOrderId, idom, x, g.pred[bb][j], bb)))
          {
            assert Edge(g, g.pred[bb][i], bb);
            AddRunner(g.pred[bb][i], bb);
            i := i + 1;
          }
          assert forall j {:trigger g.pred[bb][j]} :: 0 <= j < |g.pred[bb]| ==> Edge(g, g.pred[bb][j], bb);
        }
        bb := bb + 1;
      }
    }

    /** Children lists of the dominator tree. */
    method CreateDomTreeSucc()
      requires WellFormed(g) && IsDomTree(g, postOrderId, idom)
      modifies this`children
      ensures forall b, c: nat :: InMap(children, b, c) <==> c < |g.succ| && IdomOf(idom, c) == b && b != c
    {
      children := map[];
      var bb := 0;
      while bb < |g.succ|
        invariant 0 <= bb <= |g.succ|
        invariant forall b, c: nat :: InMap(children, b, c) <==> c < bb && IdomOf(idom, c) == b && b != c
      {
        var d := IdomOf(idom, bb);
        if d != bb {
          children := AddTo(children, d, bb);
        }
        bb := bb + 1;
      }
    }

    /** The whole analysis of one function. */
    method Run()
      requires WellFormed(g)
      requires forall p: nat, y: nat {:trigger Edge(g, p, y)} ::
                 Edge(g, p, y) && |g.pred[y]| >= 2 && Reachable(g, y) ==> Reachable(g, p)
      modifies this
      ensures Numbering(g, reversePostOrder, postOrderId)
      ensures IsDomTree(g, postOrderId, idom)
      ensures IsFrontier(g, postOrderId, idom, frontier)
      ensures forall x, y: nat :: InMap(frontier, x, y) ==> y < |g.succ|
      ensures forall b, c: nat :: InMap(children, b, c) <==> c < |g.succ| && IdomOf(idom, c) == b && b != c
    {
      CreateReversePostOrder();
      CreateIdom();
      CreateDominanceFrontier();
      CreateDomTreeSucc();
    }
  }

  lemma DomTreeLinks(g: Graph, id: map<int, nat>, l: Links)
    requires WellFormed(g) && IsDomTree(g, id, l)
    ensures Linked(id, l)
  {}

  function Reverse(s: seq<nat>): (r: seq<nat>)
    ensures |r| == |s| && forall i :: 0 <= i < |s| ==> r[i] == s[|s| - 1 - i]
  {
    if s == [] then [] else Reverse(s[1..]) + [s[0]]
  }
}

/** Control-flow graphs of one function. Block 0 is the entry block; `succ` and `pred` are the
    two lists a BasicBlock keeps, and they mirror each other. */
module Graph {

  datatype Graph = Graph(succ: seq<seq<nat>>, pred: seq<seq<nat>>)

  ghost predicate WellFormed(g: Graph) {
    && 0 < |g.succ| == |g.pred|
    && (forall a, i :: 0 <= a < |g.succ| && 0 <= i < |g.succ[a]| ==> g.succ[a][i] < |g.succ|)
    && (forall b, i :: 0 <= b < |g.pred| && 0 <= i < |g.pred[b]| ==> g.pred[b][i] < |g.succ|)
    && (forall a, b {:trigger b in g.succ[a]} {:trigger a in g.pred[b]} ::
          0 <= a < |g.succ| && 0 <= b < |g.succ| ==> (b in g.succ[a] <==> a in g.pred[b]))
  }

  ghost predicate Edge(g: Graph, a: nat, b: nat)
    requires WellFormed(g)
  {
    a < |g.succ| && b < |g.succ| && a in g.pred[b]
  }

  /** `p` is a walk from the entry block to `b`. */
  ghost predicate PathTo(g: Graph, p: seq<nat>, b: nat)
    requires WellFormed(g)
    decreases |p|
  {
    && p != []
    && p[|p| - 1] == b
    && (if |p| == 1 then b == 0 else
          Edge(g, p[|p| - 2], b) && PathTo(g, p[..|p| - 1], p[|p| - 2]))
  }

  ghost predicate Reachable(g: Graph, b: nat)
    requires WellFormed(g)
  {
    exists p :: PathTo(g, p, b)
  }

  /** `d` lies on every walk from the entry block to `b`. */
  ghost predicate Dominates(g: Graph, d: nat, b: nat)
    requires WellFormed(g)
  {
    forall p :: PathTo(g, p, b) ==> d in p
  }

  lemma ExtendPath(g: Graph, p: seq<nat>, a: nat, b: nat)
    requires WellFormed(g) && PathTo(g, p, a) && Edge(g, a, b)
    ensures PathTo(g, p + [b], b)
  {
    assert (p + [b])[..|p|] == p;
  }

  lemma EntryReachable(g: Graph)
    requires WellFormed(g)
    ensures Reachable(g, 0)
    ensures forall d :: Dominates(g, d, 0) ==> d == 0
  {
    assert PathTo(g, [0], 0);
  }

  lemma EdgeReachable(g: Graph, a: nat, b: nat)
    requires WellFormed(g) && Reachable(g, a) && Edge(g, a, b)
    ensures Reachable(g, b)
  {
    var p :| PathTo(g, p, a);
    ExtendPath(g, p, a, b);
  }

  /** A strict dominator of `b` dominates every predecessor of `b`. */
  lemma DominatesPred(g: Graph, d: nat, a: nat, b: nat)
    requires WellFormed(g) && Edge(g, a, b) && Dominates(g, d, b) && d != b
    ensures Dominates(g, d, a)
  {
    forall p | PathTo(g, p, a) ensures d in p {
      ExtendPath(g, p, a, b);
      assert d in p + [b];
    }
  }

  lemma PathInRange(g: Graph, p: seq<nat>, b: nat)
    requires WellFormed(g) && PathTo(g, p, b)
    ensures b < |g.succ|
  {}

  /** A set of blocks that holds the entry and is closed under successors holds every reachable block. */
  lemma {:induction false} ClosedHoldsPath(g: Graph, s: set<nat>, p: seq<nat>, b: nat)
    requires WellFormed(g) && 0 in s
    requires forall x, y :: x in s && Edge(g, x, y) ==> y in s
    requires PathTo(g, p, b)
    ensures b in s
    decreases |p|
  {
    if |p| > 1 {
      ClosedHoldsPath(g, s, p[..|p| - 1], p[|p| - 2]);
    }
  }

  lemma ClosedHoldsReachable(g: Graph, s: set<nat>)
    requires WellFormed(g) && 0 in s
    requires forall x, y :: x in s && Edge(g, x, y) ==> y in s
    ensures forall b :: Reachable(g, b) ==> b in s
  {
    forall b | Reachable(g, b) ensures b in s {
      var p :| PathTo(g, p, b);
      ClosedHoldsPath(g, s, p, b);
    }
  }
}

/** Joining the partitions of two predecessors: the meet of two equivalence relations. */
module GvnJoin {
  import opened IR
  import opened GvnExpr
  import opened GvnTransfer
  import opened GvnPass

  predicate SameClass(p: Partition, a: Operand, b: Operand) {
    exists k :: 0 <= k < |p| && a in p[k].members && b in p[k].members
  }

  ghost predicate Disjoint(p: Partition) {
    forall j, k :: 0 <= j < k < |p| ==> p[j].members !! p[k].members
  }

  predicate HasTop(p: Partition) {
    exists k :: 0 <= k < |p| && p[k].index == 0
  }

  predicate Meets(c1: Class, c2: Class, a: Operand, b: Operand) {
    a in c1.members && b in c1.members && a in c2.members && b in c2.members
  }

  /** The pairs before (i, j), row by row. */
  predicate Earlier(i: nat, j: nat, i0: nat, j0: nat) {
    i < i0 || (i == i0 && j < j0)
  }

  /** So far, two values share a class exactly when they share one in some pair before (i, j). */
  ghost predicate MeetUpTo(p1: Partition, p2: Partition, p: Partition, i0: nat, j0: nat) {
    && (forall a, b :: SameClass(p, a, b) ==> SameClass(p1, a, b) && SameClass(p2, a, b))
    && (forall i: nat, j: nat, a, b {:trigger Meets(p1[i], p2[j], a, b)} ::
          i < |p1| && j < |p2| && Earlier(i, j, i0, j0) && Meets(p1[i], p2[j], a, b) ==> SameClass(p, a, b))
    && (forall k :: 0 <= k < |p| ==> FromPair(p1, p2, p[k], i0, j0))
    && (Disjoint(p1) && Disjoint(p2) ==> Disjoint(p))
  }

  ghost predicate FromPair(p1: Partition, p2: Partition, c: Class, i0: nat, j0: nat) {
    exists i: nat, j: nat {:trigger Earlier(i, j, i0, j0)} ::
      i < |p1| && j < |p2| && Earlier(i, j, i0, j0) && c.members == p1[i].members * p2[j].members && c.members != {}
  }

  /** Classes from different pairs have no member in common. */
  lemma ApartFromEarlier(p1: Partition, p2: Partition, c: Class, i: nat, j: nat)
    requires i < |p1| && j < |p2| && Disjoint(p1) && Disjoint(p2) && FromPair(p1, p2, c, i, j)
    ensures c.members !! p1[i].members * p2[j].members
  {
    var x: nat, y: nat :| x < |p1| && y < |p2| && Earlier(x, y, i, j) && c.members == p1[x].members * p2[y].members
        && c.members != {};
    if x != i {
      assert p1[x].members !! p1[i].members;
    } else {
      assert p2[y].members !! p2[j].members;
    }
  }

  lemma MeetStep(p1: Partition, p2: Partition, p: Partition, i: nat, j: nat, c: Class)
    requires i < |p1| && j < |p2| && MeetUpTo(p1, p2, p, i, j) && c.members == p1[i].members * p2[j].members
             && c.members != {}
    ensures MeetUpTo(p1, p2, p + [c], i, j + 1)
  {
    var q := p + [c];
    forall a, b | SameClass(q, a, b) ensures SameClass(p1, a, b) && SameClass(p2, a, b) {
      var k :| 0 <= k < |q| && a in q[k].members && b in q[k].members;
      if k < |p| { assert SameClass(p, a, b); } else { assert a in p1[i].members && a in p2[j].members; }
    }
    forall x: nat, y: nat, a, b {:trigger Meets(p1[x], p2[y], a, b)} |
      x < |p1| && y < |p2| && Earlier(x, y, i, j + 1) && Meets(p1[x], p2[y], a, b) ensures SameClass(q, a, b)
    {
      if x == i && y == j {
        assert a in q[|p|].members && b in q[|p|].members;
      } else {
        assert Earlier(x, y, i, j) && SameClass(p, a, b);
        var k :| 0 <= k < |p| && a in p[k].members && b in p[k].members;
        assert a in q[k].members;
      }
    }
    forall k | 0 <= k < |q| ensures FromPair(p1, p2, q[k], i, j + 1) {
      if k < |p| { FromPairLater(p1, p2, p[k], i, j); } else { assert Earlier(i, j, i, j + 1); }
    }
    if Disjoint(p1) && Disjoint(p2) {
      forall k | 0 <= k < |p| ensures p[k].members !! c.members { ApartFromEarlier(p1, p2, p[k], i, j); }
    }
  }

  lemma FromPairLater(p1: Partition, p2: Partition, c: Class, i: nat, j: nat)
    requires FromPair(p1, p2, c, i, j)
    ensures FromPair(p1, p2, c, i, j + 1)
  {
    var x: nat, y: nat :| x < |p1| && y < |p2| && Earlier(x, y, i, j) && c.members == p1[x].members * p2[y].members
        && c.members != {};
    assert Earlier(x, y, i, j + 1);
  }

  lemma MeetSkip(p1: Partition, p2: Partition, p: Partition, i: nat, j: nat)
    requires i < |p1| && j < |p2| && MeetUpTo(p1, p2, p, i, j) && p1[i].members * p2[j].members == {}
    ensures MeetUpTo(p1, p2, p, i, j + 1)
  {
    forall x: nat, y: nat, a, b {:trigger Meets(p1[x], p2[y], a, b)} |
      x < |p1| && y < |p2| && Earlier(x, y, i, j + 1) && Meets(p1[x], p2[y], a, b) ensures SameClass(p, a, b)
    {
      assert a in p1[x].members * p2[y].members;
      assert Earlier(x, y, i, j);
    }
    forall k | 0 <= k < |p| ensures FromPair(p1, p2, p[k], i, j + 1) { FromPairLater(p1, p2, p[k], i, j); }
  }

  lemma MeetRow(p1: Partition, p2: Partition, p: Partition, i: nat)
    requires i < |p1| && MeetUpTo(p1, p2, p, i, |p2|)
    ensures MeetUpTo(p1, p2, p, i + 1, 0)
  {
    forall x: nat, y: nat, a, b {:trigger Meets(p1[x], p2[y], a, b)} |
      x < |p1| && y < |p2| && Earlier(x, y, i + 1, 0) && Meets(p1[x], p2[y], a, b) ensures SameClass(p, a, b)
    {
      assert Earlier(x, y, i, |p2|);
    }
    forall k | 0 <= k < |p| ensures FromPair(p1, p2, p[k], i + 1, 0) {
      assert FromPair(p1, p2, p[k], i, |p2|);
      var x: nat, y: nat :| x < |p1| && y < |p2| && Earlier(x, y, i, |p2|)
          && p[k].members == p1[x].members * p2[y].members && p[k].members != {};
      assert Earlier(x, y, i + 1, 0);
    }
  }

  lemma MeetAll(p1: Partition, p2: Partition, p: Partition)
    requires MeetUpTo(p1, p2, p, |p1|, 0)
    ensures forall a, b :: SameClass(p, a, b) <==> SameClass(p1, a, b) && SameClass(p2, a, b)
    ensures Disjoint(p1) && Disjoint(p2) ==> Disjoint(p)
  {
    forall a, b | SameClass(p1, a, b) && SameClass(p2, a, b) ensures SameClass(p, a, b) {
      var i: nat :| i < |p1| && a in p1[i].members && b in p1[i].members;
      var j: nat :| j < |p2| && a in p2[j].members && b in p2[j].members;
      assert Meets(p1[i], p2[j], a, b) && Earlier(i, j, |p1|, 0);
    }
  }

  class Joiner {
    var nextValueNumber: nat

    constructor ()
      ensures nextValueNumber == 1
    {
      nextValueNumber := 1;
    }

    /** The common members of two classes, under a fresh number; number 0 when there are none and the
        expressions differ. */
    method Intersect(ci: Class, cj: Class) returns (c: Class)
      requires nextValueNumber > 0
      modifies this
      ensures c.members == ci.members * cj.members
      ensures c.members != {} ==> c.index == old(nextValueNumber) && nextValueNumber == old(nextValueNumber) + 1
      ensures old(nextValueNumber) <= nextValueNumber
      ensures Equiv(ci.expr, cj.expr) ==> c.expr == ci.expr && c.leader == ci.leader
      ensures !Equiv(ci.expr, cj.expr) && c.members != {} ==> c.leader in c.members
                                                              && c.expr == PhiE(c.leader, ci.expr, cj.expr)
    {
      hide Equiv;
      if Equiv(ci.expr, cj.expr) {
        c := Class(nextValueNumber, ci.leader, ci.expr, {});
        nextValueNumber := nextValueNumber + 1;
      } else {
        c := Class(0, ci.leader, ci.expr, {});
      }
      var todo := ci.members;
      while todo != {}
        invariant todo <= ci.members && c.members == (ci.members - todo) * cj.members
        invariant c.index == (if Equiv(ci.expr, cj.expr) then old(nextValueNumber) else 0) && c.expr == ci.expr
                  && c.leader == ci.leader
      {
        var m :| m in todo;
        if m in cj.members {
          c := c.(members := c.members + {m});
        }
        todo := todo - {m};
      }
      if c.members != {} && c.index == 0 {
        var first :| first in c.members;
        c := Class(nextValueNumber, first, PhiE(first, ci.expr, cj.expr), c.members);
        nextValueNumber := nextValueNumber + 1;
      }
    }

    /** The top partition is neutral; otherwise two values share a class in the result exactly when they
        share one in both inputs, and no class is lost to a number that is in use. */
    method Join(p1: Partition, p2: Partition) returns (p: Partition)
      requires nextValueNumber > 0
      modifies this
      ensures p1 == [] || p2 == [] ==> p == []
      ensures p1 != [] && p2 != [] && HasTop(p1) ==> p == p2
      ensures p1 != [] && p2 != [] && !HasTop(p1) && HasTop(p2) ==> p == p1
      ensures !HasTop(p1) && !HasTop(p2) ==>
                && (forall a, b :: SameClass(p, a, b) <==> SameClass(p1, a, b) && SameClass(p2, a, b))
                && (Disjoint(p1) && Disjoint(p2) ==> Disjoint(p))
                && InOrder(p, nextValueNumber) && (forall k :: 0 <= k < |p| ==>
                                                     p[k].members != {} && old(nextValueNumber) <= p[k].index)
    {
      if p1 == [] || p2 == [] {
        return [];
      }
      var t := 0;
      while t < |p1|
        invariant 0 <= t <= |p1| && forall k :: 0 <= k < t ==> p1[k].index != 0
      {
        if p1[t].index == 0 {
          return p2;
        }
        t := t + 1;
      }
      t := 0;
      while t < |p2|
        invariant 0 <= t <= |p2| && forall k :: 0 <= k < t ==> p2[k].index != 0
      {
        if p2[t].index == 0 {
          return p1;
        }
        t := t + 1;
      }
      hide MeetUpTo, Equiv;
      p := JoinPairs(p1, p2);
      MeetAll(p1, p2, p);
    }

    method JoinPairs(p1: Partition, p2: Partition) returns (p: Partition)
      requires nextValueNumber > 0
      modifies this
      ensures MeetUpTo(p1, p2, p, |p1|, 0) && InOrder(p, nextValueNumber)
      ensures forall k :: 0 <= k < |p| ==> p[k].members != {} && old(nextValueNumber) <= p[k].index
    {
      hide Equiv;
      p := [];
      var i := 0;
      while i < |p1|
        invariant 0 <= i <= |p1| && MeetUpTo(p1, p2, p, i, 0)
        invariant InOrder(p, nextValueNumber) && 0 < old(nextValueNumber) <= nextValueNumber
        invariant forall k :: 0 <= k < |p| ==> p[k].members != {} && old(nextValueNumber) <= p[k].index
      {
        p := JoinRow(p1, p2, i, p);
        MeetRow(p1, p2, p, i);
        i := i + 1;
      }
    }

    method JoinRow(p1: Partition, p2: Partition, i: nat, p0: Partition) returns (p: Partition)
      requires i < |p1| && MeetUpTo(p1, p2, p0, i, 0) && InOrder(p0, nextValueNumber) && nextValueNumber > 0
      requires forall k :: 0 <= k < |p0| ==> p0[k].members != {}
      modifies this
      ensures MeetUpTo(p1, p2, p, i, |p2|) && InOrder(p, nextValueNumber) && old(nextValueNumber) <= nextValueNumber
      ensures |p0| <= |p| && p[..|p0|] == p0
      ensures forall k :: 0 <= k < |p| ==> p[k].members != {} && (k >= |p0| ==> old(nextValueNumber) <= p[k].index)
    {
      hide MeetUpTo, Equiv, Insert;
      p := p0;
      var j := 0;
      while j < |p2|
        invariant 0 <= j <= |p2| && MeetUpTo(p1, p2, p, i, j)
        invariant InOrder(p, nextValueNumber) && 0 < old(nextValueNumber) <= nextValueNumber && |p0| <= |p|
                  && p[..|p0|] == p0
        invariant forall k :: 0 <= k < |p| ==> p[k].members != {} && (k >= |p0| ==> old(nextValueNumber) <= p[k].index)
      {
        var c := Intersect(p1[i], p2[j]);
        if c.members != {} {
          InsertFresh(p, c);
          p := Insert(p, c);
          MeetStep(p1, p2, p[..|p| - 1], i, j, c);
          assert p == p[..|p| - 1] + [c];
        } else {
          MeetSkip(p1, p2, p, i, j);
        }
        j := j + 1;
      }
    }
  }
}

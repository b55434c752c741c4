/** Where phis go: the iterated dominance frontier of the blocks that store a variable. */
module PhiSites {
  import opened DomTree
  import opened IR
  import opened Renaming
  import opened Promotion

  /** `T` holds the frontier of the stores and is closed under the frontier. */
  ghost predicate ClosedDF(f: map<int, set<nat>>, stores: set<nat>, T: set<nat>) {
    forall x: nat, y: nat {:trigger InMap(f, x, y)} :: (x in stores || x in T) && InMap(f, x, y) ==> y in T
  }

  /** The least such set. */
  ghost predicate IsIdf(f: map<int, set<nat>>, stores: set<nat>, sites: set<nat>) {
    ClosedDF(f, stores, sites) && forall T: set<nat> :: ClosedDF(f, stores, T) ==> sites <= T
  }

  function StoreBlocks(c: Ctx, bodies: seq<seq<Instr>>, v: nat): set<nat> {
    set b: nat | b < |bodies| && HasStore(c, bodies[b], v)
  }

  function PhiBlocks(phis: seq<seq<Phi>>, v: nat): set<nat> {
    set b: nat | b < |phis| && HasPhi(phis[b], v)
  }

  /** Phis have registers of their own, in `limit..next`, and no operands yet. */
  ghost predicate FreshPhis(phis: seq<seq<Phi>>, limit: nat, next: nat) {
    && limit <= next
    && (forall b, k :: 0 <= b < |phis| && 0 <= k < |phis[b]| ==> limit <= phis[b][k].dst < next
                                                                 && phis[b][k].pairs == [])
    && (forall a, j, b, k {:trigger phis[a][j].dst, phis[b][k].dst} ::
          0 <= a < |phis| && 0 <= j < |phis[a]| && 0 <= b < |phis| && 0 <= k < |phis[b]| ==>
          phis[a][j].dst == phis[b][k].dst ==> a == b && j == k)
  }

  /** No block has two phis for one variable. */
  ghost predicate OnePhiEach(phis: seq<seq<Phi>>) {
    forall b, j, k :: 0 <= b < |phis| && 0 <= j < k < |phis[b]| ==> phis[b][j].lval != phis[b][k].lval
  }

  function AddPhi(phis: seq<seq<Phi>>, b: nat, d: nat, v: nat): seq<seq<Phi>>
    requires b < |phis|
  {
    phis[b := [Phi(d, v, [])] + phis[b]]
  }

  lemma AddPhiFresh(phis: seq<seq<Phi>>, limit: nat, next: nat, b: nat, v: nat)
    requires FreshPhis(phis, limit, next) && OnePhiEach(phis) && b < |phis| && !HasPhi(phis[b], v)
    ensures FreshPhis(AddPhi(phis, b, next, v), limit, next + 1)
    ensures OnePhiEach(AddPhi(phis, b, next, v))
  {
    var q := AddPhi(phis, b, next, v);
    assert q[b][0] == Phi(next, v, []);
    assert forall k :: 1 <= k < |q[b]| ==> q[b][k] == phis[b][k - 1];
    forall x, k | 0 <= x < |q| && 0 <= k < |q[x]| ensures limit <= q[x][k].dst < next + 1 && q[x][k].pairs == [] {}
    forall a, j, x, k | 0 <= a < |q| && 0 <= j < |q[a]| && 0 <= x < |q| && 0 <= k < |q[x]| && q[a][j].dst == q[x][k].dst
      ensures a == x && j == k
    {
      var j0, k0 := if a == b then j - 1 else j, if x == b then k - 1 else k;
      if j0 >= 0 && k0 >= 0 { assert phis[a][j0].dst == phis[x][k0].dst; }
    }
  }

  lemma AddPhiHas(phis: seq<seq<Phi>>, next: nat, b: nat, v: nat)
    requires b < |phis|
    ensures forall x: nat, u :: x < |phis| ==> (HasPhi(AddPhi(phis, b, next, v)[x], u) <==>
                                                  HasPhi(phis[x], u) || (x == b && u == v))
  {
    var q := AddPhi(phis, b, next, v);
    forall u ensures HasPhi(q[b], u) <==> HasPhi(phis[b], u) || u == v {
      if k :| 0 <= k < |phis[b]| && phis[b][k].lval == u { assert q[b][k + 1].lval == u; }
      assert q[b][0].lval == v;
    }
  }

  lemma PhiBlocksAfter(phis0: seq<seq<Phi>>, phis: seq<seq<Phi>>, v: nat, sites: set<nat>)
    requires |phis| == |phis0| && forall x :: x in sites ==> x < |phis|
    requires forall b: nat, u: nat :: b < |phis| ==> (HasPhi(phis[b], u) <==>
                                                        HasPhi(phis0[b], u) || (b in sites && u == v))
    requires PhiBlocks(phis0, v) == {}
    ensures PhiBlocks(phis, v) == sites
    ensures forall u: nat {:trigger PhiBlocks(phis, u)} :: u != v ==> PhiBlocks(phis, u) == PhiBlocks(phis0, u)
  {
    assert forall b: nat :: b < |phis| ==> (b in PhiBlocks(phis0, v) <==> HasPhi(phis0[b], v));
  }

  predicate InLive(live: map<nat, set<nat>>, v: nat, b: nat) {
    v in live && b in live[v]
  }

  function AddLive(live: map<nat, set<nat>>, u: nat, b: nat): (live': map<nat, set<nat>>)
    ensures forall v: nat, x: nat :: InLive(live', v, x) <==> InLive(live, v, x) || (v == u && x == b)
  {
    var blocks := (if u in live then live[u] else {}) + {b};
    assert forall x: nat :: x in blocks <==> InLive(live, u, x) || x == b;
    live[u := blocks]
  }

  lemma HasStoreSnoc(c: Ctx, body: seq<Instr>, i: nat)
    requires i < |body|
    ensures forall v: nat :: HasStore(c, body[..i + 1], v) <==> HasStore(c, body[..i], v)
                                                                || (PromotedStore(c, body[i]) && body[i].ptr.r == v)
  {
    assert body[..i + 1] == body[..i] + [body[i]];
    forall v: nat
      ensures HasStore(c, body[..i + 1], v) <==> HasStore(c, body[..i], v)
                                                 || (PromotedStore(c, body[i]) && body[i].ptr.r == v)
    {
      if x :| x in body[..i + 1] && PromotedStore(c, x) && x.ptr.r == v { assert x in body[..i] || x == body[i]; }
      assert body[i] in body[..i + 1] && forall x :: x in body[..i] ==> x in body[..i + 1];
    }
  }

  class PhiInserter {
    const c: Ctx
    const frontier: map<int, set<nat>>
    const bodies: seq<seq<Instr>>
    var phis: seq<seq<Phi>>
    var next: nat

    constructor (c: Ctx, frontier: map<int, set<nat>>, bodies: seq<seq<Instr>>)
      ensures this.c == c && this.frontier == frontier && this.bodies == bodies
      ensures |phis| == |bodies| && next == c.limit && forall b :: 0 <= b < |phis| ==> phis[b] == []
    {
      this.c, this.frontier, this.bodies := c, frontier, bodies;
      phis, next := seq(|bodies|, _ => []), c.limit;
    }

    /** The blocks that store each variable. */
    method CollectStores() returns (live: map<nat, set<nat>>)
      ensures forall v: nat, b: nat :: InLive(live, v, b) <==> b in StoreBlocks(c, bodies, v)
      ensures forall v :: v in live ==> live[v] != {}
    {
      live := map[];
      var b := 0;
      while b < |bodies|
        invariant 0 <= b <= |bodies|
        invariant forall v: nat, x: nat :: InLive(live, v, x) <==> x < b && HasStore(c, bodies[x], v)
        invariant forall v :: v in live ==> live[v] != {}
      {
        var i := 0;
        ghost var live0 := live;
        while i < |bodies[b]|
          invariant 0 <= i <= |bodies[b]|
          invariant forall v: nat, x: nat :: InLive(live, v, x) <==>
                      (x < b && HasStore(c, bodies[x], v)) || (x == b && HasStore(c, bodies[b][..i], v))
          invariant forall v :: v in live ==> live[v] != {}
        {
          var instr := bodies[b][i];
          HasStoreSnoc(c, bodies[b], i);
          if PromotedStore(c, instr) {
            live := AddLive(live, instr.ptr.r, b);
          }
          i := i + 1;
        }
        assert bodies[b][..i] == bodies[b];
        b := b + 1;
      }
      forall v: nat, x: nat ensures InLive(live, v, x) <==> x in StoreBlocks(c, bodies, v) {}
    }

    /** The worklist for one variable; `steps` counts the blocks that were on it. */
    method PlacePhis(v: nat, stores: set<nat>) returns (steps: nat, ghost sites: set<nat>)
      requires forall x :: x in stores ==> x < |phis|
      requires forall x: nat, y: nat :: x < |phis| && InMap(frontier, x, y) ==> y < |phis|
      requires FreshPhis(phis, c.limit, next) && OnePhiEach(phis)
      requires forall b: nat :: b < |phis| ==> !HasPhi(phis[b], v)
      modifies this`phis, this`next
      ensures IsIdf(frontier, stores, sites) && steps == |stores| + |sites|
      ensures forall x :: x in sites ==> x < |phis|
      ensures |phis| == |old(phis)| && FreshPhis(phis, c.limit, next) && OnePhiEach(phis)
      ensures forall b: nat, u :: b < |phis| ==> (HasPhi(phis[b], u) <==>
                                                    HasPhi(old(phis)[b], u) || (b in sites && u == v))
    {
      var work := SetToSeq(stores);
      sites := {};
      var i := 0;
      while i < |work|
        invariant 0 <= i <= |work| == |stores| + |sites|
        invariant forall x :: x in work <==> x in stores || x in sites
        invariant forall x :: x in sites ==> x < |phis|
        invariant forall j, y: nat {:trigger InMap(frontier, work[j], y)} ::
                    0 <= j < i && InMap(frontier, work[j], y) ==> y in sites
        invariant forall T: set<nat> :: ClosedDF(frontier, stores, T) ==> sites <= T
        invariant |phis| == |old(phis)| && FreshPhis(phis, c.limit, next) && OnePhiEach(phis)
        invariant forall b: nat, u :: b < |phis| ==> (HasPhi(phis[b], u) <==>
                                                        HasPhi(old(phis)[b], u) || (b in sites && u == v))
        decreases Blocks(|phis|) - sites, |work| - i
      {
        var bb := work[i];
        ghost var sites0 := sites;
        work, sites := PlaceAtFrontier(v, stores, sites, work, bb);
        if sites != sites0 {
          var y :| y in sites && y !in sites0;
          assert y in Blocks(|phis|) - sites0 && y !in Blocks(|phis|) - sites;
        }
        i := i + 1;
      }
      steps := |work|;
      forall x: nat, y: nat | (x in stores || x in sites) && InMap(frontier, x, y) ensures y in sites {
        assert x in work;
        var j :| 0 <= j < |work| && work[j] == x;
        assert InMap(frontier, work[j], y);
      }
    }

    /** Gives a phi for `v` to every block in the frontier of `bb` that has none yet. */
    method PlaceAtFrontier(v: nat, ghost stores: set<nat>, ghost sites: set<nat>, work: seq<nat>, bb: nat)
      returns (work': seq<nat>, ghost sites': set<nat>)
      requires (bb in stores || bb in sites) && bb < |phis|
      requires forall x :: x in sites ==> x < |phis|
      requires forall x :: x in work <==> x in stores || x in sites
      requires forall x: nat, y: nat :: x < |phis| && InMap(frontier, x, y) ==> y < |phis|
      requires forall T: set<nat> :: ClosedDF(frontier, stores, T) ==> sites <= T
      requires FreshPhis(phis, c.limit, next) && OnePhiEach(phis)
      requires forall b: nat :: b < |phis| ==> (HasPhi(phis[b], v) <==> b in sites)
      modifies this`phis, this`next
      ensures work <= work' && |work'| - |work| == |sites'| - |sites|
      ensures sites <= sites' && forall x :: x in sites' ==> x < |phis|
      ensures forall x :: x in work' <==> x in stores || x in sites'
      ensures forall y: nat :: InMap(frontier, bb, y) ==> y in sites'
      ensures forall T: set<nat> :: ClosedDF(frontier, stores, T) ==> sites' <= T
      ensures |phis| == |old(phis)| && FreshPhis(phis, c.limit, next) && OnePhiEach(phis)
      ensures forall b: nat, u :: b < |phis| ==> (HasPhi(phis[b], u) <==>
                                                    HasPhi(old(phis)[b], u) || (b in sites' && u == v))
    {
      work', sites' := work, sites;
      var todo := if bb in frontier then frontier[bb] else {};
      while todo != {}
        invariant forall y :: y in todo ==> InMap(frontier, bb, y)
        invariant forall y: nat :: InMap(frontier, bb, y) ==> y in todo || y in sites'
        invariant work <= work' && |work'| - |work| == |sites'| - |sites|
        invariant sites <= sites' && forall x :: x in sites' ==> x < |phis|
        invariant forall x :: x in work' <==> x in stores || x in sites'
        invariant forall T: set<nat> :: ClosedDF(frontier, stores, T) ==> sites' <= T
        invariant |phis| == |old(phis)| && FreshPhis(phis, c.limit, next) && OnePhiEach(phis)
        invariant forall b: nat, u :: b < |phis| ==> (HasPhi(phis[b], u) <==>
                                                        HasPhi(old(phis)[b], u) || (b in sites' && u == v))
      {
        var y :| y in todo;
        todo := todo - {y};
        assert InMap(frontier, bb, y);
        if !HasPhi(phis[y], v) {
          AddPhiFresh(phis, c.limit, next, y, v);
          AddPhiHas(phis, next, y, v);
          phis := AddPhi(phis, y, next, v);
          next := next + 1;
          work', sites' := work' + [y], sites' + {y};
        }
      }
    }

    /** The same, in terms of the blocks that hold a phi for each variable. */
    method PlaceVariable(v: nat, stores: set<nat>) returns (steps: nat)
      requires forall x :: x in stores ==> x < |phis|
      requires forall x: nat, y: nat :: x < |phis| && InMap(frontier, x, y) ==> y < |phis|
      requires FreshPhis(phis, c.limit, next) && OnePhiEach(phis) && PhiBlocks(phis, v) == {}
      modifies this`phis, this`next
      ensures |phis| == |old(phis)| && FreshPhis(phis, c.limit, next) && OnePhiEach(phis)
      ensures IsIdf(frontier, stores, PhiBlocks(phis, v)) && steps == |stores| + |PhiBlocks(phis, v)|
      ensures forall u: nat {:trigger PhiBlocks(phis, u)} :: u != v ==> PhiBlocks(phis, u) == PhiBlocks(old(phis), u)
    {
      ghost var phis0 := phis;
      assert forall b: nat :: b < |phis| && HasPhi(phis[b], v) ==> b in PhiBlocks(phis, v);
      ghost var sites;
      steps, sites := PlacePhis(v, stores);
      PhiBlocksAfter(phis0, phis, v, sites);
    }

    /** Phis for all variables. */
    method GeneratePhi()
      requires |phis| == |bodies| && next == c.limit && forall b :: 0 <= b < |phis| ==> phis[b] == []
      requires forall x: nat, y: nat :: x < |phis| && InMap(frontier, x, y) ==> y < |phis|
      modifies this`phis, this`next
      ensures |phis| == |bodies| && FreshPhis(phis, c.limit, next) && OnePhiEach(phis)
      ensures forall v: nat :: IsIdf(frontier, StoreBlocks(c, bodies, v), PhiBlocks(phis, v))
    {
      var live := CollectStores();
      var todo := live.Keys;
      while todo != {}
        invariant |phis| == |bodies| && FreshPhis(phis, c.limit, next) && OnePhiEach(phis)
        invariant todo <= live.Keys
        invariant forall v: nat {:trigger PhiBlocks(phis, v)} :: v in todo ==> PhiBlocks(phis, v) == {}
        invariant forall v: nat {:trigger PhiBlocks(phis, v)} :: v !in todo ==>
                    IsIdf(frontier, StoreBlocks(c, bodies, v), PhiBlocks(phis, v))
      {
        var v :| v in todo;
        todo := todo - {v};
        assert forall b: nat :: InLive(live, v, b) <==> b in live[v];
        assert live[v] == StoreBlocks(c, bodies, v);
        var _ := PlaceVariable(v, live[v]);
      }
    }
  }

  function Blocks(n: nat): (s: set<nat>)
    ensures forall b: nat :: b in s <==> b < n
  {
    if n == 0 then {} else Blocks(n - 1) + {n - 1}
  }

  method SetToSeq(s: set<nat>) returns (q: seq<nat>)
    ensures |q| == |s| && forall x :: x in q <==> x in s
  {
    q := [];
    var rest := s;
    while rest != {}
      invariant rest <= s && |q| == |s| - |rest|
      invariant forall x :: x in q <==> x in s && x !in rest
    {
      var x :| x in rest;
      q, rest := q + [x], rest - {x};
    }
  }
}

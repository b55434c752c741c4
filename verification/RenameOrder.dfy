/** The orders in which the renaming walk may visit blocks, and when one of them stops it. */
module RenameOrder {
  import opened Graph
  import opened DomTree
  import opened IR
  import opened Renaming
  import opened Promotion
  import opened RenameStacks
  import opened RenameTree

  function Members(order: seq<nat>): set<nat> {
    set x | x in order
  }

  // ----- depth-first orders ------------------------------------------------------------------------------------------

  /** The blocks of `s` in this order are the beginning of a depth-first walk over the dominator tree: a
      block comes once, after its immediate dominator, and a subtree is left only when all of it has been
      visited. */
  ghost predicate Walked(m: Ssa, s: seq<nat>)
    requires Input(m)
  {
    && (forall i :: 0 <= i < |s| ==> Live(m, s[i]) && IdomBefore(m, s, i))
    && (forall i, j :: 0 <= i < j < |s| ==> s[i] != s[j] && LeftWhole(m, s, i, j))
  }

  ghost predicate IdomBefore(m: Ssa, s: seq<nat>, i: nat)
    requires Input(m) && i < |s| && Live(m, s[i])
  {
    s[i] == 0 || (m.l.to[s[i]] >= 0 && m.l.to[s[i]] in s[..i])
  }

  /** Block `s[j]` lies below `s[i]`, or everything below `s[i]` comes before it. */
  ghost predicate LeftWhole(m: Ssa, s: seq<nat>, i: nat, j: nat)
    requires Input(m) && i < j < |s|
  {
    Live(m, s[j]) && (s[i] in Chain(m.id, m.l, s[j]) || Subtree(m, s[i]) <= Members(s[..j]))
  }

  /** Block `b` may come next. */
  lemma WalkedSnoc(m: Ssa, s: seq<nat>, b: nat)
    requires Input(m) && Walked(m, s) && Live(m, b) && b !in s && (b == 0 || (m.l.to[b] >= 0 && m.l.to[b] in s))
    requires forall y: nat :: y in s ==> y in Chain(m.id, m.l, b) || Subtree(m, y) <= Members(s)
    ensures Walked(m, s + [b])
  {
    hide Input, Chain, Subtree, LeftWhole, IdomBefore;
    var t := s + [b];
    forall i | 0 <= i < |t| ensures Live(m, t[i]) && IdomBefore(m, t, i) {
      if i < |s| { OlderIdom(m, s, b, i); } else { LastIdom(m, s, b); }
    }
    forall i, j | 0 <= i < j < |t| ensures t[i] != t[j] && LeftWhole(m, t, i, j) {
      if j < |s| { OlderLeft(m, s, b, i, j); } else { LastLeft(m, s, b, i); }
    }
  }

  lemma OlderIdom(m: Ssa, s: seq<nat>, b: nat, i: nat)
    requires Input(m) && i < |s| && Live(m, s[i]) && IdomBefore(m, s, i)
    ensures IdomBefore(m, s + [b], i)
  {
    hide Input;
    assert (s + [b])[..i] == s[..i];
  }

  lemma LastIdom(m: Ssa, s: seq<nat>, b: nat)
    requires Input(m) && Live(m, b) && (b == 0 || (m.l.to[b] >= 0 && m.l.to[b] in s))
    ensures IdomBefore(m, s + [b], |s|)
  {
    hide Input;
    assert (s + [b])[..|s|] == s;
  }

  lemma OlderLeft(m: Ssa, s: seq<nat>, b: nat, i: nat, j: nat)
    requires Input(m) && i < j < |s| && LeftWhole(m, s, i, j)
    ensures LeftWhole(m, s + [b], i, j)
  {
    hide Input, Chain, Subtree;
    assert (s + [b])[..j] == s[..j];
  }

  lemma LastLeft(m: Ssa, s: seq<nat>, b: nat, i: nat)
    requires Input(m) && Live(m, b) && i < |s|
    requires s[i] in Chain(m.id, m.l, b) || Subtree(m, s[i]) <= Members(s)
    ensures LeftWhole(m, s + [b], i, |s|)
  {
    hide Input, Chain, Subtree;
    assert (s + [b])[..|s|] == s;
  }

  lemma WalkedPrefix(m: Ssa, s: seq<nat>, k: nat)
    requires Input(m) && Walked(m, s) && k <= |s|
    ensures Walked(m, s[..k])
  {
    hide Input;
    var t := s[..k];
    forall i | 0 <= i < |t| ensures Live(m, t[i]) && IdomBefore(m, t, i) {
      assert IdomBefore(m, s, i) && t[..i] == s[..i];
    }
    forall i, j | 0 <= i < j < |t| ensures t[i] != t[j] && LeftWhole(m, t, i, j) {
      assert LeftWhole(m, s, i, j) && t[..j] == s[..j];
    }
  }

  lemma WalkedNext(m: Ssa, s: seq<nat>, b: nat)
    requires Input(m) && Walked(m, s + [b])
    ensures Live(m, b) && b !in s && (b == 0 || (m.l.to[b] >= 0 && m.l.to[b] in s))
  {
    hide Input, LeftWhole;
    var t := s + [b];
    assert t[|s|] == b && t[..|s|] == s && IdomBefore(m, t, |s|);
    forall i | 0 <= i < |s| ensures s[i] != b { assert t[i] == s[i]; }
  }

  /** Block `b` leaves the subtree of `y` only when it has been visited. */
  lemma WalkedLeaves(m: Ssa, s: seq<nat>, b: nat, y: nat)
    requires Input(m) && Walked(m, s + [b]) && y in s
    ensures Live(m, b) && (y in Chain(m.id, m.l, b) || Subtree(m, y) <= Members(s))
  {
    hide Input, IdomBefore, Subtree, Chain;
    var t := s + [b];
    var i :| 0 <= i < |s| && s[i] == y;
    assert t[i] == y && t[|s|] == b && t[..|s|] == s && LeftWhole(m, t, i, |s|);
  }

  /** Everything below a visited block other than `b` whose subtree is under way has been visited. */
  lemma BelowDone(m: Ssa, b: nat, todo: set<nat>, y: nat)
    requires Input(m) && Live(m, b) && y in Under(m, b, todo) && y != b && forall c :: c in todo ==> ChildOf(m, b, c)
    ensures Subtree(m, y) <= Under(m, b, todo)
  {
    hide DefsUnique, BodyOk, IsFrontier, Dominates;
    ChainIds(m.id, m.l, y);
    forall z: nat | z in Subtree(m, y) ensures z in Under(m, b, todo) {
      ChainNested(m.id, m.l, y, z);
      forall c: nat | c in todo ensures c !in Chain(m.id, m.l, z) {
        if c in Chain(m.id, m.l, z) {
          ChildBelow(m, b, c);
          if m.id[c] <= m.id[y] {
            ChainLinear(m.id, m.l, c, y, z);
            assert y == c || y in Chain(m.id, m.l, b);
            ChainIds(m.id, m.l, b);
            ChainIds(m.id, m.l, c);
            assert false;
          } else {
            ChainLinear(m.id, m.l, y, c, z);
            assert false;
          }
        }
      }
    }
  }

  /** The next child of `b` may come next. */
  lemma ChildNext(m: Ssa, before: seq<nat>, b: nat, s: seq<nat>, todo: set<nat>, x: nat)
    requires Input(m) && Walked(m, before + [b]) && Walked(m, s) && before + [b] <= s
    requires Members(s) == Members(before) + Under(m, b, todo)
    requires x in todo && x !in s && forall c :: c in todo ==> ChildOf(m, b, c)
    ensures Walked(m, s + [x])
  {
    hide Input, Walked, Chain, Subtree, Under;
    WalkedNext(m, before, b);
    InTree(m, b);
    ChildIsBelow(m, b, x);
    InTree(m, x);
    assert b in s by { assert s[|before|] == b; }
    forall y: nat | y in s ensures y in Chain(m.id, m.l, x) || Subtree(m, y) <= Members(s) {
      ChildLeaves(m, before, b, s, todo, x, y);
    }
    WalkedSnoc(m, s, x);
  }

  lemma ChildIsBelow(m: Ssa, b: nat, c: nat)
    requires Input(m) && Live(m, b) && |m.l.to| == |m.orig| && ChildOf(m, b, c)
    ensures Live(m, c) && m.l.to[c] == b && b in Chain(m.id, m.l, c)
    ensures Chain(m.id, m.l, c) == {c as int} + Chain(m.id, m.l, b)
  {
    hide DefsUnique, BodyOk, IsFrontier, Dominates;
    ChildBelow(m, b, c);
  }

  lemma ChildLeaves(m: Ssa, before: seq<nat>, b: nat, s: seq<nat>, todo: set<nat>, x: nat, y: nat)
    requires Input(m) && Live(m, b) && Walked(m, before + [b])
    requires Members(s) == Members(before) + Under(m, b, todo)
    requires x in todo && (forall c :: c in todo ==> ChildOf(m, b, c)) && y in s
    ensures Live(m, x) && (y in Chain(m.id, m.l, x) || Subtree(m, y) <= Members(s))
  {
    hide Input, Walked, Chain, Subtree, Under;
    InTree(m, b);
    ChildIsBelow(m, b, x);
    assert y in Members(s);
    if y in before {
      WalkedLeaves(m, before, b, y);
    } else if y != b {
      BelowDone(m, b, todo, y);
    }
  }

  lemma WalkedStart(m: Ssa)
    requires Input(m)
    ensures Walked(m, [0]) && Walked(m, [])
  {}

  // ----- orders that stop the walk ---------------------------------------------------------------------------

  /** From position `from` on, no block of `order` uses a variable without a value. */
  ghost predicate NoClash(m: Ssa, order: seq<nat>, from: nat) {
    Input(m) && forall k: nat {:trigger ClashAt(m, order, k)} :: from <= k < |order| ==> !ClashAt(m, order, k)
  }

  lemma OneMore(m: Ssa, order: seq<nat>, bb: nat)
    requires Input(m)
    ensures NoClash(m, order + [bb], |order|) <==> !Clash(m, Members(order), bb)
    ensures Members(order + [bb]) == Members(order) + {bb}
  {
    hide Input, Clash;
    assert (order + [bb])[..|order|] == order;
    assert ClashAt(m, order + [bb], |order|) <==> Clash(m, Members(order), bb);
  }

  lemma MoreClashes(m: Ssa, order: seq<nat>, order': seq<nat>, from: nat)
    requires Input(m) && order <= order' && from <= |order|
    ensures NoClash(m, order', from) <==> NoClash(m, order, from) && NoClash(m, order', |order|)
  {
    hide Input, Clash;
    forall k: nat | k < |order| ensures ClashAt(m, order', k) <==> ClashAt(m, order, k) {
      assert order'[..k] == order[..k];
    }
    if NoClash(m, order', from) {
      forall k: nat {:trigger ClashAt(m, order, k)} | from <= k < |order| ensures !ClashAt(m, order, k) {
        assert !ClashAt(m, order', k);
      }
    }
    if NoClash(m, order, from) && NoClash(m, order', |order|) {
      forall k: nat {:trigger ClashAt(m, order', k)} | from <= k < |order'| ensures !ClashAt(m, order', k) {
        if k < |order| { assert !ClashAt(m, order, k); }
      }
    }
  }

  /** A use without a value of a variable that some block gives a value to. */
  ghost predicate BareUse(m: Ssa, b: nat, v: nat)
    requires Input(m) && Live(m, b)
  {
    BareLoad(m, b, v) || BarePhi(m, b, v)
  }

  /** A use without a value lies above everything that gives the variable a value. */
  ghost predicate Harmless(m: Ssa)
    requires Input(m)
  {
    forall b: nat, v: nat, x: nat {:trigger BareUse(m, b, v), Defines(m, x, v)} ::
      Live(m, b) && Live(m, x) && BareUse(m, b, v) && Defines(m, x, v) ==> OnChain(m, b, x)
  }

  ghost predicate OnChain(m: Ssa, b: nat, x: nat)
    requires Input(m) && Live(m, x)
  {
    b in Chain(m.id, m.l, x)
  }

  /** What is on the chain of a block is the block or on the chain of its immediate dominator. */
  lemma ChainStep(m: Ssa, d: nat, b: nat)
    requires Input(m) && Live(m, b) && OnChain(m, d, b) && d != b
    ensures b != 0 && |m.l.to| == |m.orig| && m.l.to[b] >= 0 && Live(m, m.l.to[b]) && OnChain(m, d, m.l.to[b])
  {
    hide DefsUnique, BodyOk, IsFrontier, Dominates;
    ChainIds(m.id, m.l, b);
  }

  lemma IdomVisited(m: Ssa, s: seq<nat>, i: nat)
    requires Input(m) && Walked(m, s) && i < |s| && s[i] != 0
    ensures |m.l.to| == |m.orig| && Live(m, s[i]) && exists k :: 0 <= k < i && s[k] == m.l.to[s[i]]
  {
    hide DefsUnique, BodyOk, IsFrontier, IsDomTree, LeftWhole;
    assert IdomBefore(m, s, i);
    InTree(m, s[i]);
  }

  lemma {:induction false} LaterNotAbove(m: Ssa, s: seq<nat>, i: nat, j: nat)
    requires Input(m) && Walked(m, s) && i < j < |s|
    ensures Live(m, s[i]) && !OnChain(m, s[j], s[i])
    decreases i
  {
    hide Input, OnChain, LeftWhole;
    if OnChain(m, s[j], s[i]) {
      ChainStep(m, s[j], s[i]);
      IdomVisited(m, s, i);
      var k :| 0 <= k < i && s[k] == m.l.to[s[i]];
      LaterNotAbove(m, s, k, j);
    }
  }

  lemma ClashUse(m: Ssa, before: set<nat>, b: nat) returns (v: nat, x: nat)
    requires Input(m) && Clash(m, before, b)
    ensures Live(m, b) && |m.orig| == |m.phis| && BareUse(m, b, v) && x in before && Live(m, x) && Defines(m, x, v)
  {
    hide BareLoad, BarePhi, Defines, IsDomTree, IsFrontier, DefsUnique, BodyOk;
    v :| (BareLoad(m, b, v) || BarePhi(m, b, v)) && Known(m, before, v);
    x :| x in before && Live(m, x) && Defines(m, x, v);
  }

  /** On such functions the walk never stops, in whatever order the children of a dominator are visited. */
  lemma HarmlessNoClash(m: Ssa, order: seq<nat>)
    requires Input(m) && Harmless(m) && Walked(m, order)
    ensures NoClash(m, order, 0)
  {
    hide Input, OnChain, BareUse, Defines, Walked, Clash;
    forall k: nat {:trigger ClashAt(m, order, k)} | k < |order| ensures !ClashAt(m, order, k) {
      if ClashAt(m, order, k) {
        var v, x := ClashUse(m, (set y | y in order[..k]), order[k]);
        var i :| 0 <= i < k && order[i] == x;
        LaterNotAbove(m, order, i, k);
      }
    }
  }

  /** All blocks below `b`, and `x` as early as can be. */
  lemma {:induction false} VisitAll(m: Ssa, s: seq<nat>, b: nat, x: nat) returns (t: seq<nat>)
    requires Input(m) && Walked(m, s + [b]) && Live(m, x)
    ensures Live(m, b) && s + [b] <= t && Walked(m, t) && Members(t) == Members(s) + Subtree(m, b)
    ensures x in Subtree(m, b) ==> Straight(m, s, t, x)
    decreases if b in m.id then m.id[b] else 0
  {
    hide Input, Walked, Chain, Subtree, Under, Straight;
    WalkedNext(m, s, b);
    InTree(m, b);
    var todo := set c: nat | c < |m.orig| && ChildOf(m, b, c);
    AllChildren(m, b, todo);
    t := s + [b];
    var seen := x !in Subtree(m, b) || x == b;
    NothingBetween(m, s, b, x);
    while todo != {}
      invariant s + [b] <= t && Walked(m, t) && Members(t) == Members(s) + Under(m, b, todo)
      invariant forall c: nat :: c in todo ==> ChildOf(m, b, c)
      invariant seen ==> x !in Subtree(m, b) || Straight(m, s, t, x)
      invariant !seen ==> t == s + [b] && x in Subtree(m, b) && x != b
      invariant !seen ==> forall c: nat :: ChildOf(m, b, c) ==> c in todo
      decreases todo
    {
      var c: nat;
      if seen { c :| c in todo; } else { c := Towards(m, b, x); }
      ghost var t0, more := t, todo - {c};
      NotVisitedYet(m, s, b, t, todo, c);
      ChildNext(m, s, b, t, todo, c);
      ChildLower(m, b, c);
      t := VisitAll(m, t0, c, x);
      MoreDone(m, b, todo, c);
      if !seen {
        ViaChild(m, s, b, t0, c, t, x);
        seen := true;
      } else if x in Subtree(m, b) {
        StillStraight(m, s, t0, t, x);
      }
      todo := more;
    }
    if !seen { var _ := Towards(m, b, x); }
    UnderNone(m, b);
  }

  /** Only blocks on the way to `x` have been visited before it, since `s`. */
  ghost predicate Straight(m: Ssa, s: seq<nat>, t: seq<nat>, x: nat)
    requires Input(m) && Live(m, x)
  {
    exists k :: |s| <= k < |t| && t[k] == x && forall j :: |s| <= j < k ==> OnChain(m, t[j], x)
  }

  lemma AllChildren(m: Ssa, b: nat, todo: set<nat>)
    requires Input(m) && Live(m, b) && |m.l.to| == |m.orig| && forall c: nat :: c in todo <==> ChildOf(m, b, c)
    ensures Under(m, b, todo) == {b}
  {
    UnderAll(m, b, todo);
  }

  lemma NothingBetween(m: Ssa, s: seq<nat>, b: nat, x: nat)
    requires Input(m) && Live(m, b) && Live(m, x)
    ensures x == b ==> Straight(m, s, s + [b], x)
  {
    assert (s + [b])[|s|] == b;
  }

  lemma Towards(m: Ssa, b: nat, x: nat) returns (c: nat)
    requires Input(m) && Live(m, b) && x in Subtree(m, b) && x != b && |m.l.to| == |m.orig|
    ensures ChildOf(m, b, c) && Live(m, c) && x in Subtree(m, c)
  {
    BelowChild(m, b, x);
    c :| ChildOf(m, b, c) && c in Chain(m.id, m.l, x);
  }

  lemma NotVisitedYet(m: Ssa, s: seq<nat>, b: nat, t: seq<nat>, todo: set<nat>, c: nat)
    requires Input(m) && Live(m, b) && Walked(m, s + [b]) && |m.l.to| == |m.orig| && ChildOf(m, b, c) && c in todo
    requires Members(t) == Members(s) + Under(m, b, todo)
    ensures c !in t
  {
    hide Input, Walked, Chain, Subtree, Under;
    ChildIsBelow(m, b, c);
    WalkedNext(m, s, b);
    assert (s + [b])[..|s|] == s;
    WalkedPrefix(m, s + [b], |s|);
    if c in s {
      var i: nat :| i < |s| && s[i] == c;
      ChildNotRoot(m, b, c);
      IdomVisited(m, s, i);
    }
    NotUnder(m, b, todo, c);
    assert c in Members(t) <==> c in t;
  }

  lemma ChildNotRoot(m: Ssa, b: nat, c: nat)
    requires Input(m) && Live(m, b) && |m.l.to| == |m.orig| && ChildOf(m, b, c)
    ensures c != 0
  {
    ChildBelow(m, b, c);
  }

  lemma NotUnder(m: Ssa, b: nat, todo: set<nat>, c: nat)
    requires Input(m) && c in todo
    ensures c !in Under(m, b, todo)
  {
    hide DefsUnique, BodyOk, IsFrontier, Dominates;
    if Live(m, c) { ChainIds(m.id, m.l, c); }
  }

  lemma ChildLower(m: Ssa, b: nat, c: nat)
    requires Input(m) && Live(m, b) && |m.l.to| == |m.orig| && ChildOf(m, b, c)
    ensures c in m.id && b in m.id && m.id[c] < m.id[b] && m.id[c] >= 0
  {
    ChildBelow(m, b, c);
  }

  lemma MoreDone(m: Ssa, b: nat, todo: set<nat>, c: nat)
    requires Input(m) && Live(m, b) && |m.l.to| == |m.orig| && c in todo && forall d: nat :: d in todo ==>
               ChildOf(m, b, d)
    ensures Live(m, c) && Under(m, b, todo - {c}) == Under(m, b, todo) + Subtree(m, c)
  {
    UnderStep(m, b, todo, c);
  }

  lemma ViaChild(m: Ssa, s: seq<nat>, b: nat, t0: seq<nat>, c: nat, t: seq<nat>, x: nat)
    requires Input(m) && Live(m, b) && Live(m, x) && t0 == s + [b] && t0 <= t && x in Subtree(m, b)
    requires Straight(m, t0, t, x)
    ensures Straight(m, s, t, x)
  {
    hide Input, Chain;
    var k :| |t0| <= k < |t| && t[k] == x && forall j :: |t0| <= j < k ==> OnChain(m, t[j], x);
    forall j | |s| <= j < k ensures OnChain(m, t[j], x) { if j == |s| { assert t[j] == t0[j] == b; } }
  }

  lemma StillStraight(m: Ssa, s: seq<nat>, t0: seq<nat>, t: seq<nat>, x: nat)
    requires Input(m) && Live(m, x) && t0 <= t && Straight(m, s, t0, x)
    ensures Straight(m, s, t, x)
  {
    hide Input, OnChain;
    var k :| |s| <= k < |t0| && t0[k] == x && forall j :: |s| <= j < k ==> OnChain(m, t0[j], x);
    forall j | |s| <= j < k ensures OnChain(m, t[j], x) { assert t[j] == t0[j]; }
    assert t[k] == x;
  }

  /** On all others some order stops it. */
  lemma HarmfulClash(m: Ssa) returns (order: seq<nat>)
    requires Input(m) && !Harmless(m)
    ensures Walked(m, order) && (forall b: nat :: b in order <==> Live(m, b)) && !NoClash(m, order, 0)
  {
    hide Input, Walked, BareUse, Defines, OnChain, Subtree, NoClash, Straight;
    RootHasAll(m);
    var b: nat, v: nat, x: nat :|
      Live(m, b) && Live(m, x) && BareUse(m, b, v) && Defines(m, x, v) && !OnChain(m, b, x);
    WalkedStart(m);
    assert [] + [0] == [0];
    order := VisitAll(m, [], 0, x);
    forall y: nat ensures y in order <==> y in Subtree(m, 0) { assert y in Members(order) <==> y in order; }
    LateClash(m, order, b, v, x);
  }

  /** So harmless functions are exactly those on which no order of the children stops the walk. */
  lemma HarmlessIsExact(m: Ssa)
    requires Input(m)
    ensures Harmless(m) <==> forall order :: Walked(m, order) ==> NoClash(m, order, 0)
  {
    hide Harmless, Walked, NoClash, Input;
    if Harmless(m) {
      forall order | Walked(m, order) ensures NoClash(m, order, 0) { HarmlessNoClash(m, order); }
    } else {
      var order := HarmfulClash(m);
    }
  }

  lemma LateClash(m: Ssa, order: seq<nat>, b: nat, v: nat, x: nat)
    requires Input(m) && Live(m, b) && |m.orig| == |m.phis| && Live(m, x) && b in order && Straight(m, [], order, x)
    requires BareUse(m, b, v) && Defines(m, x, v) && !OnChain(m, b, x)
    ensures !NoClash(m, order, 0)
  {
    hide Input, BareLoad, BarePhi, Defines, OnChain;
    OnOwnChain(m, x);
    var k :| 0 <= k < |order| && order[k] == x && forall j :: 0 <= j < k ==> OnChain(m, order[j], x);
    var j: nat :| j < |order| && order[j] == b;
    assert order[..j][k] == x;
    assert Known(m, (set y | y in order[..j]), v);
    assert ClashAt(m, order, j);
  }

  lemma RootHasAll(m: Ssa)
    requires Input(m)
    ensures 0 < |m.orig| == |m.phis| && forall b: nat :: b in Subtree(m, 0) <==> Live(m, b)
  {
    forall b: nat | Live(m, b) ensures b in Subtree(m, 0) { ChainIds(m.id, m.l, b); }
  }

  lemma OnOwnChain(m: Ssa, x: nat)
    requires Input(m) && Live(m, x)
    ensures OnChain(m, x, x)
  {
    ChainIds(m.id, m.l, x);
  }
}

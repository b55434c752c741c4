/** The value numbering pass: numbered classes, passes over the blocks until nothing changes, replacement. */
module GvnPass {
  import opened IR
  import opened GvnExpr
  import opened GvnTransfer
  import opened Gvn
  import E = GvnEffect

  // ----- classes without their numbers ---------------------------------------------------------------------------

  function Strip(p: Partition): (q: Partition)
    ensures |q| == |p| && forall k :: 0 <= k < |p| ==> q[k] == p[k].(index := 0)
  {
    if p == [] then [] else [p[0].(index := 0)] + Strip(p[1..])
  }

  lemma {:induction false} StripFind(p: Partition, o: Operand)
    ensures FindLast(Strip(p), o) == FindLast(p, o)
    decreases |p|
  {
    if p != [] {
      assert Strip(p)[..|p| - 1] == Strip(p[..|p| - 1]);
      StripFind(p[..|p| - 1], o);
    }
  }

  lemma {:induction false} StripHolding(p: Partition, o: Operand)
    ensures Holding(Strip(p), o) == Holding(p, o)
  {
    if p != [] { StripHolding(p[1..], o); }
  }

  lemma {:induction false} StripCollect(p: Partition, os: seq<Operand>)
    ensures Collect(Strip(p), os) == Collect(p, os)
  {
    if os != [] {
      StripHolding(p, os[0]);
      StripCollect(p, os[1..]);
    }
  }

  lemma StripExpr(info: Info, p: Partition, i: Instr)
    requires HasDst(i)
    ensures ValueExpr(info, Strip(p), i) == ValueExpr(info, p, i)
  {
    hide FindLast, Collect, Strip;
    match i
    case Bin(_, _, a, b) => StripFind(p, a); StripFind(p, b);
    case Cmp(_, _, a, b) => StripFind(p, a); StripFind(p, b);
    case Conv(_, _, v) => StripFind(p, v);
    case Call(_, _, xs) => StripCollect(p, xs);
    case Gep(_, b, xs) => StripCollect(p, [b] + xs);
    case _ =>
  }

  lemma {:induction false} StripRemove(p: Partition, o: Operand)
    ensures RemoveMember(Strip(p), o) == Strip(RemoveMember(p, o))
  {
    if p != [] {
      StripRemove(p[1..], o);
      var c := p[0].(members := p[0].members - {o});
      assert Strip([c] + RemoveMember(p[1..], o)) == [c.(index := 0)] + Strip(RemoveMember(p[1..], o));
    }
  }

  lemma StripAdd(p: Partition, e: Expr, o: Operand)
    ensures Strip(AddMember(p, e, o)) == AddMember(Strip(p), e, o) && (Matched(Strip(p), e) <==> Matched(p, e))
  {
    hide Equiv, Strip, AddMember;
    var a, b := Strip(AddMember(p, e, o)), AddMember(Strip(p), e, o);
    assert |a| == |b| == |p|;
    forall k | 0 <= k < |p| ensures a[k] == b[k] {
      var q, s := AddMember(p, e, o), Strip(p);
      assert a[k] == q[k].(index := 0) && s[k] == p[k].(index := 0);
    }
    if k :| 0 <= k < |p| && Equiv(p[k].expr, e) { assert Equiv(Strip(p)[k].expr, e); }
    if k :| 0 <= k < |p| && Equiv(Strip(p)[k].expr, e) { assert Equiv(p[k].expr, e); }
  }

  // ----- partitions are sets ordered by number ---------------------------------------------------------------------

  /** Numbers grow, are not 0, and are below `next`. */
  predicate InOrder(p: Partition, next: nat) {
    && (forall k :: 0 <= k < |p| ==> 0 < p[k].index < next)
    && (forall j, k :: 0 <= j < k < |p| ==> p[j].index < p[k].index)
  }

  /** Insertion into the ordered set: a class with a number that is there already is lost. */
  function Insert(p: Partition, c: Class): Partition {
    if p == [] || c.index < p[0].index then [c] + p
    else if c.index == p[0].index then p
    else [p[0]] + Insert(p[1..], c)
  }

  /** A class with a fresh number is never lost. */
  lemma {:induction false} InsertFresh(p: Partition, c: Class)
    requires forall k :: 0 <= k < |p| ==> p[k].index < c.index
    ensures Insert(p, c) == p + [c]
  {
    if p != [] { InsertFresh(p[1..], c); }
  }

  predicate AllAbove(p: Partition, n: nat) {
    forall k :: 0 <= k < |p| ==> n < p[k].index
  }

  lemma OrderCons(c: Class, p: Partition, next: nat)
    ensures InOrder([c] + p, next) <==> 0 < c.index < next && AllAbove(p, c.index) && InOrder(p, next)
  {
    var q := [c] + p;
    if InOrder(q, next) {
      forall k | 0 <= k < |p|
        ensures c.index < p[k].index && 0 < p[k].index < next
      {
        assert q[k + 1] == p[k] && q[0] == c;
      }
      forall j, k | 0 <= j < k < |p| ensures p[j].index < p[k].index { assert q[j + 1] == p[j] && q[k + 1] == p[k]; }
    }
  }

  lemma {:induction false} RemoveAbove(p: Partition, o: Operand, n: nat)
    requires AllAbove(p, n)
    ensures AllAbove(RemoveMember(p, o), n)
  {
    if p != [] {
      assert AllAbove(p[1..], n) by {
        forall k | 0 <= k < |p[1..]| ensures n < p[1..][k].index { assert p[1..][k] == p[k + 1]; }
      }
      RemoveAbove(p[1..], o, n);
    }
  }

  lemma {:induction false} RemoveKeepsOrder(p: Partition, o: Operand, next: nat)
    requires InOrder(p, next)
    ensures InOrder(RemoveMember(p, o), next)
  {
    hide InOrder, AllAbove;
    if p != [] {
      assert p == [p[0]] + p[1..];
      OrderCons(p[0], p[1..], next);
      RemoveKeepsOrder(p[1..], o, next);
      RemoveAbove(p[1..], o, p[0].index);
      var c, q := p[0].(members := p[0].members - {o}), RemoveMember(p[1..], o);
      OrderCons(c, q, next);
      assert RemoveMember(p, o) == if c.members == {} then [] + q else [c] + q;
      assert [] + q == q;
    } else {
      assert RemoveMember(p, o) == p;
    }
  }

  /** How the pass compares partitions: sizes, and whether some class has the members of the first one. */
  predicate Looks(p1: Partition, p2: Partition) {
    |p1| == |p2| && (p1 == [] || exists k :: 0 <= k < |p2| && p1[0].members == p2[k].members)
  }

  lemma SameLooks(p1: Partition, p2: Partition)
    requires Strip(p1) == Strip(p2)
    ensures Looks(p1, p2)
  {
    if p1 != [] { assert Strip(p1)[0].members == Strip(p2)[0].members; }
  }

  // ----- replacing -------------------------------------------------------------------------------------------

  lemma {:induction false} MapSame(h: Operand -> Operand, h': Operand -> Operand, os: seq<Operand>)
    requires forall o :: h(o) == h'(o)
    ensures MapAll(h, os) == MapAll(h', os)
  {
    if os != [] { MapSame(h, h', os[1..]); }
  }

  lemma {:induction false} MapBodySame(h: Operand -> Operand, h': Operand -> Operand, body: seq<Instr>)
    requires forall o :: h(o) == h'(o)
    ensures MapBody(h, body) == MapBody(h', body)
  {
    if body != [] {
      match body[0] {
        case Gep(_, _, xs) => MapSame(h, h', xs);
        case Call(_, _, xs) => MapSame(h, h', xs);
        case _ =>
      }
      MapBodySame(h, h', body[1..]);
    }
  }

  lemma {:induction false} MapTwice(h1: Operand -> Operand, h2: Operand -> Operand, h: Operand -> Operand,
                                    os: seq<Operand>)
    requires forall o :: h(o) == h2(h1(o))
    ensures MapAll(h2, MapAll(h1, os)) == MapAll(h, os)
  {
    if os != [] { MapTwice(h1, h2, h, os[1..]); }
  }

  lemma {:induction false} MapBodyTwice(h1: Operand -> Operand, h2: Operand -> Operand, h: Operand -> Operand,
                                        body: seq<Instr>)
    requires forall o :: h(o) == h2(h1(o))
    ensures MapBody(h2, MapBody(h1, body)) == MapBody(h, body)
  {
    if body != [] {
      match body[0] {
        case Gep(_, _, xs) => MapTwice(h1, h2, h, xs);
        case Call(_, _, xs) => MapTwice(h1, h2, h, xs);
        case _ =>
      }
      MapBodyTwice(h1, h2, h, body[1..]);
    }
  }

  lemma {:induction false} MapBodyNothing(h: Operand -> Operand, body: seq<Instr>)
    requires forall o :: h(o) == o
    ensures MapBody(h, body) == body
  {
    if body != [] {
      match body[0] {
        case Gep(_, _, xs) => MapNothing(h, xs);
        case Call(_, _, xs) => MapNothing(h, xs);
        case _ =>
      }
      MapBodyNothing(h, body[1..]);
    }
  }

  lemma {:induction false} MapNothing(h: Operand -> Operand, os: seq<Operand>)
    requires forall o :: h(o) == o
    ensures MapAll(h, os) == os
  {
    if os != [] { MapNothing(h, os[1..]); }
  }

  lemma {:induction false} ReplaceSnoc(p: Partition, k: nat, o: Operand)
    requires k < |p|
    ensures ReplaceOp(p[..k + 1], o) == var r := ReplaceOp(p[..k], o); if r in p[k].members then p[k].leader else r
    decreases k
  {
    if k > 0 {
      assert p[..k + 1][1..] == p[1..][..k] && p[..k][1..] == p[1..][..k - 1];
      ReplaceSnoc(p[1..], k - 1, if o in p[0].members then p[0].leader else o);
    } else {
      assert p[..1][1..] == [] && p[..0] == [];
    }
  }

  lemma {:induction false} StripReplace(p: Partition, o: Operand)
    ensures ReplaceOp(Strip(p), o) == ReplaceOp(p, o)
  {
    if p != [] { StripReplace(p[1..], if o in p[0].members then p[0].leader else o); }
  }

  function ReplaceOne(m: Operand, l: Operand): Operand -> Operand {
    o => if o == m then l else o
  }

  function ReplaceSome(done: set<Operand>, l: Operand): Operand -> Operand {
    o => if o in done then l else o
  }

  class Pass {
    const info: Info
    const f: seq<Block>
    const parent: seq<nat>
    var nextValueNumber: nat
    var pin: seq<Partition>
    var pout: seq<Partition>

    constructor (info: Info, f: seq<Block>, parent: seq<nat>)
      ensures this.info == info && this.f == f && this.parent == parent
    {
      this.info, this.f, this.parent := info, f, parent;
      nextValueNumber, pin, pout := 1, [], [];
    }

    /** Every class with this expression gets the member; `judge` tells whether there was one. */
    method JoinClasses(q: Partition, ve: Expr, o: Operand) returns (judge: bool, p: Partition)
      ensures (judge <==> Matched(q, ve)) && p == AddMember(q, ve, o)
      ensures forall n: nat :: InOrder(q, n) ==> InOrder(p, n)
    {
      hide Equiv, AddMember;
      judge, p := false, q;
      var k := 0;
      while k < |p|
        invariant 0 <= k <= |p| == |q| && (judge <==> exists j :: 0 <= j < k && Equiv(q[j].expr, ve))
        invariant forall j :: 0 <= j < |p| ==> p[j] == if j < k then AddMember(q, ve, o)[j] else q[j]
      {
        if Equiv(p[k].expr, ve) {
          judge := true;
          p := p[k := p[k].(members := p[k].members + {o})];
        }
        k := k + 1;
      }
      assert p == AddMember(q, ve, o);
    }

    /** `x` joins the classes of its value expression, or founds one; `ok` is false where
        folding computes nothing. */
    method TransferFunction(x: Instr, pin: Partition) returns (ok: bool, p: Partition)
      requires InOrder(pin, nextValueNumber) && nextValueNumber > 0
      modifies this`nextValueNumber
      ensures ok <==> Transfer(info, Strip(pin), x, 0).Some?
      ensures ok ==> Transfer(info, Strip(pin), x, 0) == Some(Strip(p)) && InOrder(p, nextValueNumber)
      ensures ok && E.ConstLeaders(pin) ==> E.ConstLeaders(p)
      ensures old(nextValueNumber) <= nextValueNumber
    {
      hide Equiv, ValueExpr, RemoveMember, AddMember, Matched, Strip, Insert;
      ok, p := true, pin;
      if !HasDst(x) || (x.Call? && x.fn in info.voids) {
        return;
      }
      p := RemoveMember(pin, Reg(x.dst));
      RemoveKeepsOrder(pin, Reg(x.dst), nextValueNumber);
      StripRemove(pin, Reg(x.dst));
      StripExpr(info, pin, x);
      var ve := ValueExpr(info, pin, x);
      if ve == None {
        return false, [];
      }
      ghost var q := p;
      StripAdd(q, ve.value, Reg(x.dst));
      var judge;
      judge, p := JoinClasses(p, ve.value, Reg(x.dst));
      if !judge {
        NothingJoined(q, ve.value, Reg(x.dst));
        var c := Class(nextValueNumber, LeaderFor(ve.value, x.dst), ve.value, {Reg(x.dst)});
        InsertFresh(p, c);
        p := Insert(p, c);
        StripSnoc(q, c);
        nextValueNumber := nextValueNumber + 1;
      }
      if E.ConstLeaders(pin) { StripConst(info, pin, p, x); }
    }

    /** Classes for the global variables and the arguments. */
    method GlobalsAndArgs() returns (p: Partition)
      requires nextValueNumber > 0
      modifies this`nextValueNumber
      ensures Strip(p) == Initial(info) && InOrder(p, nextValueNumber) && old(nextValueNumber) <= nextValueNumber
    {
      p := [];
      var k := 0;
      while k < info.nGlobals + info.nArgs
        invariant 0 <= k <= info.nGlobals + info.nArgs && |p| == k
        invariant forall j :: 0 <= j < k ==> p[j].(index := 0) == InitialClass(info, j)
        invariant InOrder(p, nextValueNumber) && 0 < nextValueNumber && old(nextValueNumber) <= nextValueNumber
      {
        var c := InitialClass(info, k).(index := nextValueNumber);
        InsertFresh(p, c);
        p := Insert(p, c);
        nextValueNumber := nextValueNumber + 1;
        k := k + 1;
      }
      assert Strip(p) == Initial(info);
    }

    /** All instructions of a block. */
    method TransferBlock(body: seq<Instr>, p0: Partition) returns (ok: bool, p: Partition)
      requires InOrder(p0, nextValueNumber) && nextValueNumber > 0
      modifies this`nextValueNumber
      ensures ok <==> TransferAll(info, Strip(p0), body).Some?
      ensures ok ==> TransferAll(info, Strip(p0), body) == Some(Strip(p)) && InOrder(p, nextValueNumber)
      ensures old(nextValueNumber) <= nextValueNumber
    {
      ok, p := true, p0;
      var k := 0;
      while k < |body|
        invariant 0 <= k <= |body| && InOrder(p, nextValueNumber) && old(nextValueNumber) <= nextValueNumber
        invariant TransferAll(info, Strip(p), body[k..]) == TransferAll(info, Strip(p0), body)
      {
        assert body[k..][1..] == body[k + 1..];
        ok, p := TransferFunction(body[k], p);
        if !ok { return; }
        k := k + 1;
      }
    }

    /** All partitions hold what the transfer functions make of the blocks. */
    ghost predicate Settled(n: nat)
      requires Tree(f, parent) && n <= |f|
      reads this
    {
      |pout| == |f| && forall b :: 0 <= b < n ==> Out(info, f, parent, b) == Some(Strip(pout[b]))
                                                  && InOrder(pout[b], nextValueNumber)
    }

    /** One round over all blocks. */
    method OnePass() returns (ok: bool, changed: bool)
      requires Tree(f, parent) && |pin| == |f| == |pout| && nextValueNumber > 0
      modifies this
      ensures nextValueNumber >= old(nextValueNumber) && |pin| == |f| == |pout|
      ensures ok <==> Folds(info, f, parent)
      ensures ok ==> Settled(|f|)
      ensures old(Settled(|f|)) ==> !changed
    {
      hide Out, In, TransferAll, InOrder;
      ok, changed := true, false;
      var b := 0;
      while b < |f|
        invariant 0 <= b <= |f| && |pin| == |f| == |pout| && nextValueNumber >= old(nextValueNumber)
        invariant Settled(b)
        invariant forall a :: b <= a < |f| ==> pout[a] == old(pout)[a]
        invariant old(Settled(|f|)) ==> !changed
      {
        OutOf(info, f, parent, b);
        var p: Partition;
        if b == 0 {
          pin := pin[b := []];
          p := GlobalsAndArgs();
        } else {
          pin := pin[b := pout[parent[b]]];
          p := pin[b];
        }
        ghost var next := nextValueNumber;
        ok, p := TransferBlock(f[b].body, p);
        if !ok { return; }
        OrderGrows(pout, b, next, nextValueNumber);
        if old(Settled(|f|)) { SameLooks(p, pout[b]); }
        if !Looks(p, pout[b]) {
          changed := true;
        }
        pout := pout[b := p];
        b := b + 1;
      }
    }

    /** Rounds until no partition looks changed. */
    method DetectEquivalences() returns (ok: bool)
      requires Tree(f, parent) && nextValueNumber > 0
      modifies this
      ensures ok <==> Folds(info, f, parent)
      ensures ok ==> Settled(|f|)
    {
      var top := [Class(0, ConstInt(0), ConstE(Int(0), false), {})];
      pin := seq(|f|, _ => []);
      pout := seq(|f|, b => if b == 0 then [] else top);
      var changed := true;
      ghost var rounds := 0;
      while changed
        invariant |pin| == |f| == |pout| && nextValueNumber > 0 && rounds <= 2
        invariant rounds > 0 ==> Settled(|f|) && Folds(info, f, parent)
        invariant rounds == 0 ==> changed
        invariant rounds == 2 ==> !changed
        decreases 2 - rounds
      {
        ok, changed := OnePass();
        if !ok { return; }
        rounds := rounds + 1;
      }
      ok := true;
    }

    /** In block `b`, every use of a member of a class becomes a use of the leader. */
    method ReplaceInBlock(b: nat, body: seq<Instr>) returns (r: seq<Instr>)
      requires b < |pout| && InOrder(pout[b], nextValueNumber)
      ensures r == MapBody(Replaced(Strip(pout[b])), body)
    {
      var p := pout[b];
      r := body;
      var k := 0;
      MapBodyNothing(Replaced([]), body);
      assert p[..0] == [];
      while k < |p|
        invariant 0 <= k <= |p| && r == MapBody(Replaced(p[..k]), body)
      {
        if p[k].index != 0 {
          var before := r;
          r := ReplaceClass(p[k], r);
          forall o
            ensures Replaced(p[..k + 1])(o) == ReplaceSome(p[k].members, p[k].leader)(Replaced(p[..k])(o))
          {
            ReplaceSnoc(p, k, o);
          }
          MapBodyTwice(Replaced(p[..k]), ReplaceSome(p[k].members, p[k].leader), Replaced(p[..k + 1]), body);
        }
        k := k + 1;
      }
      assert p[..k] == p;
      forall o ensures Replaced(p)(o) == Replaced(Strip(p))(o) { StripReplace(p, o); }
      MapBodySame(Replaced(p), Replaced(Strip(p)), body);
    }

    method ReplaceClass(c: Class, body: seq<Instr>) returns (r: seq<Instr>)
      ensures r == MapBody(ReplaceSome(c.members, c.leader), body)
    {
      r := body;
      var todo := c.members;
      MapBodyNothing(ReplaceSome({}, c.leader), body);
      assert c.members - todo == {};
      while todo != {}
        invariant todo <= c.members && r == MapBody(ReplaceSome(c.members - todo, c.leader), body)
      {
        var m :| m in todo;
        ghost var done := c.members - todo;
        assert c.members - (todo - {m}) == done + {m};
        if m != c.leader {
          r := MapBody(ReplaceOne(m, c.leader), r);
          StepByStep(done, m, c.leader, body);
        } else {
          MapBodySame(ReplaceSome(done, c.leader), ReplaceSome(done + {m}, c.leader), body);
        }
        todo := todo - {m};
      }
      assert c.members - {} == c.members;
    }

    /** The pass on one function. */
    method Run() returns (ok: bool, blocks: seq<Block>)
      requires Tree(f, parent)
      modifies this
      ensures ok <==> Folds(info, f, parent)
      ensures ok ==> blocks == After(info, f, parent)
      ensures ok && JoinFree(info, f, parent) ==> E.ConstantsGone(info, f, parent, blocks)
    {
      hide BlockOk, E.ConstantsGone, Out;
      nextValueNumber, blocks := 1, [];
      ok := DetectEquivalences();
      if !ok { return; }
      var b := 0;
      while b < |f|
        invariant 0 <= b <= |f| && Settled(|f|) && |blocks| == b
        invariant forall a :: 0 <= a < b ==> blocks[a] == Block(f[a].phis, MapBody(Replaced(Strip(pout[a])), f[a].body))
      {
        var body := ReplaceInBlock(b, f[b].body);
        blocks := blocks + [Block(f[b].phis, body)];
        b := b + 1;
      }
      assert blocks == After(info, f, parent);
      if JoinFree(info, f, parent) { E.AllConstantsGone(info, f, parent); }
    }
  }

  lemma NothingJoined(q: Partition, e: Expr, o: Operand)
    requires !Matched(q, e)
    ensures AddMember(q, e, o) == q
  {
    hide Equiv, AddMember;
  }

  lemma StripConst(info: Info, pin: Partition, p: Partition, x: Instr)
    requires E.ConstLeaders(pin) && Transfer(info, Strip(pin), x, 0) == Some(Strip(p))
    ensures E.ConstLeaders(p)
  {
    hide Transfer;
    assert E.ConstLeaders(Strip(pin));
    E.ConstLeadersStay(info, Strip(pin), x);
    forall k | 0 <= k < |p| && p[k].expr.ConstE?
      ensures E.IsValue(p[k].leader, p[k].expr.v)
    {
      assert Strip(p)[k] == p[k].(index := 0);
    }
  }

  lemma StripSnoc(q: Partition, c: Class)
    ensures Strip(q + [c]) == Strip(q) + [c.(index := 0)]
  {
    hide Strip;
  }

  lemma OutOf(info: Info, f: seq<Block>, parent: seq<nat>, b: nat)
    requires Tree(f, parent) && b < |f|
    ensures In(info, f, parent, b) == if b == 0 then Some(Initial(info)) else Out(info, f, parent, parent[b])
    ensures In(info, f, parent, b).Some? ==> Out(info, f, parent, b) == TransferAll(info,
                                                                                    In(info, f, parent, b).value,
                                                                                    f[b].body)
  {}

  lemma OrderGrows(pout: seq<Partition>, n: nat, next: nat, next': nat)
    requires next <= next' && n <= |pout| && forall a :: 0 <= a < n ==> InOrder(pout[a], next)
    ensures forall a :: 0 <= a < n ==> InOrder(pout[a], next')
  {}

  lemma StepByStep(done: set<Operand>, m: Operand, l: Operand, body: seq<Instr>)
    requires m != l && m !in done
    ensures MapBody(ReplaceOne(m, l), MapBody(ReplaceSome(done, l), body)) == MapBody(ReplaceSome(done + {m}, l), body)
  {
    MapBodyTwice(ReplaceSome(done, l), ReplaceOne(m, l), ReplaceSome(done + {m}, l), body);
  }
}

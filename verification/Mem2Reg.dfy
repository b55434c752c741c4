/** The renaming half of SSA construction: the recursive walk over the dominator tree. */
module Mem2Reg {
  import opened Graph
  import opened DomTree
  import opened IR
  import opened Renaming
  import opened Promotion
  import opened RenameSteps
  import opened RenameWalk
  import opened RenameStacks
  import opened RenameTree
  import opened RenameOrder

  class Renamer {
    const g: Graph
    const c: Ctx
    const children: map<int, set<nat>>
    ghost const m: Ssa
    var body: seq<seq<Instr>>
    var phis: seq<seq<Phi>>
    var stacks: Stacks
    ghost var S: Tops
    ghost var tin: seq<Tops>
    ghost var tout: seq<Tops>
    ghost var vis: set<nat>
    ghost var fin: set<nat>
    ghost var order: seq<nat>

    constructor (ghost m: Ssa, g: Graph, c: Ctx, children: map<int, set<nat>>, body: seq<seq<Instr>>,
                 phis: seq<seq<Phi>>)
      ensures this.m == m && this.g == g && this.c == c && this.children == children && order == []
      ensures W() == Walk(body, phis, map[], map[], m.tin, m.tout, {}, {})
    {
      this.m, this.g, this.c, this.children, this.body, this.phis := m, g, c, children, body, phis;
      stacks, S, tin, tout, vis, fin, order := map[], map[], m.tin, m.tout, {}, {}, [];
    }

    ghost function W(): Walk
      reads this
    {
      Walk(body, phis, stacks, S, tin, tout, vis, fin)
    }

    ghost predicate Setup()
    {
      m.g == g && m.c == c && ChildrenAre(m, children)
    }

    /** The newest value of each phi goes on the stack of its variable. */
    method PushPhiValues(bb: nat)
      requires bb < |phis|
      modifies this`stacks
      ensures stacks == PushPhis(old(stacks), phis[bb], |phis[bb]|)
    {
      var k := 0;
      while k < |phis[bb]|
        invariant 0 <= k <= |phis[bb]| && stacks == PushPhis(old(stacks), phis[bb], k)
      {
        stacks := Push(stacks, phis[bb][k].lval, Reg(phis[bb][k].dst));
        k := k + 1;
      }
    }

    /** One instruction: a load takes the newest value of its variable and all uses of the load are
        replaced by it; a store sets the newest value. `ok` is false when the stack is empty. */
    method RenameInstr(bb: nat, i: nat) returns (ok: bool, dead: bool)
      requires bb < |body| && i < |body[bb]|
      modifies this`body, this`phis, this`stacks, this`S
      ensures ok <==> InstrStep(c, old(W()), old(body)[bb][i]).Some?
      ensures ok ==> InstrStep(c, old(W()), old(body)[bb][i]) == Some(W())
      ensures var instr := old(body)[bb][i];
              dead <==> ok && ((PromotedLoad(c, instr) && instr.ptr.r in old(stacks)) || PromotedStore(c, instr))
    {
      var instr := body[bb][i];
      ok, dead := true, false;
      if PromotedLoad(c, instr) {
        var v := instr.ptr.r;
        if v in stacks {
          if |stacks[v]| == 0 {
            return false, false;
          }
          var o := stacks[v][|stacks[v]| - 1];
          body := ReplaceAll(instr.dst, o, body);
          phis := ReplaceInAllPhis(instr.dst, o, phis);
          S := S[instr.dst := o];
          dead := true;
        }
      } else if PromotedStore(c, instr) {
        stacks := Push(stacks, instr.ptr.r, instr.val);
        dead := true;
      }
    }

    /** The instruction at `i`, for which `dead` says what is to be deleted. */
    method RenameNext(bb: nat, i: nat, dead0: set<nat>, ghost w0: Walk) returns (ok: bool, dead: set<nat>)
      requires BlockInv(m, w0, W(), bb, i, dead0) && m.c == c
      requires bb < |body| && i < |body[bb]| == |m.orig[bb]|
      modifies this`body, this`phis, this`stacks, this`S
      ensures ok ==> BlockInv(m, w0, W(), bb, i + 1, dead)
      ensures !ok ==> BareIn(m, w0.vis, bb)
    {
      ghost var w := W();
      StepAt(m, w0, w, bb, i, dead0);
      hide BlockInv, InstrStep, BareIn;
      var isDead;
      ok, isDead := RenameInstr(bb, i);
      dead := if isDead then dead0 + {i} else dead0;
      if ok { BlockStep(m, w0, w, bb, i, dead0, W()); }
    }

    /** All instructions of a block; `dead` are the positions of the loads and stores dealt with. */
    method RenameBlock(bb: nat) returns (ok: bool, dead: set<nat>)
      requires m.c == c && Live(m, bb) && BlockInv(m, W(), W(), bb, 0, {})
      modifies this`body, this`phis, this`stacks, this`S
      ensures ok ==> BlockInv(m, old(W()), W(), bb, |m.orig[bb]|, dead)
      ensures !ok ==> BareIn(m, old(W()).vis, bb)
    {
      hide BlockInv, BareIn;
      ok, dead := true, {};
      ghost var w0 := W();
      InBlockLength(m, w0, w0, bb, 0, {});
      var i := 0;
      while i < |body[bb]|
        invariant 0 <= i <= |m.orig[bb]| && bb < |body| && |body[bb]| == |m.orig[bb]|
        invariant BlockInv(m, w0, W(), bb, i, dead)
      {
        ok, dead := RenameNext(bb, i, dead, w0);
        if !ok { return; }
        i := i + 1;
        InBlockLength(m, w0, W(), bb, i, dead);
      }
    }

    /** Every phi of successor `y` gets the newest value of its variable as operand for `bb`. */
    method AddPairsTo(bb: nat, y: nat, ghost p0: seq<Phi>, ghost times: nat) returns (ok: bool)
      requires y < |phis| && |phis[y]| == |p0| && forall k :: 0 <= k < |p0| ==>
                 PairMayBe(p0[k], phis[y][k], TopsOf(stacks), bb, times)
      modifies this`phis
      ensures |phis| == |old(phis)| && forall b :: 0 <= b < |phis| && b != y ==> phis[b] == old(phis)[b]
      ensures ok ==> |phis[y]| == |p0| && forall k :: 0 <= k < |p0| ==>
                PairAdded(p0[k], phis[y][k], TopsOf(stacks), bb, times + 1)
      ensures ok <==> forall k :: 0 <= k < |p0| ==> !EmptyStack(stacks, p0[k].lval)
    {
      hide PairAdded, PairMayBe;
      ghost var n := |p0|;
      var k := 0;
      forall j | 0 <= j < n
        ensures phis[y][j].lval == p0[j].lval
      {
        SameLval(p0[j], phis[y][j], TopsOf(stacks), bb, times);
      }
      while k < |phis[y]|
        invariant |phis| == |old(phis)| && 0 <= k <= |phis[y]| == n
        invariant forall b :: 0 <= b < |phis| && b != y ==> phis[b] == old(phis)[b]
        invariant forall j :: 0 <= j < k ==> PairAdded(p0[j], phis[y][j], TopsOf(stacks), bb, times + 1)
        invariant forall j :: k <= j < n ==> PairMayBe(p0[j], phis[y][j], TopsOf(stacks), bb, times)
                                             && phis[y][j].lval == p0[j].lval
        invariant forall j :: 0 <= j < k ==> !EmptyStack(stacks, p0[j].lval)
      {
        var q := phis[y][k];
        if q.lval in stacks && |stacks[q.lval]| == 0 {
          return false;
        }
        FillAdds(p0[k], q, stacks, bb, times);
        if q.lval in stacks {
          var o := stacks[q.lval][|stacks[q.lval]| - 1];
          phis := phis[y := phis[y][k := q.(pairs := q.pairs + [(o, bb)])]];
        }
        k := k + 1;
      }
      return true;
    }

    /** All phis of all successors get their operand for `bb`; `ok` is false when a stack is empty. */
    method AddPairs(bb: nat) returns (ok: bool)
      requires WellFormed(g) && m.g == g && bb < |g.succ| == |phis|
      requires forall y: nat, k {:trigger phis[y][k]} :: Edge(g, bb, y) && y < |phis| && 0 <= k < |phis[y]| ==>
                 PairFor(phis[y][k].pairs, bb) == None
      modifies this`phis
      ensures ok ==> PairsAdded(m, old(phis), phis, TopsOf(stacks), bb)
      ensures ok <==> !PhiClash(m, old(W()), bb)
    {
      hide PairAdded, EmptyStack, PairMayBe, FilledFor, Occurs, PairsAdded;
      ghost var phis0, t := phis, TopsOf(stacks);
      NothingFilled(phis0, t, bb);
      assert g.succ[bb][..0] == [];
      var i := 0;
      while i < |g.succ[bb]|
        invariant 0 <= i <= |g.succ[bb]| && |phis| == |phis0| && FilledFor(phis0, phis, t, bb, g.succ[bb][..i])
        invariant forall j, k :: 0 <= j < i && 0 <= k < |phis0[g.succ[bb][j]]| ==>
                    !EmptyStack(stacks, phis0[g.succ[bb][j]][k].lval)
      {
        var y := g.succ[bb][i];
        assert y in g.succ[bb] && Edge(g, bb, y);
        ghost var before := phis;
        FilledSoFar(phis0, phis, t, bb, g.succ[bb][..i], y);
        ok := AddPairsTo(bb, y, phis0[y], Occurs(g.succ[bb][..i], y));
        if !ok { return; }
        FilledMore(phis0, before, phis, t, bb, g.succ[bb][..i], y);
        assert g.succ[bb][..i + 1] == g.succ[bb][..i] + [y];
        i := i + 1;
      }
      ok := true;
      assert g.succ[bb][..i] == g.succ[bb];
      FilledAll(m, phis0, phis, t, bb);
      assert forall y: nat :: Edge(g, bb, y) ==> y in g.succ[bb];
    }

    /** The values pushed in the block come off the stacks again. */
    method PopValues(bb: nat, ghost base: Stacks)
      requires bb < |phis| && bb < |body| && Pending(c, base, stacks, phis[bb], body[bb]) && base.Keys <= stacks.Keys
      modifies this`stacks
      ensures SameStacks(base, stacks) && stacks.Keys == old(stacks.Keys)
    {
      hide Pending, SameStacks;
      ghost var keys := stacks.Keys;
      var k := 0;
      assert phis[bb][0..] == phis[bb] && body[bb][0..] == body[bb];
      while k < |phis[bb]|
        invariant 0 <= k <= |phis[bb]| && stacks.Keys == keys
        invariant Pending(c, base, stacks, phis[bb][k..], body[bb])
      {
        PopPhi(c, base, stacks, phis[bb], body[bb], k);
        if phis[bb][k].lval in stacks {
          stacks := Pop(stacks, phis[bb][k].lval);
        }
        k := k + 1;
      }
      assert phis[bb][k..] == [];
      var i := 0;
      while i < |body[bb]|
        invariant 0 <= i <= |body[bb]| && stacks.Keys == keys
        invariant Pending(c, base, stacks, [], body[bb][i..])
      {
        PopStore(c, base, stacks, body[bb], i);
        if PromotedStore(c, body[bb][i]) {
          stacks := Pop(stacks, body[bb][i].ptr.r);
        }
        i := i + 1;
      }
      assert body[bb][i..] == [];
      PoppedAll(c, base, old(stacks), stacks);
    }

    /** What the walk does in block `bb` before it turns to the children. */
    method RenameOwn(bb: nat) returns (ok: bool, dead: set<nat>)
      requires Setup() && Ready(m, W(), bb)
      modifies this`body, this`phis, this`stacks, this`S, this`tin, this`tout, this`vis
      ensures ok <==> !Clash(m, old(vis), bb)
      ensures ok ==> vis == old(vis) + {bb}
      ensures ok ==> forall todo: set<nat> :: (forall x: nat :: x in todo <==> ChildOf(m, bb, x)) ==>
                Among(m, old(W()), W(), bb, dead, todo)
    {
      hide Setup, Ready, BlockInv, BareIn, BarePhiIn, PhiClash, PairsAdded, Clash, Among, ChildOf, AfterEnter;
      ghost var w0 := W();
      InBlock(w0, bb);
      Enter(m, w0, bb);
      tin := tin[bb := PhiTops(TopsOf(stacks), phis[bb])];
      PushPhiValues(bb);
      EnterIs(m, w0, bb);
      ghost var w1 := W();
      ok, dead := RenameBlock(bb);
      ghost var w2 := W();
      ClashSplit(m, w0.vis, bb);
      if !ok { return; }
      BlockFacts(m, w1, w2, bb, dead);
      ok := AddPairs(bb);
      if !ok { return; }
      tout := tout[bb := TopsOf(stacks)];
      vis := vis + {bb};
      forall todo: set<nat> | forall x: nat :: x in todo <==> ChildOf(m, bb, x)
        ensures Among(m, w0, W(), bb, dead, todo)
      {
        Leave(m, w0, w2, bb, dead, phis, todo);
      }
    }

    lemma InBlock(w: Walk, bb: nat)
      requires Setup() && Ready(m, w, bb)
      ensures m.g == g && m.c == c && WellFormed(g) && |m.orig| == |g.succ| == |m.l.to|
      ensures bb < |w.phis| && bb < |w.tin| && bb < |w.tout| && Live(m, bb) && Input(m) && bb !in w.vis
    {
      hide IsFrontier, DefsUnique, BodyOk, Bodies, UpClosed, AllRenamed, AllPairs, AllUntouched, KeysAre;
    }

    /** Renames block `bb` and everything it dominates, depth first; `ok` is false when some block on the
        way consults an empty stack. `order` are the blocks it has come to. */
    method ReName(bb: nat) returns (ok: bool)
      requires Setup() && Ready(m, W(), bb) && vis == Members(order) && Walked(m, order + [bb])
      modifies this
      ensures old(order) + [bb] <= order && Walked(m, order)
      ensures ok <==> NoClash(m, order, |old(order)|)
      ensures ok ==> Completed(m, old(W()), W(), bb) && vis == Members(order)
      decreases if bb in m.id then m.id[bb] else 0
    {
      hide Setup, Ready, Clash, Among, Completed, NoClash, Members, ChildOf, Input, Walked, Under, Chain;
      ghost var w0, before := W(), order;
      InBlock(w0, bb);
      order := order + [bb];
      OneMore(m, before, bb);
      var dead;
      ok, dead := RenameOwn(bb);
      if !ok { return; }
      ChildrenOf(bb);
      var todo := if bb in children then children[bb] else {};
      assert Among(m, w0, W(), bb, dead, todo);
      while todo != {}
        invariant Among(m, w0, W(), bb, dead, todo)
        invariant forall x: nat :: x in todo ==> ChildOf(m, bb, x)
        invariant vis == Members(order) && before + [bb] <= order && NoClash(m, order, |before|) && Walked(m, order)
        decreases todo
      {
        var x :| x in todo;
        ghost var w, sofar := W(), order;
        ChildReady(m, w0, w, bb, dead, todo, x);
        ChildBelow(m, bb, x);
        NextChild(m, w0, w, bb, dead, todo, x, before, sofar);
        ok := ReName(x);
        MoreClashes(m, sofar, order, |before|);
        if !ok { return; }
        ChildDone(m, w0, w, bb, dead, todo, x, W());
        todo := todo - {x};
      }
      EndBlock(bb, dead, w0);
    }

    /** The last part of the walk in block `bb`: values are popped, dead loads and stores erased. */
    method EndBlock(bb: nat, dead: set<nat>, ghost w0: Walk)
      requires m.c == c && Among(m, w0, W(), bb, dead, {})
      modifies this`body, this`stacks, this`fin
      ensures Completed(m, w0, W(), bb)
    {
      hide Among, Completed, Pending, SameStacks, Swept, Without;
      ghost var w := W();
      PendingInBlock(m, w0, w, bb, dead);
      AmongKeys(m, w0, w, bb, dead);
      PopValues(bb, w0.stacks);
      Finish(m, w0, w, bb, dead, stacks);
      body := body[bb := Without(body[bb], dead, 0)];
      fin := fin + {bb};
    }

    lemma ChildrenOf(bb: nat)
      requires Setup() && Live(m, bb) && |m.l.to| == |m.orig|
      ensures bb in children ==> forall x: nat :: x in children[bb] <==> ChildOf(m, bb, x)
      ensures bb !in children ==> forall x: nat :: !ChildOf(m, bb, x)
    {
      hide IsFrontier, DefsUnique, BodyOk;
      forall x: nat ensures InMap(children, bb, x) <==> ChildOf(m, bb, x) {
        assert InMap(children, bb, x) <==> x < |m.g.succ| && IdomOf(m.l, x) == bb && bb != x;
      }
    }

    /** Erases the int and float allocas. Those of pointers stay. */
    method RemoveAlloca()
      modifies this`body
      ensures |body| == |old(body)| && forall b :: 0 <= b < |body| ==> body[b] == DropAllocas(old(body)[b])
      ensures forall b, i :: 0 <= b < |body| ==>
                (i in body[b] <==> i in old(body)[b] && !(i.Alloca? && (i.ty.IntSlot? || i.ty.FloatSlot?)))
    {
      var b := 0;
      while b < |body|
        invariant 0 <= b <= |body| == |old(body)|
        invariant forall x :: 0 <= x < |body| ==> body[x] == if x < b then DropAllocas(old(body)[x]) else old(body)[x]
      {
        var waitDelete: set<nat> := {};
        var i := 0;
        while i < |body[b]|
          invariant 0 <= i <= |body[b]|
          invariant forall j: nat :: j in waitDelete <==>
                      j < i && body[b][j].Alloca? && (body[b][j].ty.IntSlot? || body[b][j].ty.FloatSlot?)
        {
          var instr := body[b][i];
          if instr.Alloca? {
            var isInt, isFloat := instr.ty.IntSlot?, instr.ty.FloatSlot?;
            if isInt || isFloat { waitDelete := waitDelete + {i}; }
          }
          i := i + 1;
        }
        WithoutIsDrop(body[b], waitDelete, 0);
        body := body[b := Without(body[b], waitDelete, 0)];
        b := b + 1;
      }
      forall x | 0 <= x < |body|
        ensures forall i :: i in body[x] <==> i in old(body)[x] && !(i.Alloca? && (i.ty.IntSlot? || i.ty.FloatSlot?))
      {
        DropAllocasIs(old(body)[x]);
      }
    }
  }

  /** The phi `q`, which was `q0`, has had its operand for `bb` over `n` edges so far. */
  ghost predicate PairMayBe(q0: Phi, q: Phi, t: Tops, bb: nat, n: nat) {
    if n == 0 then q == q0 && PairFor(q0.pairs, bb) == None else PairAdded(q0, q, t, bb, n)
  }

  lemma {:induction false} OccursSnoc(s: seq<nat>, y: nat, x: nat)
    ensures Occurs(s + [y], x) == Occurs(s, x) + if x == y then 1 else 0
  {
    if s != [] {
      assert (s + [y])[1..] == s[1..] + [y];
      OccursSnoc(s[1..], y, x);
    }
  }

  lemma {:induction false} PairsFromSnoc(pairs: seq<(Operand, nat)>, o: Operand, b: nat, p: nat)
    ensures PairsFrom(pairs + [(o, b)], p) == PairsFrom(pairs, p) + if p == b then 1 else 0
  {
    if pairs != [] {
      assert (pairs + [(o, b)])[1..] == pairs[1..] + [(o, b)];
      PairsFromSnoc(pairs[1..], o, b, p);
    }
  }

  /** The phis of the successors in `done` have had their operand for `bb`, the others are as before. */
  ghost predicate FilledFor(phis0: seq<seq<Phi>>, phis: seq<seq<Phi>>, t: Tops, bb: nat, done: seq<nat>) {
    && |phis| == |phis0|
    && (forall y: nat {:trigger phis[y]} :: y < |phis| ==> |phis[y]| == |phis0[y]|
                                                           && (y !in done ==> phis[y] == phis0[y]))
    && (forall y: nat, k {:trigger phis[y][k]} :: y < |phis| && y in done && 0 <= k < |phis[y]| ==>
          PairAdded(phis0[y][k], phis[y][k], t, bb, Occurs(done, y)))
  }

  lemma NothingFilled(phis: seq<seq<Phi>>, t: Tops, bb: nat)
    ensures FilledFor(phis, phis, t, bb, [])
  {}

  lemma FilledSoFar(phis0: seq<seq<Phi>>, phis: seq<seq<Phi>>, t: Tops, bb: nat, done: seq<nat>, y: nat)
    requires FilledFor(phis0, phis, t, bb, done) && y < |phis0|
    requires forall k :: 0 <= k < |phis0[y]| ==> PairFor(phis0[y][k].pairs, bb) == None
    ensures |phis[y]| == |phis0[y]| && forall k :: 0 <= k < |phis0[y]| ==>
              PairMayBe(phis0[y][k], phis[y][k], t, bb, Occurs(done, y))
  {
    OccursIn(done, y);
    if y in done {
      assert forall k :: 0 <= k < |phis[y]| ==> PairAdded(phis0[y][k], phis[y][k], t, bb, Occurs(done, y));
    }
  }

  lemma FilledMore(phis0: seq<seq<Phi>>, before: seq<seq<Phi>>, phis: seq<seq<Phi>>, t: Tops, bb: nat, done: seq<nat>,
                   y: nat)
    requires FilledFor(phis0, before, t, bb, done) && y < |phis| == |phis0|
    requires forall b :: 0 <= b < |phis| && b != y ==> phis[b] == before[b]
    requires |phis[y]| == |phis0[y]| && forall k :: 0 <= k < |phis0[y]| ==>
               PairAdded(phis0[y][k], phis[y][k], t, bb, Occurs(done, y) + 1)
    ensures FilledFor(phis0, phis, t, bb, done + [y])
  {
    hide PairAdded;
    forall x: nat ensures Occurs(done + [y], x) == Occurs(done, x) + if x == y then 1 else 0 { OccursSnoc(done, y, x); }
    forall x: nat, k {:trigger phis[x][k]} | x < |phis| && x in done + [y] && 0 <= k < |phis[x]|
      ensures PairAdded(phis0[x][k], phis[x][k], t, bb, Occurs(done + [y], x))
    {
      if x != y { assert before[x][k] == phis[x][k]; }
    }
  }

  lemma FilledAll(m: Ssa, phis0: seq<seq<Phi>>, phis: seq<seq<Phi>>, t: Tops, bb: nat)
    requires WellFormed(m.g) && bb < |m.g.succ| == |phis| && FilledFor(phis0, phis, t, bb, m.g.succ[bb])
    ensures PairsAdded(m, phis0, phis, t, bb)
  {
    hide PairAdded, Occurs;
  }

  lemma SameLval(q0: Phi, q: Phi, t: Tops, bb: nat, n: nat)
    requires PairMayBe(q0, q, t, bb, n)
    ensures q.lval == q0.lval
  {}

  lemma {:induction false} PairForSnoc(pairs: seq<(Operand, nat)>, o: Operand, b: nat, p: nat)
    ensures PairFor(pairs + [(o, b)], p) == match PairFor(pairs, p) case Some(x) => Some(x) case None =>
      if p == b then Some(o) else None
  {
    if pairs != [] {
      assert (pairs + [(o, b)])[1..] == pairs[1..] + [(o, b)];
      PairForSnoc(pairs[1..], o, b, p);
    }
  }

  lemma FillAdds(q0: Phi, q: Phi, st: Stacks, bb: nat, n: nat)
    requires PairMayBe(q0, q, TopsOf(st), bb, n) && !EmptyStack(st, q.lval)
    ensures q.lval !in st ==> PairAdded(q0, q, TopsOf(st), bb, n + 1)
    ensures q.lval in st ==> PairAdded(q0, q.(pairs := q.pairs + [(st[q.lval][|st[q.lval]| - 1], bb)]), TopsOf(st),
                                       bb, n + 1)
  {
    if q.lval in st {
      var o := st[q.lval][|st[q.lval]| - 1];
      var q' := q.(pairs := q.pairs + [(o, bb)]);
      forall p: nat
        ensures PairFor(q'.pairs, p) == match PairFor(q.pairs, p) case Some(x) => Some(x) case None =>
          if p == bb then Some(o) else None
      {
        PairForSnoc(q.pairs, o, bb, p);
      }
      forall p: nat
        ensures PairsFrom(q'.pairs, p) == PairsFrom(q.pairs, p) + if p == bb then 1 else 0
      {
        PairsFromSnoc(q.pairs, o, bb, p);
      }
    }
  }

  /** The map gives every block its children in the dominator tree. */
  ghost predicate ChildrenAre(m: Ssa, children: map<int, set<nat>>) {
    && Input(m)
    && (forall b, x: nat {:trigger InMap(children, b, x)} :: InMap(children, b, x) <==>
          x < |m.g.succ| && IdomOf(m.l, x) == b && b != x)
  }

  /** Some load of the block has no value here, while its variable is known from elsewhere. */
  ghost predicate BareIn(m: Ssa, vis: set<nat>, bb: nat) {
    Input(m) && Live(m, bb) && exists v: nat, i: nat :: i < |m.orig[bb]| && BareAt(m, vis, bb, v, i)
  }

  lemma InBlockLength(m: Ssa, w0: Walk, w: Walk, bb: nat, i: nat, dead: set<nat>)
    requires BlockInv(m, w0, w, bb, i, dead)
    ensures Live(m, bb) && bb < |w.body| && |w.body[bb]| == |m.orig[bb]|
  {
    hide Input, AllRenamed, AllPairs, AllUntouched, Extends, StacksAbove, DeadUpTo, NoBareUpTo, KeysInside;
    assert BodyIs(m.c, w.S, m.orig[bb], bb in w.fin, w.body[bb]);
  }

  lemma StepAt(m: Ssa, w0: Walk, w: Walk, bb: nat, i: nat, dead: set<nat>)
    requires BlockInv(m, w0, w, bb, i, dead) && i < |m.orig[bb]|
    requires bb < |w.body| && i < |w.body[bb]|
    ensures InstrStep(m.c, w, w.body[bb][i]).None? ==> BareIn(m, w0.vis, bb)
    ensures forall w' :: InstrStep(m.c, w, w.body[bb][i]) == Some(w') ==>
              (Dead(m.c, w'.S, m.orig[bb][i]) <==>
                 (PromotedLoad(m.c, w.body[bb][i]) && w.body[bb][i].ptr.r in w.stacks)
                 || PromotedStore(m.c, w.body[bb][i]))
  {
    hide Sized, Bodies, UpClosed, AllRenamed, AllPairs, AllUntouched, Extends, StacksAbove, DeadUpTo, NoBareUpTo,
         KeysInside;
    StepStops(m, w, bb, i);
    forall w' | InstrStep(m.c, w, w.body[bb][i]) == Some(w')
      ensures Dead(m.c, w'.S, m.orig[bb][i]) <==>
              (PromotedLoad(m.c, w.body[bb][i]) && w.body[bb][i].ptr.r in w.stacks) || PromotedStore(m.c, w.body[bb][i])
    {
      BlockStep(m, w0, w, bb, i, dead, w');
    }
  }

  lemma EnterIs(m: Ssa, w: Walk, bb: nat)
    requires bb < |w.phis| && bb < |w.tin|
    ensures AfterEnter(m, w, bb) == w.(stacks := PushPhis(w.stacks, w.phis[bb], |w.phis[bb]|),
                                       tin := w.tin[bb := PhiTops(TopsOf(w.stacks), w.phis[bb])])
    ensures AfterEnter(m, w, bb).vis == w.vis
  {}

  lemma ClashSplit(m: Ssa, vis: set<nat>, bb: nat)
    requires Input(m) && Live(m, bb)
    ensures Clash(m, vis, bb) <==> BareIn(m, vis, bb) || BarePhiIn(m, vis, bb)
  {
    hide Input, BarePhi, HasPhi, DefinedAbove, Known, LoadsBare;
    if BareIn(m, vis, bb) {
      var v: nat, i: nat :| i < |m.orig[bb]| && BareAt(m, vis, bb, v, i);
      assert BareLoad(m, bb, v) && Known(m, vis, v);
    }
    if BarePhiIn(m, vis, bb) {
      var v: nat :| BarePhi(m, bb, v) && Known(m, vis, v);
      assert Clash(m, vis, bb);
    }
    if Clash(m, vis, bb) && !BarePhiIn(m, vis, bb) {
      var v: nat :| BareLoad(m, bb, v) && Known(m, vis, v);
      var i :| 0 <= i < |m.orig[bb]| && LoadsBare(m, bb, v, i);
      assert BareAt(m, vis, bb, v, i);
    }
  }

  /** At the end of the block no load was without a value, and no phi has an operand for `bb` yet. */
  lemma BlockFacts(m: Ssa, w0: Walk, w: Walk, bb: nat, dead: set<nat>)
    requires Live(m, bb) && BlockInv(m, w0, w, bb, |m.orig[bb]|, dead)
    ensures !BareIn(m, w0.vis, bb) && |w.phis| == |w.tout| == |m.g.succ|
    ensures w.vis == w0.vis && WellFormed(m.g) && (PhiClash(m, w, bb) <==> BarePhiIn(m, w0.vis, bb))
    ensures forall y: nat, k {:trigger w.phis[y][k]} :: Edge(m.g, bb, y) && y < |w.phis| && 0 <= k < |w.phis[y]| ==>
              PairFor(w.phis[y][k].pairs, bb) == None
  {
    hide Bodies, UpClosed, AllRenamed, AllUntouched, KeysInside, Extends, StacksAbove, DeadUpTo, IsDomTree,
         IsFrontier, DefsUnique, BodyOk, PhiClash, BarePhiIn;
    PhiClashIsBarePhi(m, w0, w, bb, dead);
    forall y: nat, k: nat {:trigger w.phis[y][k]} | Edge(m.g, bb, y) && y < |w.phis| && k < |w.phis[y]|
      ensures PairFor(w.phis[y][k].pairs, bb) == None
    {
      assert PairsOk(m, w, bb, y, k);
    }
  }

  /** The next child may come next in the walk. */
  lemma NextChild(m: Ssa, w0: Walk, w: Walk, bb: nat, dead: set<nat>, todo: set<nat>, x: nat, before: seq<nat>,
                  order: seq<nat>)
    requires Among(m, w0, w, bb, dead, todo) && Ready(m, w, x) && x in todo
    requires w0.vis == Members(before) && w.vis == Members(order)
    requires Walked(m, before + [bb]) && Walked(m, order) && before + [bb] <= order
    ensures Walked(m, order + [x])
  {
    hide Input, Bodies, UpClosed, AllRenamed, AllPairs, AllUntouched, KeysAre, Extends, DeadUpTo, SameTouts, Under,
         Walked;
    assert x !in Members(order);
    ChildNext(m, before, bb, order, todo, x);
  }

  lemma AmongKeys(m: Ssa, w0: Walk, w: Walk, bb: nat, dead: set<nat>)
    requires Among(m, w0, w, bb, dead, {})
    ensures w0.stacks.Keys <= w.stacks.Keys && bb < |w.body| == |w.phis| == |m.orig|
  {
    hide Input, Bodies, UpClosed, AllRenamed, AllPairs, AllUntouched, KeysAre, Extends, DeadUpTo, SameTouts, Under;
  }
}

/** The stack discipline of the renaming walk, and when an empty stack is consulted. */
module RenameStacks {
  import opened Graph
  import opened DomTree
  import opened IR
  import opened Renaming
  import opened Promotion
  import opened RenameSteps
  import opened RenameWalk

  // ----- counting pushes -----------------------------------------------------------------------------

  function StoreCount(c: Ctx, body: seq<Instr>, v: nat): nat {
    if body == [] then 0 else (if PromotedStore(c, body[0]) && body[0].ptr.r == v then 1 else 0) + StoreCount(c,
        body[1..], v)
  }

  function PhiCount(phis: seq<Phi>, v: nat): nat {
    if phis == [] then 0 else (if phis[0].lval == v then 1 else 0) + PhiCount(phis[1..], v)
  }

  lemma {:induction false} StoreCountSplit(c: Ctx, body: seq<Instr>, v: nat, i: nat)
    requires i <= |body|
    ensures StoreCount(c, body, v) == StoreCount(c, body[..i], v) + StoreCount(c, body[i..], v)
    decreases i
  {
    if i > 0 {
      assert body[..i][1..] == body[1..][..i - 1] && body[i..] == body[1..][i - 1..];
      StoreCountSplit(c, body[1..], v, i - 1);
    } else {
      assert body[0..] == body;
    }
  }

  lemma StoreCountSnoc(c: Ctx, body: seq<Instr>, v: nat, i: nat)
    requires i < |body|
    ensures StoreCount(c, body[..i + 1], v) == StoreCount(c, body[..i], v) + if PromotedStore(c, body[i])
            && body[i].ptr.r == v then 1 else 0
    ensures StoreCount(c, body[i..], v) == StoreCount(c, body[i + 1..], v) + if PromotedStore(c, body[i])
            && body[i].ptr.r == v then 1 else 0
    ensures HasStore(c, body[..i + 1], v) <==> HasStore(c, body[..i], v)
                                               || (PromotedStore(c, body[i]) && body[i].ptr.r == v)
  {
    StoreCountSplit(c, body[..i + 1], v, i);
    assert body[..i + 1][..i] == body[..i] && body[..i + 1][i..] == [body[i]];
    assert body[i..][1..] == body[i + 1..];
    assert body[..i + 1] == body[..i] + [body[i]];
    assert StoreCount(c, [body[i]], v) == if PromotedStore(c, body[i]) && body[i].ptr.r == v then 1 else 0;
    if x :| x in body[..i + 1] && PromotedStore(c, x) && x.ptr.r == v { assert x in body[..i] || x == body[i]; }
    assert body[i] in body[..i + 1] && forall x :: x in body[..i] ==> x in body[..i + 1];
  }

  lemma {:induction false} PhiCountSplit(phis: seq<Phi>, v: nat, i: nat)
    requires i <= |phis|
    ensures PhiCount(phis, v) == PhiCount(phis[..i], v) + PhiCount(phis[i..], v)
    decreases i
  {
    if i > 0 {
      assert phis[..i][1..] == phis[1..][..i - 1] && phis[i..] == phis[1..][i - 1..];
      PhiCountSplit(phis[1..], v, i - 1);
    } else {
      assert phis[0..] == phis;
    }
  }

  lemma PhiCountSnoc(phis: seq<Phi>, v: nat, i: nat)
    requires i < |phis|
    ensures PhiCount(phis[..i + 1], v) == PhiCount(phis[..i], v) + if phis[i].lval == v then 1 else 0
    ensures PhiCount(phis[i..], v) == PhiCount(phis[i + 1..], v) + if phis[i].lval == v then 1 else 0
  {
    PhiCountSplit(phis[..i + 1], v, i);
    assert phis[..i + 1][..i] == phis[..i] && phis[..i + 1][i..] == [phis[i]];
    assert phis[i..][1..] == phis[i + 1..];
  }

  /** The stack of `v` is the one in `base` with `k` more values on top. */
  ghost predicate Above(base: Stacks, st: Stacks, v: nat, k: nat) {
    |StackOf(st, v)| == |StackOf(base, v)| + k && StackOf(base, v) <= StackOf(st, v)
  }

  /** All stacks hold what they held; variables may have become known, with nothing on their stack. */
  ghost predicate SameStacks(base: Stacks, st: Stacks) {
    (forall v: nat {:trigger StackOf(st, v)} :: StackOf(st, v) == StackOf(base, v)) && base.Keys <= st.Keys
  }

  lemma SameTops(base: Stacks, st: Stacks)
    requires SameStacks(base, st)
    ensures TopsOf(st) == TopsOf(base)
  {
    forall v: nat ensures v in TopsOf(st) <==> v in TopsOf(base) { assert StackOf(st, v) == StackOf(base, v); }
    forall v: nat | v in TopsOf(st)
      ensures TopsOf(st)[v] == TopsOf(base)[v]
    {
      assert StackOf(st, v) == StackOf(base, v);
    }
  }

  lemma PushAbove(base: Stacks, st: Stacks, u: nat, o: Operand, v: nat, k: nat)
    requires Above(base, st, v, k)
    ensures Above(base, Push(st, u, o), v, if u == v then k + 1 else k)
  {}

  function Pop(st: Stacks, v: nat): Stacks
    requires v in st && st[v] != []
  {
    st[v := st[v][..|st[v]| - 1]]
  }

  lemma PopAbove(base: Stacks, st: Stacks, u: nat, v: nat, k: nat)
    requires u in st && st[u] != [] && Above(base, st, v, k) && (u == v ==> k > 0)
    ensures Above(base, Pop(st, u), v, if u == v then k - 1 else k)
  {}

  lemma {:induction false} PushPhisAbove(st: Stacks, phis: seq<Phi>, k: nat, v: nat)
    requires k <= |phis|
    ensures Above(st, PushPhis(st, phis, k), v, PhiCount(phis[..k], v))
    decreases k
  {
    if k > 0 {
      PushPhisAbove(st, phis, k - 1, v);
      PhiCountSnoc(phis, v, k - 1);
      PushAbove(st, PushPhis(st, phis, k - 1), phis[k - 1].lval, Reg(phis[k - 1].dst), v, PhiCount(phis[..k - 1], v));
    }
  }

  // ----- which variables have a value ------------------------------------------------------------------

  /** Block `x` gives `v` a new value. */
  predicate Defines(m: Ssa, x: nat, v: nat)
    requires x < |m.orig| == |m.phis|
  {
    HasStore(m.c, m.orig[x], v) || HasPhi(m.phis[x], v)
  }

  /** A block on the chain of `b` gives `v` a value. */
  ghost predicate DefinedOn(m: Ssa, b: nat, v: nat)
    requires Input(m) && Live(m, b)
  {
    exists d: nat :: d in Chain(m.id, m.l, b) && d < |m.orig| && Defines(m, d, v)
  }

  ghost predicate DefinedAbove(m: Ssa, b: nat, v: nat)
    requires Input(m) && Live(m, b)
  {
    b != 0 && DefinedOn(m, m.l.to[b], v)
  }

  lemma {:induction false} TopsKeys(c: Ctx, S: Tops, t: Tops, body: seq<Instr>, v: nat)
    ensures v in TopsAfter(c, S, t, body) <==> v in t || HasStore(c, body, v)
    decreases body
  {
    if body != [] {
      TopsKeys(c, S, TopsStep(c, S, t, body[0]), body[1..], v);
      if x :| x in body && PromotedStore(c, x) && x.ptr.r == v { assert x == body[0] || x in body[1..]; }
      assert body[0] in body && forall x :: x in body[1..] ==> x in body;
    }
  }

  lemma {:induction false} PhiTopsKeys(t: Tops, phis: seq<Phi>, v: nat)
    ensures v in PhiTops(t, phis) <==> v in t || HasPhi(phis, v)
    decreases phis
  {
    if phis != [] {
      PhiTopsKeys(t[phis[0].lval := Reg(phis[0].dst)], phis[1..], v);
      if k :| 0 <= k < |phis| && phis[k].lval == v { assert k == 0 || phis[1..][k - 1].lval == v; }
      if k :| 0 <= k < |phis[1..]| && phis[1..][k].lval == v { assert phis[k + 1].lval == v; }
    }
  }

  /** On leaving a renamed block, a variable has a value exactly when its chain defines one. */
  lemma {:induction false} OutKeys(m: Ssa, w: Walk, b: nat, v: nat)
    requires Input(m) && Sized(m, w) && UpClosed(m, w) && AllRenamed(m, w) && Live(m, b) && b in w.vis
             && b in m.l.known
    ensures v in w.tout[b] <==> DefinedOn(m, b, v)
    decreases m.id[0] - m.id[b]
  {
    assert RenamedAt(m, w, b);
    TopsKeys(m.c, w.S, w.tin[b], m.orig[b], v);
    PhiTopsKeys(TopsAbove(m, w, b), m.phis[b], v);
    ChainIds(m.id, m.l, b);
    if b != 0 {
      ChainIds(m.id, m.l, m.l.to[b]);
      assert m.l.to[b] in Chain(m.id, m.l, b);
      OutKeys(m, w, m.l.to[b], v);
    }
  }

  /** Inside block `bb`, a variable has a value when the block has defined one so far, or its chain has. */
  lemma InKeys(m: Ssa, w: Walk, bb: nat, i: nat, v: nat)
    requires Inv(m, w, {bb}) && Live(m, bb) && i <= |m.orig[bb]| && Inside(m, w, bb, i)
    ensures v in TopsOf(w.stacks) <==> HasStore(m.c, m.orig[bb][..i], v) || HasPhi(m.phis[bb], v)
                                       || DefinedAbove(m, bb, v)
  {
    TopsKeys(m.c, w.S, w.tin[bb], m.orig[bb][..i], v);
    PhiTopsKeys(TopsAbove(m, w, bb), m.phis[bb], v);
    if bb != 0 { OutKeys(m, w, m.l.to[bb], v); }
  }

  // ----- uses without a value ----------------------------------------------------------------------------

  /** A load of `v` in `b` before anything on the way from the entry has given `v` a value. */
  ghost predicate BareLoad(m: Ssa, b: nat, v: nat)
    requires Input(m) && Live(m, b)
  {
    && !HasPhi(m.phis[b], v) && !DefinedAbove(m, b, v)
    && exists i :: 0 <= i < |m.orig[b]| && LoadsBare(m, b, v, i)
  }

  ghost predicate LoadsBare(m: Ssa, b: nat, v: nat, i: nat)
    requires Input(m) && Live(m, b) && i < |m.orig[b]|
  {
    PromotedLoad(m.c, m.orig[b][i]) && m.orig[b][i].ptr.r == v && !HasStore(m.c, m.orig[b][..i], v)
  }

  /** A phi for `v` after `b`, when nothing up to the end of `b` has given `v` a value. */
  ghost predicate BarePhi(m: Ssa, b: nat, v: nat)
    requires Input(m) && Live(m, b)
  {
    !DefinedOn(m, b, v) && exists y: nat :: Edge(m.g, b, y) && HasPhi(m.phis[y], v)
  }

  /** A use without a value in `b` of a variable that a block visited earlier has defined: the only
      case in which the walk consults an empty stack. */
  ghost predicate Clash(m: Ssa, before: set<nat>, b: nat)
    requires Input(m)
  {
    Live(m, b) && exists v: nat :: (BareLoad(m, b, v) || BarePhi(m, b, v)) && Known(m, before, v)
  }

  ghost predicate Known(m: Ssa, before: set<nat>, v: nat)
    requires Input(m)
  {
    exists x: nat :: x in before && Live(m, x) && Defines(m, x, v)
  }

  ghost predicate ClashAt(m: Ssa, order: seq<nat>, k: nat)
    requires Input(m) && k < |order|
  {
    Clash(m, (set x | x in order[..k]), order[k])
  }

  /** The variables with a stack, possibly empty, are those defined so far. */
  ghost predicate KeysAre(m: Ssa, st: Stacks, vis: set<nat>)
    requires Input(m)
  {
    forall v: nat {:trigger v in st} :: v in st <==> Known(m, vis, v)
  }

  ghost predicate KeysInside(m: Ssa, st: Stacks, vis: set<nat>, bb: nat, i: nat)
    requires Input(m) && Live(m, bb) && i <= |m.orig[bb]|
  {
    forall v: nat {:trigger v in st} :: v in st <==> Known(m, vis, v) || HasPhi(m.phis[bb], v)
                                                     || HasStore(m.c, m.orig[bb][..i], v)
  }

  lemma KnownGrows(m: Ssa, vis: set<nat>, bb: nat, v: nat)
    requires Input(m) && Live(m, bb)
    ensures Known(m, vis + {bb}, v) <==> Known(m, vis, v) || Defines(m, bb, v)
  {}

  lemma {:induction false} PushPhisKeys(st: Stacks, phis: seq<Phi>, k: nat, v: nat)
    requires k <= |phis|
    ensures v in PushPhis(st, phis, k) <==> v in st || HasPhi(phis[..k], v)
    decreases k
  {
    if k > 0 {
      PushPhisKeys(st, phis, k - 1, v);
      var p := phis[..k - 1];
      if j :| 0 <= j < k && phis[..k][j].lval == v { assert j == k - 1 || p[j].lval == v; }
      if j :| 0 <= j < |p| && p[j].lval == v { assert phis[..k][j].lval == v; }
      assert phis[..k][k - 1] == phis[k - 1];
    }
  }

  lemma AboveSelf(st: Stacks, v: nat)
    ensures Above(st, st, v, 0)
  {}

  lemma AboveTrans(base: Stacks, st1: Stacks, st2: Stacks, v: nat, k1: nat, k2: nat)
    requires Above(base, st1, v, k1) && Above(st1, st2, v, k2)
    ensures Above(base, st2, v, k1 + k2)
  {}

  /** `S` extends `S0`, by loads of blocks that are not in `vis`. */
  ghost predicate Extends(m: Ssa, S0: Tops, S: Tops, vis: set<nat>) {
    && (forall r :: r in S0 ==> r in S && S[r] == S0[r])
    && (forall y: nat, r {:trigger y in vis, r in Defs(m.orig[y])} ::
          y in vis && y < |m.orig| && r in Defs(m.orig[y]) && r in S ==> r in S0)
  }

  /** Two instructions of a block do not set the same register. */
  lemma DstsDiffer(c: Ctx, avail: set<nat>, body: seq<Instr>, j: nat, i: nat)
    requires BodyOk(c, avail, body) && j < i < |body| && HasDst(body[j]) && HasDst(body[i])
    ensures body[j].dst != body[i].dst
  {
    BodySplit(c, avail, body, i);
    BodySplit(c, avail, body[..i], j);
    assert body[..i][j] == body[j];
  }

  /** What a load or store of a slot looks like in the list being rewritten. */
  lemma SubstKeepsKind(c: Ctx, S: Tops, avail: set<nat>, l: Instr)
    requires InstrOk(c, avail, l) && forall r :: r in S ==> r !in c.geps && r !in c.scalars
    ensures PromotedLoad(c, SubstInstr(S, l)) <==> PromotedLoad(c, l)
    ensures PromotedStore(c, SubstInstr(S, l)) <==> PromotedStore(c, l)
    ensures PromotedLoad(c, l) ==> SubstInstr(S, l) == l
    ensures PromotedStore(c, l) ==> SubstInstr(S, l).ptr == l.ptr && SubstInstr(S, l).val == Subst(S, l.val)
  {
    if l.Load? || l.Store? { PtrKept(c, S, l.ptr); }
  }

  lemma InstrInWalk(m: Ssa, w: Walk, bb: nat, i: nat)
    requires Inv(m, w, {bb}) && Live(m, bb) && i < |m.orig[bb]| && bb !in w.vis
    ensures |w.body[bb]| == |m.orig[bb]| && w.body[bb][i] == SubstInstr(w.S, m.orig[bb][i])
    ensures exists avail :: InstrOk(m.c, avail, m.orig[bb][i])
  {
    assert BodyIs(m.c, w.S, m.orig[bb], bb in w.fin, w.body[bb]);
    BodySplit(m.c, AvailIn(m, bb) + PhiDsts(m.phis[bb]), m.orig[bb], i);
  }

  // ----- one instruction ---------------------------------------------------------------------------------

  /** A load takes the newest value of its variable, a store sets it; None for an empty stack. */
  function InstrStep(c: Ctx, w: Walk, instr: Instr): Option<Walk> {
    if PromotedLoad(c, instr) then
      if instr.ptr.r !in w.stacks then Some(w)
      else if w.stacks[instr.ptr.r] == [] then None
      else Some(AfterLoad(w, instr.dst, w.stacks[instr.ptr.r][|w.stacks[instr.ptr.r]| - 1]))
    else if PromotedStore(c, instr) then Some(AfterStore(w, instr.ptr.r, instr.val))
    else Some(w)
  }

  function StepFor(c: Ctx, w: Walk, l: Instr): Option<Walk> {
    if PromotedLoad(c, l) then
      if l.ptr.r !in w.stacks then Some(w)
      else if w.stacks[l.ptr.r] == [] then None
      else Some(AfterLoad(w, l.dst, w.stacks[l.ptr.r][|w.stacks[l.ptr.r]| - 1]))
    else if PromotedStore(c, l) then Some(AfterStore(w, l.ptr.r, Subst(w.S, l.val)))
    else Some(w)
  }

  /** The same, told from the instruction of the input. */
  lemma InstrStepOf(m: Ssa, w: Walk, bb: nat, i: nat)
    requires Inv(m, w, {bb}) && Live(m, bb) && i < |m.orig[bb]| && bb !in w.vis
    ensures |w.body[bb]| == |m.orig[bb]|
    ensures InstrStep(m.c, w, w.body[bb][i]) == StepFor(m.c, w, m.orig[bb][i])
  {
    InstrInWalk(m, w, bb, i);
    var avail :| InstrOk(m.c, avail, m.orig[bb][i]);
    SubstKeepsKind(m.c, w.S, avail, m.orig[bb][i]);
  }

  lemma StepKeepsInv(m: Ssa, w: Walk, bb: nat, i: nat, w': Walk)
    requires Inv(m, w, {bb}) && Live(m, bb) && i < |m.orig[bb]| && Inside(m, w, bb, i)
    requires bb < |w.body| && i < |w.body[bb]| && InstrStep(m.c, w, w.body[bb][i]) == Some(w')
    ensures Inv(m, w', {bb}) && Inside(m, w', bb, i + 1)
  {
    hide Input, Sized, Bodies, UpClosed, AllRenamed, AllPairs, AllUntouched;
    InstrStepOf(m, w, bb, i);
    var l := m.orig[bb][i];
    if PromotedLoad(m.c, l) && l.ptr.r in w.stacks {
      var o := w.stacks[l.ptr.r][|w.stacks[l.ptr.r]| - 1];
      LoadKeepsInv(m, w, bb, i, l.dst, o);
      LoadKeepsInside(m, w, bb, i, l.dst, o);
    } else if PromotedStore(m.c, l) {
      StoreKeepsInv(m, w, bb, i);
      StoreKeepsInside(m, w, bb, i);
    } else {
      OtherStep(m, w, bb, i);
    }
  }

  /** How many values an instruction pushes for `v`. */
  function Pushes(c: Ctx, l: Instr, v: nat): nat {
    if PromotedStore(c, l) && l.ptr.r == v then 1 else 0
  }

  /** What else one instruction leaves as it was, or adds. */
  ghost predicate Adds(c: Ctx, l: Instr, w: Walk, w': Walk) {
    && w'.phis == w.phis && w'.tin == w.tin && w'.tout == w.tout && w'.vis == w.vis && w'.fin == w.fin
    && (forall r :: r in w.S ==> r in w'.S && w'.S[r] == w.S[r])
    && (forall r :: r in w'.S && r !in w.S ==> PromotedLoad(c, l) && r == l.dst)
    && (forall v: nat ::
          Above(w.stacks, w'.stacks, v, Pushes(c, l, v)))
    && (forall v: nat {:trigger v in w'.stacks} :: v in w'.stacks <==>
          v in w.stacks || (PromotedStore(c, l) && l.ptr.r == v))
    && Dead(c, w'.S, l) == (PromotedStore(c, l) || (PromotedLoad(c, l) && l.ptr.r in w.stacks))
  }

  lemma LoadAdds(c: Ctx, w: Walk, l: Instr, o: Operand)
    requires PromotedLoad(c, l) && Untouched(w, l.dst) && l.ptr.r in w.stacks
    ensures Adds(c, l, w, AfterLoad(w, l.dst, o))
  {
    PhisUntouched(w, l.dst, o);
    var w' := AfterLoad(w, l.dst, o);
    assert w'.stacks == w.stacks && !PromotedStore(c, l);
    forall v: nat ensures Above(w.stacks, w'.stacks, v, Pushes(c, l, v)) { AboveSelf(w.stacks, v); }
    assert Dead(c, w'.S, l);
  }

  lemma StoreAdds(c: Ctx, w: Walk, l: Instr, o: Operand)
    requires PromotedStore(c, l)
    ensures Adds(c, l, w, AfterStore(w, l.ptr.r, o))
  {
    var w' := AfterStore(w, l.ptr.r, o);
    forall v: nat ensures Above(w.stacks, w'.stacks, v, Pushes(c, l, v)) {
      AboveSelf(w.stacks, v);
      PushAbove(w.stacks, w.stacks, l.ptr.r, o, v, 0);
    }
    assert PromotedStore(c, l);
    assert Dead(c, w'.S, l);
  }

  lemma StepAdds(c: Ctx, w: Walk, l: Instr, w': Walk)
    requires PromotedLoad(c, l) ==> Untouched(w, l.dst)
    requires StepFor(c, w, l) == Some(w')
    ensures Adds(c, l, w, w')
  {
    if PromotedLoad(c, l) && l.ptr.r in w.stacks {
      LoadAdds(c, w, l, w.stacks[l.ptr.r][|w.stacks[l.ptr.r]| - 1]);
    } else if PromotedStore(c, l) {
      StoreAdds(c, w, l, Subst(w.S, l.val));
    } else {
      forall v: nat ensures Above(w.stacks, w'.stacks, v, Pushes(c, l, v)) { AboveSelf(w.stacks, v); }
    }
  }

  /** The walk stops at a load exactly when the variable is known but has no value here. */
  lemma StepStops(m: Ssa, w: Walk, bb: nat, i: nat)
    requires Inv(m, w, {bb}) && Live(m, bb) && i < |m.orig[bb]| && Inside(m, w, bb, i)
             && KeysInside(m, w.stacks, w.vis, bb, i)
    ensures bb < |w.body| && i < |w.body[bb]|
    ensures InstrStep(m.c, w, w.body[bb][i]).None? <==> exists v: nat :: BareAt(m, w.vis, bb, v, i)
  {
    InstrStepOf(m, w, bb, i);
    var l := m.orig[bb][i];
    if PromotedLoad(m.c, l) {
      InKeys(m, w, bb, i, l.ptr.r);
      if InstrStep(m.c, w, w.body[bb][i]).None? { assert BareAt(m, w.vis, bb, l.ptr.r, i); }
    }
  }

  /** Instruction `i` of `bb` loads `v`, which has no value here but is known from elsewhere. */
  ghost predicate BareAt(m: Ssa, vis: set<nat>, bb: nat, v: nat, i: nat)
    requires Input(m) && Live(m, bb) && i < |m.orig[bb]|
  {
    LoadsBare(m, bb, v, i) && !HasPhi(m.phis[bb], v) && !DefinedAbove(m, bb, v) && Known(m, vis, v)
  }

  // ----- one block -----------------------------------------------------------------------------------------

  /** The position is one of a load or store that has been dealt with. */
  ghost predicate DeadUpTo(m: Ssa, w: Walk, bb: nat, i: nat, dead: set<nat>)
    requires Live(m, bb) && i <= |m.orig[bb]|
  {
    && (forall j: nat :: j in dead ==> j < i)
    && (forall j: nat :: j < i ==> (j in dead <==> Dead(m.c, w.S, m.orig[bb][j])))
  }

  ghost predicate NoBareUpTo(m: Ssa, vis: set<nat>, bb: nat, i: nat)
    requires Input(m) && Live(m, bb) && i <= |m.orig[bb]|
  {
    forall v: nat, j: nat {:trigger BareAt(m, vis, bb, v, j)} :: j < i ==> !BareAt(m, vis, bb, v, j)
  }

  /** How many values the first `i` instructions of `bb` push for `v`. */
  function CountTo(m: Ssa, bb: nat, i: nat, v: nat): nat
    requires Live(m, bb) && i <= |m.orig[bb]|
  {
    StoreCount(m.c, m.orig[bb][..i], v)
  }

  ghost predicate StacksAbove(m: Ssa, base: Stacks, st: Stacks, bb: nat, i: nat)
    requires Live(m, bb) && i <= |m.orig[bb]|
  {
    forall v: nat :: Above(base, st, v, CountTo(m, bb, i, v))
  }

  /** What holds in block `bb`, entered in state `w0`, before its instruction `i`. */
  ghost predicate BlockInv(m: Ssa, w0: Walk, w: Walk, bb: nat, i: nat, dead: set<nat>) {
    && Inv(m, w, {bb}) && Live(m, bb) && i <= |m.orig[bb]| && Inside(m, w, bb, i)
    && KeysInside(m, w.stacks, w.vis, bb, i)
    && w.phis == w0.phis && w.tin == w0.tin && w.tout == w0.tout && w.vis == w0.vis && w.fin == w0.fin
    && Extends(m, w0.S, w.S, w.vis)
    && StacksAbove(m, w0.stacks, w.stacks, bb, i)
    && DeadUpTo(m, w, bb, i, dead)
    && NoBareUpTo(m, w.vis, bb, i)
  }

  lemma BlockStart(m: Ssa, w: Walk, bb: nat)
    requires Inv(m, w, {bb}) && Live(m, bb) && Inside(m, w, bb, 0) && KeysInside(m, w.stacks, w.vis, bb, 0)
    ensures BlockInv(m, w, w, bb, 0, {})
  {
    hide Inv, Inside, Input;
    forall v: nat ensures Above(w.stacks, w.stacks, v, CountTo(m, bb, 0, v)) { AboveSelf(w.stacks, v); }
  }

  lemma StepKeepsKeys(m: Ssa, w: Walk, w': Walk, bb: nat, i: nat)
    requires Input(m) && Live(m, bb) && i < |m.orig[bb]| && KeysInside(m, w.stacks, w.vis, bb, i)
    requires Adds(m.c, m.orig[bb][i], w, w')
    ensures KeysInside(m, w'.stacks, w'.vis, bb, i + 1)
  {
    hide Input;
    forall v: nat ensures HasStore(m.c, m.orig[bb][..i + 1], v) <==>
      HasStore(m.c, m.orig[bb][..i], v) || (PromotedStore(m.c, m.orig[bb][i]) && m.orig[bb][i].ptr.r == v)
    {
      StoreCountSnoc(m.c, m.orig[bb], v, i);
    }
  }

  lemma StepKeepsAbove(m: Ssa, base: Stacks, w: Walk, w': Walk, bb: nat, i: nat)
    requires Live(m, bb) && i < |m.orig[bb]| && StacksAbove(m, base, w.stacks, bb, i)
    requires Adds(m.c, m.orig[bb][i], w, w')
    ensures StacksAbove(m, base, w'.stacks, bb, i + 1)
  {
    var i' := i + 1;
    forall v: nat ensures Above(base, w'.stacks, v, CountTo(m, bb, i', v)) {
      StoreCountSnoc(m.c, m.orig[bb], v, i);
      var k := CountTo(m, bb, i, v);
      assert Above(base, w.stacks, v, k);
      assert Above(w.stacks, w'.stacks, v, Pushes(m.c, m.orig[bb][i], v));
      AboveTrans(base, w.stacks, w'.stacks, v, k, Pushes(m.c, m.orig[bb][i], v));
    }
  }

  lemma StepKeepsDead(m: Ssa, avail: set<nat>, w: Walk, w': Walk, bb: nat, i: nat, dead: set<nat>)
    requires Live(m, bb) && i < |m.orig[bb]| && BodyOk(m.c, avail, m.orig[bb])
    requires DeadUpTo(m, w, bb, i, dead) && Adds(m.c, m.orig[bb][i], w, w')
    ensures DeadUpTo(m, w', bb, i + 1, if Dead(m.c, w'.S, m.orig[bb][i]) then dead + {i} else dead)
  {
    forall j: nat | j < i ensures Dead(m.c, w'.S, m.orig[bb][j]) <==> Dead(m.c, w.S, m.orig[bb][j]) {
      if PromotedLoad(m.c, m.orig[bb][j]) && PromotedLoad(m.c, m.orig[bb][i]) {
        DstsDiffer(m.c, avail, m.orig[bb], j, i);
      }
    }
  }

  lemma StepKeepsExtends(m: Ssa, S0: Tops, w: Walk, w': Walk, bb: nat, i: nat)
    requires Input(m) && Live(m, bb) && i < |m.orig[bb]| && bb !in w.vis
    requires Extends(m, S0, w.S, w.vis) && Adds(m.c, m.orig[bb][i], w, w')
    ensures Extends(m, S0, w'.S, w'.vis)
  {
    var l := m.orig[bb][i];
    forall y: nat, r {:trigger y in w.vis, r in Defs(m.orig[y])} | y in w.vis && y < |m.orig| && r in Defs(m.orig[y])
                                                                   && r in w'.S
      ensures r in S0
    {
      if r !in w.S {
        BodySplit(m.c, AvailIn(m, bb) + PhiDsts(m.phis[bb]), m.orig[bb], i);
        OneDef(m, y, bb, r);
      }
    }
  }

  lemma BlockStep(m: Ssa, w0: Walk, w: Walk, bb: nat, i: nat, dead: set<nat>, w': Walk)
    requires BlockInv(m, w0, w, bb, i, dead) && i < |m.orig[bb]|
    requires bb < |w.body| && i < |w.body[bb]| && InstrStep(m.c, w, w.body[bb][i]) == Some(w')
    ensures BlockInv(m, w0, w', bb, i + 1, if Dead(m.c, w'.S, m.orig[bb][i]) then dead + {i} else dead)
    ensures Dead(m.c, w'.S, m.orig[bb][i]) <==>
            (PromotedLoad(m.c, w.body[bb][i]) && w.body[bb][i].ptr.r in w.stacks) || PromotedStore(m.c, w.body[bb][i])
  {
    StepFacts(m, w, bb, i, w');
    hide Inv, Inside, Adds, Extends, KeysInside, StacksAbove, DeadUpTo, BareAt;
    StepKeepsKeys(m, w, w', bb, i);
    StepKeepsAbove(m, w0.stacks, w, w', bb, i);
    StepKeepsDead(m, AvailIn(m, bb) + PhiDsts(m.phis[bb]), w, w', bb, i, dead);
    StepKeepsExtends(m, w0.S, w, w', bb, i);
  }

  /** A load or store of a slot can be told in the list being rewritten; a load yet to come is new. */
  lemma KindInWalk(m: Ssa, w: Walk, bb: nat, i: nat)
    requires Inv(m, w, {bb}) && Live(m, bb) && i < |m.orig[bb]| && Inside(m, w, bb, i)
    ensures |w.body| == |m.orig| && |w.body[bb]| == |m.orig[bb]|
    ensures var l, l' := m.orig[bb][i], w.body[bb][i];
            && (PromotedLoad(m.c, l') <==> PromotedLoad(m.c, l)) && (PromotedStore(m.c, l') <==> PromotedStore(m.c, l))
            && (PromotedLoad(m.c, l) ==> l' == l && Untouched(w, l.dst))
    ensures BodyOk(m.c, AvailIn(m, bb) + PhiDsts(m.phis[bb]), m.orig[bb])
  {
    hide UpClosed, AllRenamed, AllPairs, AllUntouched, IsDomTree, IsFrontier, DefsUnique, InstrOk, Untouched;
    InstrInWalk(m, w, bb, i);
    var avail :| InstrOk(m.c, avail, m.orig[bb][i]);
    SubstKeepsKind(m.c, w.S, avail, m.orig[bb][i]);
    InTreeOk(m, bb);
    BodySplit(m.c, AvailIn(m, bb) + PhiDsts(m.phis[bb]), m.orig[bb], i);
  }

  lemma InTreeOk(m: Ssa, bb: nat)
    requires Input(m) && Live(m, bb)
    ensures Linked(m.id, m.l) && bb in m.l.known && |m.l.to| == |m.orig| == |m.phis|
    ensures BodyOk(m.c, AvailIn(m, bb) + PhiDsts(m.phis[bb]), m.orig[bb])
  {}

  /** All that one instruction does. */
  lemma StepFacts(m: Ssa, w: Walk, bb: nat, i: nat, w': Walk)
    requires Inv(m, w, {bb}) && Live(m, bb) && i < |m.orig[bb]| && Inside(m, w, bb, i)
             && KeysInside(m, w.stacks, w.vis, bb, i)
    requires bb < |w.body| && i < |w.body[bb]| && InstrStep(m.c, w, w.body[bb][i]) == Some(w')
    ensures Input(m) && Inv(m, w', {bb}) && Inside(m, w', bb, i + 1)
    ensures Adds(m.c, m.orig[bb][i], w, w') && bb !in w.vis
    ensures w'.phis == w.phis && w'.tin == w.tin && w'.tout == w.tout && w'.vis == w.vis && w'.fin == w.fin
    ensures BodyOk(m.c, AvailIn(m, bb) + PhiDsts(m.phis[bb]), m.orig[bb])
    ensures forall v: nat :: !BareAt(m, w.vis, bb, v, i)
    ensures Dead(m.c, w'.S, m.orig[bb][i]) <==>
            (PromotedLoad(m.c, w.body[bb][i]) && w.body[bb][i].ptr.r in w.stacks) || PromotedStore(m.c, w.body[bb][i])
  {
    hide Sized, UpClosed, AllRenamed, AllPairs, AllUntouched, InstrOk, IsDomTree, IsFrontier, DefsUnique, Adds,
         BareAt, Untouched;
    StepKeepsInv(m, w, bb, i, w');
    InstrStepOf(m, w, bb, i);
    StepStops(m, w, bb, i);
    KindInWalk(m, w, bb, i);
    StepAdds(m.c, w, m.orig[bb][i], w');
  }
}

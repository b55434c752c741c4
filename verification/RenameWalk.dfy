/** The renaming walk over the dominator tree, on values: its invariant and what each step does to it. */
module RenameWalk {
  import opened Graph
  import opened DomTree
  import opened IR
  import opened Renaming
  import opened Promotion
  import opened RenameSteps

  /** The state of the walk. `vis` are the blocks it has renamed, `fin` those it has left for good. */
  datatype Walk = Walk(body: seq<seq<Instr>>, phis: seq<seq<Phi>>, stacks: Stacks, S: Tops,
                       tin: seq<Tops>, tout: seq<Tops>, vis: set<nat>, fin: set<nat>)

  /** The same phis for the same variables; operands may differ. */
  ghost predicate SameShape(p: seq<Phi>, q: seq<Phi>) {
    |p| == |q| && forall k :: 0 <= k < |p| ==> p[k].dst == q[k].dst && p[k].lval == q[k].lval
  }

  /** No replaced use, no stack and no phi names the register, and it has not been replaced itself. */
  ghost predicate Untouched(w: Walk, r: nat) {
    && r !in w.S
    && (forall q :: q in w.S ==> w.S[q] != Reg(r))
    && (forall v :: v in w.stacks ==> Reg(r) !in w.stacks[v])
    && (forall b, k, j :: 0 <= b < |w.phis| && 0 <= k < |w.phis[b]| && 0 <= j < |w.phis[b][k].pairs| ==>
          w.phis[b][k].pairs[j].0 != Reg(r))
  }

  /** Block `b` has been renamed from the values on leaving its immediate dominator. */
  ghost predicate RenamedAt(m: Ssa, w: Walk, b: nat)
    requires Input(m) && |w.tin| == |w.tout| == |m.orig| && Live(m, b)
  {
    && w.tin[b] == PhiTops(TopsAbove(m, w, b), m.phis[b])
    && LoadsOk(m.c, w.S, w.tin[b], m.orig[b])
    && w.tout[b] == TopsAfter(m.c, w.S, w.tin[b], m.orig[b])
  }

  ghost function TopsAbove(m: Ssa, w: Walk, b: nat): Tops
    requires Input(m) && |w.tout| == |m.orig| && Live(m, b)
  {
    if b == 0 then map[] else w.tout[m.l.to[b]]
  }

  /** How many pairs are for predecessor `p`. */
  function PairsFrom(pairs: seq<(Operand, nat)>, p: nat): nat {
    if pairs == [] then 0 else (if pairs[0].1 == p then 1 else 0) + PairsFrom(pairs[1..], p)
  }

  function Occurs(s: seq<nat>, x: nat): nat {
    if s == [] then 0 else (if s[0] == x then 1 else 0) + Occurs(s[1..], x)
  }

  lemma {:induction false} OccursIn(s: seq<nat>, x: nat)
    ensures x in s <==> Occurs(s, x) > 0
  {
    if s != [] { OccursIn(s[1..], x); }
  }

  /** One pair for each edge from `p`, once `p` has been renamed and has a value to give. */
  ghost predicate PairsOk(m: Ssa, w: Walk, p: nat, b: nat, k: nat)
    requires Input(m) && |w.phis| == |w.tout| == |m.orig| && p < |m.orig| && b < |m.orig| && k < |w.phis[b]|
  {
    && (Edge(m.g, p, b) ==> PairFor(w.phis[b][k].pairs, p) == if p in w.vis then TopOf(w.tout[p], w.phis[b][k].lval)
        else None)
    && PairsFrom(w.phis[b][k].pairs, p) == if p in w.vis && w.phis[b][k].lval in w.tout[p] then Occurs(m.g.succ[p], b)
    else 0
  }

  ghost predicate Sized(m: Ssa, w: Walk) {
    && |w.body| == |w.phis| == |w.tin| == |w.tout| == |m.orig| == |m.phis|
    && (forall b :: 0 <= b < |m.orig| ==> SameShape(m.phis[b], w.phis[b]))
  }

  /** The instruction list of a block under `S`, before or after the walk has left the block. */
  ghost predicate BodyIs(c: Ctx, S: Tops, orig: seq<Instr>, left: bool, body: seq<Instr>) {
    body == if left then Swept(c, S, orig) else SubstBody(S, orig)
  }

  ghost predicate BodiesAre(c: Ctx, S: Tops, orig: seq<seq<Instr>>, fin: set<nat>, body: seq<seq<Instr>>) {
    |body| == |orig| && forall b {:trigger BodyIs(c, S, orig[b], b in fin, body[b])} {:trigger body[b]} ::
      0 <= b < |orig| ==> BodyIs(c, S, orig[b], b in fin, body[b])
  }

  ghost predicate Bodies(m: Ssa, w: Walk)
    requires Sized(m, w)
  {
    && BodiesAre(m.c, w.S, m.orig, w.fin, w.body)
    && (forall r :: r in w.S ==> r < m.c.limit && r !in m.c.geps && r !in m.c.scalars)
  }

  ghost predicate UpClosed(m: Ssa, w: Walk)
    requires Input(m)
  {
    && w.fin <= w.vis
    && (forall b: nat {:trigger b in w.vis} :: b in w.vis ==> Live(m, b) && Chain(m.id, m.l, b) <= w.vis)
  }

  /** The invariant of the walk; `ex` are blocks it is in the middle of. */
  ghost predicate Inv(m: Ssa, w: Walk, ex: set<nat>) {
    && Input(m) && Sized(m, w) && Bodies(m, w) && UpClosed(m, w)
    && AllRenamed(m, w) && AllPairs(m, w) && AllUntouched(m, w, ex)
  }

  ghost predicate AllRenamed(m: Ssa, w: Walk)
    requires Input(m) && |w.tin| == |w.tout| == |m.orig|
  {
    forall b: nat {:trigger RenamedAt(m, w, b)} :: b in w.vis && Live(m, b) ==> RenamedAt(m, w, b)
  }

  ghost predicate AllPairs(m: Ssa, w: Walk)
    requires Input(m) && |w.phis| == |w.tout| == |m.orig|
  {
    forall p: nat, b: nat, k: nat {:trigger PairsOk(m, w, p, b, k)} ::
             p < |m.orig| && b < |m.orig| && k < |w.phis[b]| ==> PairsOk(m, w, p, b, k)
  }

  /** Nothing names a register that a block yet to come defines. */
  ghost predicate AllUntouched(m: Ssa, w: Walk, ex: set<nat>) {
    forall b: nat, r {:trigger ToCome(m, w, ex, b, r)} :: ToCome(m, w, ex, b, r) ==> Untouched(w, r)
  }

  ghost predicate ToCome(m: Ssa, w: Walk, ex: set<nat>, b: nat, r: nat) {
    b < |m.orig| && b !in w.vis && b !in ex && r in Defs(m.orig[b])
  }

  /** Inside block `bb`, before its instruction `i`. */
  ghost predicate Inside(m: Ssa, w: Walk, bb: nat, i: nat)
    requires Inv(m, w, {bb}) && Live(m, bb) && i <= |m.orig[bb]|
  {
    && bb !in w.vis
    && (bb != 0 ==> m.l.to[bb] in w.vis)
    && w.tin[bb] == PhiTops(TopsAbove(m, w, bb), m.phis[bb])
    && LoadsOk(m.c, w.S, w.tin[bb], m.orig[bb][..i])
    && TopsOf(w.stacks) == TopsAfter(m.c, w.S, w.tin[bb], m.orig[bb][..i])
    && (forall r :: r in Defs(m.orig[bb][i..]) ==> Untouched(w, r))
  }

  // ----- registers that a block can name -----------------------------------------------------------

  /** What block `b` can name, and what it defines, is defined in no block that has yet to come. */
  lemma AvailElsewhere(m: Ssa, vis: set<nat>, b: nat, x: nat, r: nat)
    requires Input(m) && Live(m, b) && x < |m.orig| && r in Defs(m.orig[x])
    requires x !in Chain(m.id, m.l, b)
    ensures r !in AvailIn(m, b) + PhiDsts(m.phis[b]) && r !in Defs(m.orig[b])
  {
    assert r in BlockDefs(m, x);
    ChainIds(m.id, m.l, b);
    assert BlockDefs(m, b) !! BlockDefs(m, x);
    if b != 0 && r in AvailOut(m, m.l.to[b]) {
      var d := AvailFrom(m, r, m.l.to[b]);
    }
  }

  /** The chain of the block being renamed has been renamed. */
  lemma ChainVisited(m: Ssa, w: Walk, bb: nat)
    requires Input(m) && UpClosed(m, w) && Live(m, bb) && (bb != 0 ==> m.l.to[bb] in w.vis)
    ensures Chain(m.id, m.l, bb) <= w.vis + {bb}
  {
    if bb != 0 { assert m.l.to[bb] >= 0; }
  }

  /** An operand of instruction `i` of `bb` is no register that has yet to be defined. */
  lemma OperandDefined(m: Ssa, w: Walk, bb: nat, i: nat, o: Operand, x: nat, r: nat)
    requires Inv(m, w, {bb}) && Live(m, bb) && i < |m.orig[bb]| && Inside(m, w, bb, i)
    requires o in Operands(m.orig[bb][i])
    requires if x == bb then r in Defs(m.orig[bb][i..]) else x < |m.orig| && x !in w.vis && r in Defs(m.orig[x])
    ensures Subst(w.S, o) != Reg(r)
  {
    var avail := AvailIn(m, bb) + PhiDsts(m.phis[bb]);
    BodySplit(m.c, avail, m.orig[bb], i);
    assert x != bb ==> ToCome(m, w, {bb}, x, r);
    assert Untouched(w, r);
    if o == Reg(r) {
      assert Uses(m.orig[bb][i], r);
      if x == bb {
        DefsFresh(m.c, avail + Defs(m.orig[bb][..i]), m.orig[bb][i..]);
      } else {
        ChainVisited(m, w, bb);
        AvailElsewhere(m, w.vis, bb, x, r);
      }
    }
  }

  // ----- replacing a load ----------------------------------------------------------------------------

  function ReplaceAll(r: nat, o: Operand, bodies: seq<seq<Instr>>): (q: seq<seq<Instr>>)
    ensures |q| == |bodies| && forall b :: 0 <= b < |bodies| ==> q[b] == ReplaceUses(r, o, bodies[b])
  {
    if bodies == [] then [] else [ReplaceUses(r, o, bodies[0])] + ReplaceAll(r, o, bodies[1..])
  }

  function ReplacePairs(r: nat, o: Operand, pairs: seq<(Operand, nat)>): (q: seq<(Operand, nat)>)
    ensures |q| == |pairs| && forall j :: 0 <= j < |q| ==> q[j] == (Subst(map[r := o], pairs[j].0), pairs[j].1)
  {
    if pairs == [] then [] else [(Subst(map[r := o], pairs[0].0), pairs[0].1)] + ReplacePairs(r, o, pairs[1..])
  }

  function ReplaceInPhis(r: nat, o: Operand, phis: seq<Phi>): (q: seq<Phi>)
    ensures |q| == |phis| && forall k :: 0 <= k < |q| ==> q[k] == Phi(phis[k].dst, phis[k].lval,
                                                                      ReplacePairs(r, o, phis[k].pairs))
  {
    if phis == [] then [] else [Phi(phis[0].dst, phis[0].lval, ReplacePairs(r, o, phis[0].pairs))] + ReplaceInPhis(r,
        o, phis[1..])
  }

  function ReplaceInAllPhis(r: nat, o: Operand, phis: seq<seq<Phi>>): (q: seq<seq<Phi>>)
    ensures |q| == |phis| && forall b :: 0 <= b < |q| ==> q[b] == ReplaceInPhis(r, o, phis[b])
  {
    if phis == [] then [] else [ReplaceInPhis(r, o, phis[0])] + ReplaceInAllPhis(r, o, phis[1..])
  }

  lemma PairsUntouched(r: nat, o: Operand, pairs: seq<(Operand, nat)>)
    requires forall j :: 0 <= j < |pairs| ==> pairs[j].0 != Reg(r)
    ensures ReplacePairs(r, o, pairs) == pairs
  {}

  lemma PhisUntouched(w: Walk, r: nat, o: Operand)
    requires Untouched(w, r)
    ensures ReplaceInAllPhis(r, o, w.phis) == w.phis
  {
    forall b | 0 <= b < |w.phis| ensures ReplaceInPhis(r, o, w.phis[b]) == w.phis[b] {
      forall k | 0 <= k < |w.phis[b]| ensures ReplaceInPhis(r, o, w.phis[b])[k] == w.phis[b][k] {
        PairsUntouched(r, o, w.phis[b][k].pairs);
      }
    }
  }

  function AfterLoad(w: Walk, d: nat, o: Operand): Walk {
    w.(body := ReplaceAll(d, o, w.body), phis := ReplaceInAllPhis(d, o, w.phis), S := w.S[d := o])
  }

  lemma LoadKeepsBodies(c: Ctx, orig: seq<seq<Instr>>, fin: set<nat>, S: Tops, body: seq<seq<Instr>>, d: nat,
                        o: Operand)
    requires d !in S && forall q :: q in S ==> S[q] != Reg(d)
    requires BodiesAre(c, S, orig, fin, body) && forall b :: b in fin && b < |orig| ==> d !in Defs(orig[b])
    ensures BodiesAre(c, S[d := o], orig, fin, ReplaceAll(d, o, body))
  {
    var body' := ReplaceAll(d, o, body);
    forall b {:trigger body'[b]} | 0 <= b < |orig| ensures BodyIs(c, S[d := o], orig[b], b in fin, body'[b]) {
      assert BodyIs(c, S, orig[b], b in fin, body[b]);
      if b in fin { ReplaceInSwept(c, S, d, o, orig[b]); } else { ReplaceExtends(S, d, o, orig[b]); }
    }
  }

  /** A register has one block that defines it. */
  lemma OneDef(m: Ssa, a: nat, b: nat, r: nat)
    requires Input(m) && a < |m.orig| && b < |m.orig| && r in Defs(m.orig[a]) && r in Defs(m.orig[b])
    ensures a == b
  {
    assert r in BlockDefs(m, a) && r in BlockDefs(m, b);
  }

  lemma LoadKeepsRenamed(m: Ssa, w: Walk, bb: nat, d: nat, o: Operand, x: nat)
    requires Input(m) && Sized(m, w) && UpClosed(m, w) && d !in w.S
    requires Live(m, bb) && bb !in w.vis && d in Defs(m.orig[bb])
    requires x in w.vis && RenamedAt(m, w, x)
    ensures RenamedAt(m, AfterLoad(w, d, o), x)
  {
    AvailElsewhere(m, w.vis, x, bb, d);
    SubstGrows(m.c, w.S, w.S[d := o], w.tin[x], AvailIn(m, x) + PhiDsts(m.phis[x]), m.orig[x]);
  }

  lemma LoadKeepsUntouched(w: Walk, d: nat, o: Operand, r: nat)
    requires Untouched(w, d) && Untouched(w, r) && r != d && o != Reg(r)
    ensures Untouched(AfterLoad(w, d, o), r)
  {
    PhisUntouched(w, d, o);
  }

  /** A promoted load of a variable that has a newest value. */
  ghost predicate LoadAt(m: Ssa, w: Walk, bb: nat, i: nat, d: nat, o: Operand)
    requires Live(m, bb) && i < |m.orig[bb]|
  {
    var l := m.orig[bb][i];
    PromotedLoad(m.c, l) && l.dst == d && l.ptr.r in TopsOf(w.stacks) && o == TopsOf(w.stacks)[l.ptr.r]
  }

  /** What is known of the target of the load. */
  lemma LoadTarget(m: Ssa, w: Walk, bb: nat, i: nat, d: nat, o: Operand)
    requires Inv(m, w, {bb}) && Live(m, bb) && i < |m.orig[bb]| && Inside(m, w, bb, i) && LoadAt(m, w, bb, i, d, o)
    ensures d in Defs(m.orig[bb]) && d in Defs(m.orig[bb][i..]) && Untouched(w, d) && d !in Defs(m.orig[bb][i + 1..])
    ensures d < m.c.limit && d !in m.c.geps && d !in m.c.scalars
    ensures forall r :: r in Defs(m.orig[bb][i + 1..]) ==> r in Defs(m.orig[bb][i..])
    ensures d !in AvailIn(m, bb) + PhiDsts(m.phis[bb]) && d !in Defs(m.orig[bb][..i])
    ensures forall r :: r in Defs(m.orig[bb][i..]) ==> o != Reg(r)
  {
    var avail, body := AvailIn(m, bb) + PhiDsts(m.phis[bb]), m.orig[bb];
    BodySplit(m.c, avail, body, i);
    DefsFresh(m.c, avail + Defs(body[..i]), body[i..]);
    assert body[i..][0] == body[i] && body[i..][1..] == body[i + 1..];
    DefsFresh(m.c, Plus(avail + Defs(body[..i]), body[i]), body[i + 1..]);
    var v := body[i].ptr.r;
    assert o in w.stacks[v];
  }

  lemma LoadKeepsAllBodies(m: Ssa, w: Walk, bb: nat, d: nat, o: Operand)
    requires Input(m) && Sized(m, w) && Bodies(m, w) && w.fin <= w.vis && Untouched(w, d)
    requires Live(m, bb) && bb !in w.vis && d in Defs(m.orig[bb])
    requires d < m.c.limit && d !in m.c.geps && d !in m.c.scalars
    ensures Sized(m, AfterLoad(w, d, o)) && Bodies(m, AfterLoad(w, d, o))
  {
    hide Input, BodiesAre;
    PhisUntouched(w, d, o);
    forall b: nat | b in w.fin && b < |m.orig| ensures d !in Defs(m.orig[b]) {
      if d in Defs(m.orig[b]) { OneDef(m, b, bb, d); }
    }
    LoadKeepsBodies(m.c, m.orig, w.fin, w.S, w.body, d, o);
  }

  lemma LoadKeepsAllRenamed(m: Ssa, w: Walk, bb: nat, d: nat, o: Operand)
    requires Input(m) && Sized(m, w) && UpClosed(m, w) && AllRenamed(m, w) && d !in w.S
    requires Live(m, bb) && bb !in w.vis && d in Defs(m.orig[bb])
    ensures AllRenamed(m, AfterLoad(w, d, o))
  {
    var w' := AfterLoad(w, d, o);
    forall x: nat {:trigger RenamedAt(m, w', x)} | x in w'.vis && Live(m, x) ensures RenamedAt(m, w', x) {
      assert RenamedAt(m, w, x);
      LoadKeepsRenamed(m, w, bb, d, o, x);
    }
  }

  lemma LoadKeepsAllPairs(m: Ssa, w: Walk, d: nat, o: Operand)
    requires Input(m) && Sized(m, w) && AllPairs(m, w) && Untouched(w, d)
    ensures Sized(m, AfterLoad(w, d, o)) && AllPairs(m, AfterLoad(w, d, o))
  {
    var w' := AfterLoad(w, d, o);
    PhisUntouched(w, d, o);
    forall p: nat, b: nat, k: nat {:trigger PairsOk(m, w', p, b, k)} | p < |m.orig| && b < |m.orig| && k < |w'.phis[b]|
      ensures PairsOk(m, w', p, b, k)
    {
      assert PairsOk(m, w, p, b, k);
    }
  }

  lemma LoadKeepsAllUntouched(m: Ssa, w: Walk, bb: nat, d: nat, v: nat, o: Operand)
    requires Input(m) && Untouched(w, d) && AllUntouched(m, w, {bb})
    requires Live(m, bb) && d in Defs(m.orig[bb]) && v in w.stacks && o in w.stacks[v]
    ensures AllUntouched(m, AfterLoad(w, d, o), {bb})
  {
    var w' := AfterLoad(w, d, o);
    forall b: nat, r {:trigger ToCome(m, w', {bb}, b, r)} | ToCome(m, w', {bb}, b, r) ensures Untouched(w', r) {
      assert ToCome(m, w, {bb}, b, r);
      if r == d { OneDef(m, b, bb, d); }
      LoadKeepsUntouched(w, d, o, r);
    }
  }

  lemma LoadKeepsInv(m: Ssa, w: Walk, bb: nat, i: nat, d: nat, o: Operand)
    requires Inv(m, w, {bb}) && Live(m, bb) && i < |m.orig[bb]| && Inside(m, w, bb, i) && LoadAt(m, w, bb, i, d, o)
    ensures Inv(m, AfterLoad(w, d, o), {bb})
  {
    LoadTarget(m, w, bb, i, d, o);
    LoadKeepsAllBodies(m, w, bb, d, o);
    LoadKeepsAllRenamed(m, w, bb, d, o);
    LoadKeepsAllPairs(m, w, d, o);
    LoadKeepsAllUntouched(m, w, bb, d, m.orig[bb][i].ptr.r, o);
  }

  /** The prefix of the block after a load has been replaced. */
  lemma LoadPrefix(c: Ctx, S: Tops, t: Tops, avail: set<nat>, body: seq<Instr>, i: nat, d: nat, o: Operand)
    requires BodyOk(c, avail, body) && i < |body| && d !in S && d !in avail && d !in Defs(body[..i])
    requires LoadsOk(c, S, t, body[..i])
    requires PromotedLoad(c, body[i]) && body[i].dst == d
    requires body[i].ptr.r in TopsAfter(c, S, t, body[..i]) && o == TopsAfter(c, S, t, body[..i])[body[i].ptr.r]
    ensures LoadsOk(c, S[d := o], t, body[..i + 1])
    ensures TopsAfter(c, S[d := o], t, body[..i + 1]) == TopsAfter(c, S, t, body[..i])
  {
    BodySplit(c, avail, body, i);
    SubstGrows(c, S, S[d := o], t, avail, body[..i]);
    TopsSnoc(c, S[d := o], t, body, i);
  }

  lemma LoadKeepsInside(m: Ssa, w: Walk, bb: nat, i: nat, d: nat, o: Operand)
    requires Inv(m, w, {bb}) && Live(m, bb) && i < |m.orig[bb]| && Inside(m, w, bb, i) && LoadAt(m, w, bb, i, d, o)
    requires Inv(m, AfterLoad(w, d, o), {bb})
    ensures Inside(m, AfterLoad(w, d, o), bb, i + 1)
  {
    LoadTarget(m, w, bb, i, d, o);
    LoadPrefix(m.c, w.S, w.tin[bb], AvailIn(m, bb) + PhiDsts(m.phis[bb]), m.orig[bb], i, d, o);
    forall r | r in Defs(m.orig[bb][i + 1..]) ensures Untouched(AfterLoad(w, d, o), r) {
      LoadKeepsUntouched(w, d, o, r);
    }
  }

  // ----- a store, and every other instruction --------------------------------------------------------

  function AfterStore(w: Walk, v: nat, o: Operand): Walk {
    w.(stacks := Push(w.stacks, v, o))
  }

  /** No stack names `r` that did not name it before. */
  ghost predicate NoNewName(st0: Stacks, st: Stacks, r: nat) {
    forall v :: v in st && Reg(r) in st[v] ==> v in st0 && Reg(r) in st0[v]
  }

  /** The stacks are not part of the invariant, except for what they may name. */
  lemma StacksKeepInv(m: Ssa, w: Walk, ex: set<nat>, st: Stacks)
    requires Inv(m, w, ex)
    requires forall b: nat, r: nat {:trigger ToCome(m, w, ex, b, r)} :: ToCome(m, w, ex, b, r) ==>
               NoNewName(w.stacks, st, r)
    ensures Inv(m, w.(stacks := st), ex)
  {
    var w' := w.(stacks := st);
    assert AllRenamed(m, w') by {
      forall x: nat {:trigger RenamedAt(m, w', x)} | x in w'.vis && Live(m, x)
        ensures RenamedAt(m, w', x)
      {
        assert RenamedAt(m, w, x);
      }
    }
    assert AllPairs(m, w') by {
      forall p: nat, b: nat, k: nat {:trigger PairsOk(m, w', p, b, k)} | p < |m.orig| && b < |m.orig|
                                                                         && k < |w'.phis[b]|
        ensures PairsOk(m, w', p, b, k)
      {
        assert PairsOk(m, w, p, b, k);
      }
    }
    assert AllUntouched(m, w', ex) by {
      forall b: nat, r {:trigger ToCome(m, w', ex, b, r)} | ToCome(m, w', ex, b, r) ensures Untouched(w', r) {
        assert ToCome(m, w, ex, b, r) && Untouched(w, r);
      }
    }
  }

  lemma PushNames(st: Stacks, v: nat, o: Operand, r: nat)
    requires o != Reg(r)
    ensures NoNewName(st, Push(st, v, o), r)
  {}

  lemma PushKeepsInv(m: Ssa, w: Walk, ex: set<nat>, v: nat, o: Operand)
    requires Inv(m, w, ex)
    requires forall b: nat, r: nat {:trigger ToCome(m, w, ex, b, r)} :: ToCome(m, w, ex, b, r) ==> o != Reg(r)
    ensures Inv(m, AfterStore(w, v, o), ex)
  {
    forall b: nat, r: nat {:trigger ToCome(m, w, ex, b, r)} | ToCome(m, w, ex, b, r)
      ensures NoNewName(w.stacks, Push(w.stacks, v, o), r)
    {
      PushNames(w.stacks, v, o, r);
    }
    StacksKeepInv(m, w, ex, Push(w.stacks, v, o));
  }

  lemma StoreKeepsInv(m: Ssa, w: Walk, bb: nat, i: nat)
    requires Inv(m, w, {bb}) && Live(m, bb) && i < |m.orig[bb]| && Inside(m, w, bb, i)
    requires PromotedStore(m.c, m.orig[bb][i])
    ensures Inv(m, AfterStore(w, m.orig[bb][i].ptr.r, Subst(w.S, m.orig[bb][i].val)), {bb})
  {
    var l := m.orig[bb][i];
    assert l.val == Operands(l)[0];
    forall b: nat, r: nat {:trigger ToCome(m, w, {bb}, b, r)} | ToCome(m, w, {bb}, b, r)
      ensures Subst(w.S, l.val) != Reg(r)
    {
      OperandDefined(m, w, bb, i, l.val, b, r);
    }
    PushKeepsInv(m, w, {bb}, l.ptr.r, Subst(w.S, l.val));
  }

  lemma StoreKeepsUntouched(w: Walk, v: nat, o: Operand, r: nat)
    requires Untouched(w, r) && o != Reg(r)
    ensures Untouched(AfterStore(w, v, o), r)
  {}

  lemma StoreKeepsInside(m: Ssa, w: Walk, bb: nat, i: nat)
    requires Inv(m, w, {bb}) && Live(m, bb) && i < |m.orig[bb]| && Inside(m, w, bb, i)
    requires PromotedStore(m.c, m.orig[bb][i])
    requires Inv(m, AfterStore(w, m.orig[bb][i].ptr.r, Subst(w.S, m.orig[bb][i].val)), {bb})
    ensures Inside(m, AfterStore(w, m.orig[bb][i].ptr.r, Subst(w.S, m.orig[bb][i].val)), bb, i + 1)
  {
    hide Bodies, UpClosed, AllRenamed, AllPairs, AllUntouched, IsFrontier;
    var l, body := m.orig[bb][i], m.orig[bb];
    var o := Subst(w.S, l.val);
    assert l.val == Operands(l)[0];
    BodySplit(m.c, AvailIn(m, bb) + PhiDsts(m.phis[bb]), body, i);
    PushTops(w.stacks, l.ptr.r, o);
    TopsSnoc(m.c, w.S, w.tin[bb], body, i);
    forall r | r in Defs(body[i + 1..]) ensures Untouched(AfterStore(w, l.ptr.r, o), r) {
      OperandDefined(m, w, bb, i, l.val, bb, r);
      StoreKeepsUntouched(w, l.ptr.r, o, r);
    }
  }

  lemma OtherStep(m: Ssa, w: Walk, bb: nat, i: nat)
    requires Inv(m, w, {bb}) && Live(m, bb) && i < |m.orig[bb]| && Inside(m, w, bb, i)
    requires var l := m.orig[bb][i]; !PromotedStore(m.c, l) && (PromotedLoad(m.c, l) ==> l.ptr.r !in TopsOf(w.stacks))
    ensures Inside(m, w, bb, i + 1)
  {
    var body := m.orig[bb];
    BodySplit(m.c, AvailIn(m, bb) + PhiDsts(m.phis[bb]), body, i);
    TopsSnoc(m.c, w.S, w.tin[bb], body, i);
    if HasDst(body[i]) { assert Untouched(w, body[i].dst); }
  }

  // ----- entering a block ------------------------------------------------------------------------------

  function PushPhis(st: Stacks, phis: seq<Phi>, k: nat): Stacks
    requires k <= |phis|
  {
    if k == 0 then st else Push(PushPhis(st, phis, k - 1), phis[k - 1].lval, Reg(phis[k - 1].dst))
  }

  lemma {:induction false} PhiTopsSnoc(t: Tops, phis: seq<Phi>, k: nat)
    requires k < |phis|
    ensures PhiTops(t, phis[..k + 1]) == PhiTops(t, phis[..k])[phis[k].lval := Reg(phis[k].dst)]
    decreases k
  {
    if k == 0 {
      assert phis[..1][1..] == [] && phis[..0] == [];
    } else {
      assert phis[..k + 1][1..] == phis[1..][..k] && phis[..k][1..] == phis[1..][..k - 1];
      PhiTopsSnoc(t[phis[0].lval := Reg(phis[0].dst)], phis[1..], k - 1);
    }
  }

  lemma {:induction false} PushPhisTops(st: Stacks, phis: seq<Phi>, k: nat)
    requires k <= |phis|
    ensures TopsOf(PushPhis(st, phis, k)) == PhiTops(TopsOf(st), phis[..k])
    decreases k
  {
    if k == 0 {
      assert phis[..0] == [];
    } else {
      PushPhisTops(st, phis, k - 1);
      PhiTopsSnoc(TopsOf(st), phis, k - 1);
      PushTops(PushPhis(st, phis, k - 1), phis[k - 1].lval, Reg(phis[k - 1].dst));
    }
  }

  lemma {:induction false} PhiTopsShape(t: Tops, p: seq<Phi>, q: seq<Phi>)
    requires SameShape(p, q)
    ensures PhiTops(t, p) == PhiTops(t, q)
    decreases p
  {
    if p != [] {
      assert SameShape(p[1..], q[1..]);
      PhiTopsShape(t[p[0].lval := Reg(p[0].dst)], p[1..], q[1..]);
    }
  }

  function AfterEnter(m: Ssa, w: Walk, bb: nat): Walk
    requires bb < |w.phis| && bb < |w.tin|
  {
    w.(stacks := PushPhis(w.stacks, w.phis[bb], |w.phis[bb]|), tin :=
       w.tin[bb := PhiTops(TopsOf(w.stacks), w.phis[bb])])
  }

  lemma PhiDstAbove(m: Ssa, phis: seq<seq<Phi>>, b: nat, k: nat)
    requires Input(m) && |phis| == |m.phis| && b < |phis| && SameShape(m.phis[b], phis[b]) && k < |phis[b]|
    ensures m.c.limit <= phis[b][k].dst
  {}

  lemma {:induction false} PushPhisNames(st: Stacks, phis: seq<Phi>, limit: nat, k: nat, r: nat)
    requires k <= |phis| && r < limit && forall j :: 0 <= j < |phis| ==> limit <= phis[j].dst
    ensures NoNewName(st, PushPhis(st, phis, k), r)
    decreases k
  {
    if k > 0 { PushPhisNames(st, phis, limit, k - 1, r); }
  }

  lemma DefsBelow(m: Ssa, b: nat, r: nat)
    requires Input(m) && b < |m.orig| && r in Defs(m.orig[b])
    ensures r < m.c.limit
  {}

  lemma PushPhisKeepsInv(m: Ssa, w: Walk, ex: set<nat>, bb: nat)
    requires Inv(m, w, ex) && Live(m, bb)
    ensures Inv(m, w.(stacks := PushPhis(w.stacks, w.phis[bb], |w.phis[bb]|)), ex)
  {
    var st := PushPhis(w.stacks, w.phis[bb], |w.phis[bb]|);
    assert SameShape(m.phis[bb], w.phis[bb]);
    forall k | 0 <= k < |w.phis[bb]| ensures m.c.limit <= w.phis[bb][k].dst { PhiDstAbove(m, w.phis, bb, k); }
    forall b: nat, r: nat {:trigger ToCome(m, w, ex, b, r)} | ToCome(m, w, ex, b, r)
      ensures NoNewName(w.stacks, st, r)
    {
      DefsBelow(m, b, r);
      PushPhisNames(w.stacks, w.phis[bb], m.c.limit, |w.phis[bb]|, r);
    }
    StacksKeepInv(m, w, ex, st);
  }

  lemma TinKeepsInv(m: Ssa, w: Walk, ex: set<nat>, bb: nat, t: Tops)
    requires Inv(m, w, ex) && Live(m, bb) && bb !in w.vis
    ensures Inv(m, w.(tin := w.tin[bb := t]), ex + {bb})
  {
    var w' := w.(tin := w.tin[bb := t]);
    assert AllRenamed(m, w') by {
      forall x: nat {:trigger RenamedAt(m, w', x)} | x in w'.vis && Live(m, x)
        ensures RenamedAt(m, w', x)
      {
        assert RenamedAt(m, w, x);
      }
    }
    assert AllPairs(m, w') by {
      forall p: nat, b: nat, k: nat {:trigger PairsOk(m, w', p, b, k)} | p < |m.orig| && b < |m.orig|
                                                                         && k < |w'.phis[b]|
        ensures PairsOk(m, w', p, b, k)
      {
        assert PairsOk(m, w, p, b, k);
      }
    }
    assert AllUntouched(m, w', ex + {bb}) by {
      forall b: nat, r {:trigger ToCome(m, w', ex + {bb}, b, r)} | ToCome(m, w', ex + {bb}, b, r)
        ensures Untouched(w', r)
      {
        assert ToCome(m, w, ex, b, r);
      }
    }
  }

  lemma EnterBlock(m: Ssa, w: Walk, bb: nat)
    requires Inv(m, w, {}) && Live(m, bb) && bb !in w.vis && (bb != 0 ==> m.l.to[bb] in w.vis)
    requires TopsOf(w.stacks) == TopsAbove(m, w, bb)
    ensures Inv(m, AfterEnter(m, w, bb), {bb}) && Inside(m, AfterEnter(m, w, bb), bb, 0)
  {
    var n := |w.phis[bb]|;
    var w1 := w.(stacks := PushPhis(w.stacks, w.phis[bb], n));
    PushPhisKeepsInv(m, w, {}, bb);
    TinKeepsInv(m, w1, {}, bb, PhiTops(TopsOf(w.stacks), w.phis[bb]));
    assert {} + {bb} == {bb};
    PushPhisTops(w.stacks, w.phis[bb], n);
    assert w.phis[bb][..n] == w.phis[bb];
    PhiTopsShape(TopsOf(w.stacks), m.phis[bb], w.phis[bb]);
    assert m.orig[bb][..0] == [] && m.orig[bb][0..] == m.orig[bb];
    forall r | r in Defs(m.orig[bb]) ensures Untouched(AfterEnter(m, w, bb), r) {
      assert ToCome(m, w1, {}, bb, r);
      assert Untouched(w1, r);
    }
  }

  // ----- leaving a block -------------------------------------------------------------------------------

  /** What giving a phi its operand for predecessor `b`, over `n` edges, does to the phi. */
  ghost predicate PairAdded(q0: Phi, q: Phi, t: Tops, b: nat, n: nat) {
    && q.dst == q0.dst && q.lval == q0.lval
    && (forall p: nat {:trigger PairFor(q.pairs, p)} :: p != b ==> PairFor(q.pairs, p) == PairFor(q0.pairs, p))
    && PairFor(q.pairs, b) == TopOf(t, q.lval)
    && (forall p: nat {:trigger PairsFrom(q.pairs, p)} :: PairsFrom(q.pairs, p) == PairsFrom(q0.pairs, p) + if p == b
                                                          && q.lval in t then n else 0)
    && (forall j :: 0 <= j < |q.pairs| ==> (exists i :: 0 <= i < |q0.pairs| && q0.pairs[i].0 == q.pairs[j].0)
                                           || (q.lval in t && q.pairs[j].0 == t[q.lval]))
  }

  /** All phis of all successors have been given their operand for `bb`; other phis are as before. */
  ghost predicate PairsAdded(m: Ssa, phis0: seq<seq<Phi>>, phis: seq<seq<Phi>>, t: Tops, bb: nat)
    requires WellFormed(m.g)
  {
    && |phis| == |phis0|
    && (forall y: nat {:trigger phis[y]} :: y < |phis| ==> |phis[y]| == |phis0[y]|
                                                           && (!Edge(m.g, bb, y) ==> phis[y] == phis0[y]))
    && (forall y: nat, k {:trigger phis[y][k]} :: y < |phis| && Edge(m.g, bb, y) && 0 <= k < |phis[y]| ==>
          PairAdded(phis0[y][k], phis[y][k], t, bb, Occurs(m.g.succ[bb], y)))
  }

  function AfterLeave(w: Walk, bb: nat, phis: seq<seq<Phi>>): Walk
    requires bb < |w.tout|
  {
    w.(phis := phis, tout := w.tout[bb := TopsOf(w.stacks)], vis := w.vis + {bb})
  }

  lemma LeaveKeepsOld(m: Ssa, w: Walk, bb: nat, phis: seq<seq<Phi>>, x: nat)
    requires Input(m) && Sized(m, w) && UpClosed(m, w) && Live(m, bb) && bb !in w.vis
    requires x in w.vis && RenamedAt(m, w, x)
    ensures RenamedAt(m, AfterLeave(w, bb, phis), x)
  {
    if x != 0 {
      ChainIds(m.id, m.l, m.l.to[x]);
      assert m.l.to[x] in Chain(m.id, m.l, x);
    }
  }

  lemma LeaveKeepsNew(m: Ssa, w: Walk, bb: nat, phis: seq<seq<Phi>>)
    requires Inv(m, w, {bb}) && Live(m, bb) && Inside(m, w, bb, |m.orig[bb]|)
    ensures RenamedAt(m, AfterLeave(w, bb, phis), bb)
  {
    hide Bodies, AllPairs, AllUntouched, AllRenamed, IsFrontier;
    assert m.orig[bb][..|m.orig[bb]|] == m.orig[bb];
    if bb != 0 { ChainIds(m.id, m.l, bb); }
  }

  lemma LeaveKeepsUp(m: Ssa, w: Walk, bb: nat, phis: seq<seq<Phi>>)
    requires Input(m) && UpClosed(m, w) && Live(m, bb) && bb < |w.tout| && (bb != 0 ==> m.l.to[bb] in w.vis)
    ensures UpClosed(m, AfterLeave(w, bb, phis))
  {
    ChainVisited(m, w, bb);
  }

  lemma LeaveKeepsRenamed(m: Ssa, w: Walk, bb: nat, phis: seq<seq<Phi>>)
    requires Inv(m, w, {bb}) && Live(m, bb) && Inside(m, w, bb, |m.orig[bb]|)
    ensures AllRenamed(m, AfterLeave(w, bb, phis))
  {
    hide RenamedAt, Bodies, AllPairs, AllUntouched, UpClosed;
    var w' := AfterLeave(w, bb, phis);
    forall x: nat {:trigger RenamedAt(m, w', x)} | x in w'.vis && Live(m, x) ensures RenamedAt(m, w', x) {
      if x == bb {
        LeaveKeepsNew(m, w, bb, phis);
      } else {
        LeaveKeepsOld(m, w, bb, phis, x);
      }
    }
  }

  lemma LeaveKeepsPairs(m: Ssa, w: Walk, bb: nat, phis: seq<seq<Phi>>)
    requires Inv(m, w, {bb}) && Live(m, bb) && bb !in w.vis
    requires PairsAdded(m, w.phis, phis, TopsOf(w.stacks), bb)
    ensures Sized(m, AfterLeave(w, bb, phis)) && AllPairs(m, AfterLeave(w, bb, phis))
  {
    var w' := AfterLeave(w, bb, phis);
    forall b | 0 <= b < |m.orig| ensures SameShape(m.phis[b], phis[b]) {
      assert SameShape(m.phis[b], w.phis[b]);
    }
    forall p: nat, b: nat, k: nat {:trigger PairsOk(m, w', p, b, k)} | p < |m.orig| && b < |m.orig| && k < |w'.phis[b]|
      ensures PairsOk(m, w', p, b, k)
    {
      assert PairsOk(m, w, p, b, k);
      OccursIn(m.g.succ[bb], b);
      if Edge(m.g, bb, b) {
        assert PairAdded(w.phis[b][k], phis[b][k], TopsOf(w.stacks), bb, Occurs(m.g.succ[bb], b));
      } else {
        assert b !in m.g.succ[bb] && phis[b] == w.phis[b];
      }
    }
  }

  lemma LeaveKeepsUntouched(m: Ssa, w: Walk, bb: nat, phis: seq<seq<Phi>>)
    requires Inv(m, w, {bb}) && Live(m, bb)
    requires PairsAdded(m, w.phis, phis, TopsOf(w.stacks), bb)
    ensures AllUntouched(m, AfterLeave(w, bb, phis), {})
  {
    var w' := AfterLeave(w, bb, phis);
    forall b: nat, r {:trigger ToCome(m, w', {}, b, r)} | ToCome(m, w', {}, b, r) ensures Untouched(w', r) {
      assert ToCome(m, w, {bb}, b, r);
      assert Untouched(w, r);
      forall y, k, j | 0 <= y < |phis| && 0 <= k < |phis[y]| && 0 <= j < |phis[y][k].pairs|
        ensures phis[y][k].pairs[j].0 != Reg(r)
      {
        if Edge(m.g, bb, y) {
          assert PairAdded(w.phis[y][k], phis[y][k], TopsOf(w.stacks), bb, Occurs(m.g.succ[bb], y));
        }
      }
    }
  }

  lemma LeaveBlock(m: Ssa, w: Walk, bb: nat, phis: seq<seq<Phi>>)
    requires Inv(m, w, {bb}) && Live(m, bb) && Inside(m, w, bb, |m.orig[bb]|)
    requires PairsAdded(m, w.phis, phis, TopsOf(w.stacks), bb)
    ensures Inv(m, AfterLeave(w, bb, phis), {})
  {
    LeaveKeepsUp(m, w, bb, phis);
    LeaveKeepsRenamed(m, w, bb, phis);
    LeaveKeepsPairs(m, w, bb, phis);
    LeaveKeepsUntouched(m, w, bb, phis);
  }

  function AfterErase(m: Ssa, w: Walk, bb: nat): Walk
    requires bb < |w.body| && Live(m, bb)
  {
    w.(body := w.body[bb := Swept(m.c, w.S, m.orig[bb])], fin := w.fin + {bb})
  }

  lemma EraseBlock(m: Ssa, w: Walk, bb: nat)
    requires Inv(m, w, {}) && bb in w.vis
    ensures Inv(m, AfterErase(m, w, bb), {})
  {
    var w' := AfterErase(m, w, bb);
    forall b {:trigger w'.body[b]} | 0 <= b < |m.orig| ensures BodyIs(m.c, w'.S, m.orig[b], b in w'.fin, w'.body[b]) {
      assert BodyIs(m.c, w.S, m.orig[b], b in w.fin, w.body[b]);
    }
    assert AllRenamed(m, w') by {
      forall x: nat {:trigger RenamedAt(m, w', x)} | x in w'.vis && Live(m, x)
        ensures RenamedAt(m, w', x)
      {
        assert RenamedAt(m, w, x);
      }
    }
    assert AllPairs(m, w') by {
      forall p: nat, b: nat, k: nat {:trigger PairsOk(m, w', p, b, k)} | p < |m.orig| && b < |m.orig|
                                                                         && k < |w'.phis[b]|
        ensures PairsOk(m, w', p, b, k)
      {
        assert PairsOk(m, w, p, b, k);
      }
    }
    assert AllUntouched(m, w', {}) by {
      forall b: nat, r {:trigger ToCome(m, w', {}, b, r)} | ToCome(m, w', {}, b, r) ensures Untouched(w', r) {
        assert ToCome(m, w, {}, b, r);
      }
    }
  }

  lemma PhiDstsShape(p: seq<Phi>, q: seq<Phi>)
    requires SameShape(p, q)
    ensures PhiDsts(p) == PhiDsts(q) && (DistinctPhis(p) ==> DistinctPhis(q)) && forall v :: HasPhi(p, v) <==>
              HasPhi(q, v)
  {
    forall r ensures r in PhiDsts(p) <==> r in PhiDsts(q) {
      if r in PhiDsts(p) { var k :| 0 <= k < |p| && p[k].dst == r; assert q[k].dst == r; }
      if r in PhiDsts(q) { var k :| 0 <= k < |q| && q[k].dst == r; assert p[k].dst == r; }
    }
    forall v ensures HasPhi(p, v) <==> HasPhi(q, v) {
      if HasPhi(p, v) { var k :| 0 <= k < |p| && p[k].lval == v; assert q[k].lval == v; }
      if HasPhi(q, v) { var k :| 0 <= k < |q| && q[k].lval == v; assert p[k].lval == v; }
    }
  }

  lemma {:induction false} AvailShape(m: Ssa, m': Ssa, b: nat)
    requires Linked(m.id, m.l) && |m.l.to| == |m.orig| == |m.phis| == |m'.phis| && b in m.l.known
    requires m' == m.(phis := m'.phis, S := m'.S, tin := m'.tin, tout := m'.tout)
    requires forall x :: 0 <= x < |m.phis| ==> PhiDsts(m.phis[x]) == PhiDsts(m'.phis[x])
    ensures AvailOut(m', b) == AvailOut(m, b)
    decreases m.id[0] - m.id[b]
  {
    if b != 0 { AvailShape(m, m', m.l.to[b]); }
  }

  lemma InputShape(m: Ssa, m': Ssa)
    requires Input(m) && |m'.phis| == |m.phis| && m' == m.(phis := m'.phis, S := m'.S, tin := m'.tin, tout := m'.tout)
    requires forall x :: 0 <= x < |m.phis| ==> SameShape(m.phis[x], m'.phis[x])
    requires forall r :: r in m'.S ==> r < m.c.limit
    ensures Input(m')
  {
    forall x | 0 <= x < |m.phis| ensures PhiDsts(m.phis[x]) == PhiDsts(m'.phis[x]) && DistinctPhis(m'.phis[x]) {
      PhiDstsShape(m.phis[x], m'.phis[x]);
    }
    forall b: nat | Live(m', b) ensures BodyOk(m'.c, AvailIn(m', b) + PhiDsts(m'.phis[b]), m'.orig[b]) {
      assert Live(m, b);
      if b != 0 { AvailShape(m, m', m.l.to[b]); }
      assert AvailIn(m', b) == AvailIn(m, b);
    }
    assert DefsUnique(m') by {
      forall a, b {:trigger BlockDefs(m', a), BlockDefs(m', b)} | 0 <= a < |m.orig| && 0 <= b < |m.orig| && a != b
        ensures BlockDefs(m', a) !! BlockDefs(m', b)
      {
        assert BlockDefs(m', a) == BlockDefs(m, a) && BlockDefs(m', b) == BlockDefs(m, b);
      }
    }
  }

  /** The result of the walk. */
  function Result(m: Ssa, w: Walk): Ssa {
    m.(phis := w.phis, S := w.S, tin := w.tin, tout := w.tout)
  }

  lemma ResultRenamed(m: Ssa, w: Walk, b: nat)
    requires Inv(m, w, {}) && Live(m, b) && b in w.vis
    ensures BlockRenamed(Result(m, w), b)
  {
    assert RenamedAt(m, w, b) && SameShape(m.phis[b], w.phis[b]);
    PhiTopsShape(TopsAbove(m, w, b), m.phis[b], w.phis[b]);
  }

  lemma ResultPlaced(m: Ssa, w: Walk)
    requires Inv(m, w, {}) && PhisPlaced(m)
    ensures PhisPlaced(Result(m, w))
  {
    var m' := Result(m, w);
    forall x: nat, y: nat, v: nat {:trigger InMap(m'.f, x, y), HasPhi(m'.phis[y], v)} |
      Live(m', x) && Live(m', y) && InMap(m.f, x, y) && (HasStore(m.c, m.orig[x], v) || HasPhi(m'.phis[x], v))
      ensures HasPhi(m'.phis[y], v)
    {
      assert SameShape(m.phis[x], w.phis[x]) && SameShape(m.phis[y], w.phis[y]);
      PhiDstsShape(m.phis[x], w.phis[x]);
      PhiDstsShape(m.phis[y], w.phis[y]);
      assert Live(m, x) && Live(m, y) && InMap(m.f, x, y) && HasPhi(m.phis[y], v);
    }
  }

  lemma ResultPairs(m: Ssa, w: Walk)
    requires Inv(m, w, {}) && forall b: nat :: Live(m, b) ==> b in w.vis
    ensures WellFormed(m.g) && PairsFilled(Result(m, w))
  {
    var m' := Result(m, w);
    forall p: nat, b: nat, k {:trigger Edge(m'.g, p, b), m'.phis[b][k]} |
      Edge(m.g, p, b) && p in m'.l.known && 0 <= k < |m'.phis[b]|
      ensures PairFor(m'.phis[b][k].pairs, p) == TopOf(m'.tout[p], m'.phis[b][k].lval)
    {
      assert Live(m, p) && PairsOk(m, w, p, b, k);
    }
  }

  /** When every block that the entry reaches has been left, what remains is the SSA form of the function. */
  lemma WalkEnds(m: Ssa, w: Walk)
    requires Inv(m, w, {}) && PhisPlaced(m)
    requires forall b: nat :: b in w.fin <==> Live(m, b)
    ensures IsSsa(Result(m, w))
    ensures forall b: nat :: b < |m.orig| ==> DropAllocas(w.body[b]) == AfterBody(Result(m, w), b)
    ensures forall b: nat, i :: Live(m, b) ==>
              (i in w.body[b] <==> exists k :: 0 <= k < |m.orig[b]| && i == SubstInstr(w.S, m.orig[b][k])
                                               && !(VarLoad(m.c, m.orig[b][k]) && m.orig[b][k].dst in w.S)
                                               && !VarStore(m.c, m.orig[b][k]))
  {
    forall b: nat, i | Live(m, b)
      ensures i in w.body[b] <==> exists k :: 0 <= k < |m.orig[b]| && i == SubstInstr(w.S, m.orig[b][k])
                                              && !(VarLoad(m.c, m.orig[b][k]) && m.orig[b][k].dst in w.S)
                                              && !VarStore(m.c, m.orig[b][k])
    {
      assert BodyIs(m.c, w.S, m.orig[b], b in w.fin, w.body[b]);
      SweptIs(m.c, w.S, m.orig[b], i);
    }
    InputShape(m, Result(m, w));
    forall b: nat | Live(Result(m, w), b) ensures BlockRenamed(Result(m, w), b) {
      assert Live(m, b);
      ResultRenamed(m, w, b);
    }
    ResultPlaced(m, w);
    ResultPairs(m, w);
    forall b: nat | b < |m.orig| ensures DropAllocas(w.body[b]) == AfterBody(Result(m, w), b) {
      assert BodyIs(m.c, w.S, m.orig[b], b in w.fin, w.body[b]) && (b in w.fin <==> Live(m, b));
      DropIsRenamed(m.c, w.S, m.orig[b]);
    }
  }
}

/** SSA construction keeps types: what stands for a variable has the type of its content. */
module TypedSsa {
  import G = Graph
  import D = DomTree
  import opened IR
  import opened FuncInfo
  import opened Types
  import opened Renaming
  import opened Promotion
  import opened DeadCode
  import W = RenameWalk
  import S = SsaPass
  import C = PlainCode

  /** The variable is a slot. */
  predicate IsVar(types: Types, v: nat) {
    v in types && types[v].SlotT?
  }

  function ContentOf(types: Types, v: nat): Type {
    if IsVar(types, v) then Content(types[v].slot) else NumT
  }

  ghost predicate InstrFits(c: Ctx, params: seq<ParamType>, types: Types, i: Instr) {
    Fitting(params, types, i) && (PromotedLoad(c, i) || PromotedStore(c, i) ==> IsVar(types, i.ptr.r))
  }

  ghost predicate AllFit(m: Ssa, params: seq<ParamType>, types: Types) {
    forall b, i {:trigger m.orig[b][i]} :: 0 <= b < |m.orig| && 0 <= i < |m.orig[b]| ==>
      InstrFits(m.c, params, types, m.orig[b][i])
  }

  ghost predicate SetAt(m: Ssa, r: nat) {
    exists b, i :: 0 <= b < |m.orig| && 0 <= i < |m.orig[b]| && HasDst(m.orig[b][i]) && m.orig[b][i].dst == r
  }

  /** The input is typed: `types` are the types of the registers that it sets. */
  ghost predicate OrigFits(m: Ssa, params: seq<ParamType>, types: Types) {
    && AllFit(m, params, types) && (forall r :: r in types ==> SetAt(m, r) && r < m.c.limit)
    && (forall b, k {:trigger m.phis[b][k]} :: 0 <= b < |m.phis| && 0 <= k < |m.phis[b]| ==>
          IsVar(types, m.phis[b][k].lval))
  }

  /** The types after SSA construction: a phi has the type of what its variable holds. */
  ghost function SsaTypes(m: Ssa, types: Types): Types
    requires |m.orig| == |m.phis| && UniqueDefs(After(m))
  {
    map r | r in types.Keys + DefMap(After(m)).Keys ::
      if r in types then types[r]
      else match DefMap(After(m))[r] case PhiItem(p) => ContentOf(types, p.lval) case _ => NumT
  }

  ghost predicate PhisFit(types: Types, phis: seq<Phi>) {
    forall k :: 0 <= k < |phis| ==>
      IsVar(types, phis[k].lval) && phis[k].dst in types && types[phis[k].dst] == ContentOf(types, phis[k].lval)
  }

  lemma FitsMore(c: Ctx, params: seq<ParamType>, types: Types, types': Types, i: Instr)
    requires InstrFits(c, params, types, i) && Extends(types, types')
    ensures InstrFits(c, params, types', i)
  {
    FittingMore(params, types, types', i);
  }

  lemma SsaTypesFit(m: Ssa, params: seq<ParamType>, types: Types)
    requires Input(m) && |m.orig| == |m.phis| && UniqueDefs(After(m)) && OrigFits(m, params, types)
    ensures Extends(types, SsaTypes(m, types)) && AllFit(m, params, SsaTypes(m, types))
    ensures forall b :: 0 <= b < |m.phis| ==> PhisFit(SsaTypes(m, types), m.phis[b])
  {
    hide Input, UniqueDefs, Items, InstrFits;
    var types' := SsaTypes(m, types);
    forall b, i {:trigger m.orig[b][i]} | 0 <= b < |m.orig| && 0 <= i < |m.orig[b]|
      ensures InstrFits(m.c, params, types', m.orig[b][i])
    {
      FitsMore(m.c, params, types, types', m.orig[b][i]);
    }
    forall b | 0 <= b < |m.phis| ensures PhisFit(types', m.phis[b]) {
      forall k | 0 <= k < |m.phis[b]|
        ensures IsVar(types', m.phis[b][k].lval) && m.phis[b][k].dst in types'
                && types'[m.phis[b][k].dst] == ContentOf(types', m.phis[b][k].lval)
      {
        PhiType(m, params, types, b, k);
      }
    }
  }

  lemma PhiType(m: Ssa, params: seq<ParamType>, types: Types, b: nat, k: nat)
    requires Input(m) && |m.orig| == |m.phis| && UniqueDefs(After(m)) && OrigFits(m, params, types)
    requires b < |m.phis| && k < |m.phis[b]|
    ensures var p := m.phis[b][k]; IsVar(types, p.lval) && p.dst !in types && p.dst in SsaTypes(m, types)
                                   && SsaTypes(m, types)[p.dst] == ContentOf(types, p.lval)
  {
    hide Input, UniqueDefs, AllFit;
    var p := m.phis[b][k];
    assert PhiItem(p) in BlockItems(After(m)[b]);
    assert PhiItem(p) in Items(After(m)) && ItemDst(PhiItem(p)) == p.dst;
    C.ItemBelow(m, PhiItem(p), b, k);
  }

  // ----- values on top of the stacks ------------------------------------------------------------------------------

  ghost predicate TopsFit(params: seq<ParamType>, types: Types, t: Tops) {
    forall v :: v in t ==> IsVar(types, v) && TypeOf(params, types, t[v]) == Some(ContentOf(types, v))
  }

  /** What replaces a register has its type. */
  ghost predicate SubstFits(params: seq<ParamType>, types: Types, S: Tops, avail: set<nat>) {
    forall r :: r in avail && r in S && r in types ==> TypeOf(params, types, S[r]) == Some(types[r])
  }

  lemma FitStep(c: Ctx, S: Tops, params: seq<ParamType>, types: Types, avail: set<nat>, t: Tops, i: Instr)
    requires InstrOk(c, avail, i) && LoadOk(c, S, t, i) && InstrFits(c, params, types, i)
    requires TopsFit(params, types, t) && SubstFits(params, types, S, avail)
    ensures TopsFit(params, types, TopsStep(c, S, t, i)) && SubstFits(params, types, S, Plus(avail, i))
  {
    if PromotedStore(c, i) {
      assert Operands(i) == [i.val, i.ptr] && i.val in Operands(i);
      assert i.val.Reg? ==> Uses(i, i.val.r);
      assert TypeOf(params, types, Subst(S, i.val)) == TypeOf(params, types, i.val);
    }
  }

  lemma {:induction false} FitBody(c: Ctx, S: Tops, params: seq<ParamType>, types: Types, avail: set<nat>, t: Tops,
                                   body: seq<Instr>)
    requires BodyOk(c, avail, body) && LoadsOk(c, S, t, body)
    requires forall i :: i in body ==> InstrFits(c, params, types, i)
    requires TopsFit(params, types, t) && SubstFits(params, types, S, avail)
    ensures TopsFit(params, types, TopsAfter(c, S, t, body)) && SubstFits(params, types, S, avail + Defs(body))
    decreases body
  {
    hide InstrOk, LoadOk, InstrFits, TopsFit, SubstFits;
    if body == [] {
      assert avail + Defs(body) == avail;
    } else {
      FitStep(c, S, params, types, avail, t, body[0]);
      FitBody(c, S, params, types, Plus(avail, body[0]), TopsStep(c, S, t, body[0]), body[1..]);
      assert Plus(avail, body[0]) + Defs(body[1..]) == avail + Defs(body);
    }
  }

  lemma {:induction false} FitPhis(params: seq<ParamType>, types: Types, t: Tops, phis: seq<Phi>)
    requires TopsFit(params, types, t) && PhisFit(types, phis)
    ensures TopsFit(params, types, PhiTops(t, phis))
    decreases phis
  {
    if phis != [] { FitPhis(params, types, t[phis[0].lval := Reg(phis[0].dst)], phis[1..]); }
  }

  /** At the end of every block. */
  lemma {:induction false} FitOut(m: Ssa, params: seq<ParamType>, types: Types, b: nat)
    requires IsSsa(m) && Live(m, b) && AllFit(m, params, types)
    requires forall x :: 0 <= x < |m.phis| ==> PhisFit(types, m.phis[x])
    ensures TopsFit(params, types, m.tout[b]) && SubstFits(params, types, m.S, AvailOut(m, b))
    decreases m.id[0] - m.id[b]
  {
    hide InstrFits, BodyOk, LoadsOk, D.IsFrontier, PhisPlaced, PairsFilled, PhisFit;
    if b != 0 { FitOut(m, params, types, m.l.to[b]); }
    var t := if b == 0 then map[] else m.tout[m.l.to[b]];
    assert BlockRenamed(m, b);
    FitPhis(params, types, t, m.phis[b]);
    var avail := AvailIn(m, b) + PhiDsts(m.phis[b]);
    assert SubstFits(params, types, m.S, avail) by { PhisNotReplaced(m, b); }
    forall i | i in m.orig[b] ensures InstrFits(m.c, params, types, i) {
      var k :| 0 <= k < |m.orig[b]| && m.orig[b][k] == i;
    }
    FitBody(m.c, m.S, params, types, avail, m.tin[b], m.orig[b]);
    assert avail + Defs(m.orig[b]) == AvailOut(m, b);
  }

  lemma PhisNotReplaced(m: Ssa, b: nat)
    requires Input(m) && b < |m.phis|
    ensures forall r :: r in PhiDsts(m.phis[b]) ==> r !in m.S
  {
    hide BodyOk, D.IsFrontier;
  }

  /** So a use keeps its type. */
  lemma RegFits(m: Ssa, params: seq<ParamType>, types: Types, types': Types, r: nat)
    requires IsSsa(m) && S.LoadsOnly(m) && OrigFits(m, params, types) && Extends(types, types')
             && AllFit(m, params, types')
    requires r in types && forall x :: 0 <= x < |m.phis| ==> PhisFit(types', m.phis[x])
    ensures TypeOf(params, types', Subst(m.S, Reg(r))) == Some(types[r])
  {
    hide IsSsa, AllFit, PhisFit, BodyOk;
    if r in m.S {
      var b: nat, i: nat :| b < |m.orig| && i < |m.orig[b]| && HasDst(m.orig[b][i]) && m.orig[b][i].dst == r;
      assert Live(m, b);
      S.DefAt(m.orig[b], i);
      FitOut(m, params, types', b);
      AvailHere(m, b, r);
    }
  }

  lemma AvailHere(m: Ssa, b: nat, r: nat)
    requires IsSsa(m) && Live(m, b) && r in Defs(m.orig[b])
    ensures r in AvailOut(m, b)
  {
    hide D.IsFrontier, PhisPlaced, PairsFilled, BodyOk, Defs;
  }

  // ----- the result -----------------------------------------------------------------------------------------------

  ghost predicate SubstKeeps(params: seq<ParamType>, types: Types, types': Types, S: Tops) {
    forall o :: Typed(params, types, o) ==> TypeOf(params, types', Subst(S, o)) == TypeOf(params, types, o)
  }

  lemma AllKeep(m: Ssa, params: seq<ParamType>, types: Types, types': Types)
    requires IsSsa(m) && S.LoadsOnly(m) && OrigFits(m, params, types) && Extends(types, types')
             && AllFit(m, params, types')
    requires forall x :: 0 <= x < |m.phis| ==> PhisFit(types', m.phis[x])
    ensures SubstKeeps(params, types, types', m.S)
  {
    hide IsSsa, AllFit, PhisFit, S.LoadsOnly;
    forall o | Typed(params, types, o) ensures TypeOf(params, types', Subst(m.S, o)) == TypeOf(params, types, o) {
      if o.Reg? { RegFits(m, params, types, types', o.r); }
    }
  }

  lemma SubstTyped(sigs: Sigs, params: seq<ParamType>, types: Types, types': Types, S: Tops, i: Instr)
    requires InstrTyped(sigs, params, types, i) && Extends(types, types') && SubstKeeps(params, types, types', S)
    ensures InstrTyped(sigs, params, types', SubstInstr(S, i))
  {
    hide CallTyped, Fitting;
    SubstFitting(params, types, types', S, i);
    SubstCall(sigs, params, types, types', S, i);
  }

  lemma SubstFitting(params: seq<ParamType>, types: Types, types': Types, S: Tops, i: Instr)
    requires Fitting(params, types, i) && Extends(types, types') && SubstKeeps(params, types, types', S)
    ensures Fitting(params, types', SubstInstr(S, i))
  {
    hide TypeOf, Subst;
    SubstOperands(params, types, types', S, i);
    if i.Load? { assert i.ptr in Operands(i); }
    if i.Store? { assert Operands(i) == [i.val, i.ptr] && i.val in Operands(i) && i.ptr in Operands(i); }
    if i.Gep? { assert Operands(i)[0] == i.base; }
    if i.Ret? && i.ret.Some? { assert i.ret.value in Operands(i); }
  }

  lemma SubstOperands(params: seq<ParamType>, types: Types, types': Types, S: Tops, i: Instr)
    requires (forall o :: o in Operands(i) ==> Typed(params, types, o)) && SubstKeeps(params, types, types', S)
    ensures forall o :: o in Operands(SubstInstr(S, i)) ==> Typed(params, types', o)
  {
    hide TypeOf, Subst, SubstInstr;
    OperandsOfSubst(S, i);
    forall o | o in Operands(SubstInstr(S, i)) ensures Typed(params, types', o) {
      var k :| 0 <= k < |Operands(i)| && Subst(S, Operands(i)[k]) == o;
      assert Typed(params, types, Operands(i)[k]);
    }
  }

  lemma SubstCall(sigs: Sigs, params: seq<ParamType>, types: Types, types': Types, S: Tops, i: Instr)
    requires CallTyped(sigs, params, types, i) && SubstKeeps(params, types, types', S)
    ensures CallTyped(sigs, params, types', SubstInstr(S, i))
  {
    hide TypeOf, Subst;
    if i.Call? {
      forall k | 0 <= k < |i.args|
        ensures TypeOf(params, types', SubstAll(S, i.args)[k]) == Some(TypeOfParam(sigs[i.fn][k]))
      {
        assert Typed(params, types, i.args[k]);
      }
    }
  }

  lemma {:induction false} PairCounted(pairs: seq<(Operand, nat)>, p: nat)
    ensures PairFor(pairs, p).Some? ==> W.PairsFrom(pairs, p) > 0
  {
    if pairs != [] { PairCounted(pairs[1..], p); }
  }

  lemma PhiTypedAfter(m: Ssa, params: seq<ParamType>, types: Types, b: nat, k: nat)
    requires IsSsa(m) && S.OnePairPerEdge(m) && AllFit(m, params, types) && b < |m.phis| && k < |m.phis[b]|
    requires forall x :: 0 <= x < |m.phis| ==> PhisFit(types, m.phis[x])
    ensures PhiTyped(params, types, |m.orig|, m.phis[b][k])
  {
    hide IsSsa, AllFit;
    var p := m.phis[b][k];
    forall from: nat | from < |m.orig| && PairFor(p.pairs, from).Some?
      ensures TypeOf(params, types, PairFor(p.pairs, from).value) == Some(types[p.dst])
    {
      PairCounted(p.pairs, from);
      assert from in m.l.known && p.lval in m.tout[from] && W.Occurs(m.g.succ[from], b) > 0;
      W.OccursIn(m.g.succ[from], b);
      EdgePair(m, from, b, k);
      FitOut(m, params, types, from);
    }
  }

  lemma EdgePair(m: Ssa, from: nat, b: nat, k: nat)
    requires IsSsa(m) && from < |m.g.succ| && b in m.g.succ[from] && from in m.l.known && b < |m.phis|
             && k < |m.phis[b]|
    ensures PairFor(m.phis[b][k].pairs, from) == TopOf(m.tout[from], m.phis[b][k].lval)
  {
    hide D.IsFrontier, PhisPlaced, BodyOk, BlockRenamed, DefsUnique;
    assert G.Edge(m.g, from, b);
  }

  /** The SSA form of typed code is typed. */
  lemma AfterTyped(sigs: Sigs, params: seq<ParamType>, types: Types, m: Ssa)
    requires IsSsa(m) && S.LoadsOnly(m) && S.OnePairPerEdge(m) && |m.orig| == |m.phis| && UniqueDefs(After(m))
    requires OrigFits(m, params, types)
    requires forall b, i {:trigger m.orig[b][i]} :: 0 <= b < |m.orig| && 0 <= i < |m.orig[b]| ==>
      CallTyped(sigs, params, types, m.orig[b][i])
    ensures CodeTyped(sigs, params, SsaTypes(m, types), After(m))
  {
    hide IsSsa, S.LoadsOnly, UniqueDefs, PhisFit, CallTyped, Fitting, PhiTyped, S.OnePairPerEdge;
    var types' := SsaTypes(m, types);
    assert Input(m) by { IsInput(m); }
    SsaTypesFit(m, params, types);
    AllKeep(m, params, types, types');
    forall b | 0 <= b < |m.orig| ensures BlockTyped(sigs, params, types', |m.orig|, After(m)[b]) {
      forall p | p in m.phis[b] ensures PhiTyped(params, types', |m.orig|, p) {
        var k :| 0 <= k < |m.phis[b]| && m.phis[b][k] == p;
        PhiTypedAfter(m, params, types', b, k);
      }
      forall i | i in AfterBody(m, b) ensures InstrTyped(sigs, params, types', i) {
        var k := C.AfterFrom(m, b, i);
        assert InstrFits(m.c, params, types, m.orig[b][k]);
        SubstTyped(sigs, params, types, types', m.S, m.orig[b][k]);
      }
    }
  }

  lemma IsInput(m: Ssa)
    requires IsSsa(m)
    ensures Input(m)
  {}
}

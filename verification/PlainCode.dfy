/** SSA form of generated code: every register is set once, and no address is computed by a phi. */
module PlainCode {
  import opened IR
  import D = DomTree
  import opened Cminus
  import opened Codegen
  import opened CodegenDefs
  import opened Renaming
  import opened Promotion
  import P = Promotion
  import S = SsaPass
  import opened DeadCode
  import opened Purity
  import F = FuncInfo

  // ----- where the instructions come from ---------------------------------------------------------------------

  lemma {:induction false} RenamedFrom(c: Ctx, S: Tops, body: seq<Instr>, i: Instr) returns (k: nat)
    requires i in Renamed(c, S, body)
    ensures k < |body| && i == SubstInstr(S, body[k])
  {
    k := 0;
    if Erased(c, S, body[0]) || i != SubstInstr(S, body[0]) {
      k := RenamedFrom(c, S, body[1..], i);
      k := k + 1;
    }
  }

  lemma {:induction false} DroppedFrom(body: seq<Instr>, i: Instr)
    requires i in DropAllocas(body)
    ensures i in body
  {
    if !(i == body[0]) { DroppedFrom(body[1..], i); }
  }

  lemma AfterFrom(m: Ssa, b: nat, i: Instr) returns (k: nat)
    requires b < |m.orig| && i in AfterBody(m, b)
    ensures k < |m.orig[b]| && i == SubstInstr(m.S, m.orig[b][k])
  {
    if b in m.l.known {
      k := RenamedFrom(m.c, m.S, m.orig[b], i);
    } else {
      DroppedFrom(SubstBody(m.S, m.orig[b]), i);
      k :| k < |m.orig[b]| && i == SubstBody(m.S, m.orig[b])[k];
    }
  }

  /** Where a phi or an instruction of the result stands. */
  lemma ItemFrom(m: Ssa, x: Item) returns (b: nat, k: nat)
    requires |m.orig| == |m.phis| && x in Items(After(m))
    ensures b < |m.orig|
    ensures x.PhiItem? ==> k < |m.phis[b]| && x.p == m.phis[b][k]
    ensures x.InstrItem? ==> k < |m.orig[b]| && x.i == SubstInstr(m.S, m.orig[b][k])
  {
    b :| b < |m.orig| && x in BlockItems(After(m)[b]);
    match x
    case PhiItem(p) => k :| k < |m.phis[b]| && p == m.phis[b][k];
    case InstrItem(i) => k := AfterFrom(m, b, i);
  }

  // ----- every register is set once -----------------------------------------------------------------------------

  lemma DstKept(S: Tops, i: Instr)
    ensures HasDst(SubstInstr(S, i)) == HasDst(i) && (HasDst(i) ==> SubstInstr(S, i).dst == i.dst)
  {}

  lemma SetBelow(m: Ssa, b: nat, k: nat)
    requires Input(m) && b < |m.orig| && k < |m.orig[b]| && HasDst(m.orig[b][k])
    ensures m.orig[b][k].dst < m.c.limit
  {
    hide Defs, BodyOk, DefsUnique, D.IsDomTree, D.IsFrontier;
    S.DefAt(m.orig[b], k);
  }

  lemma PhiOnce(m: Ssa, a: nat, j: nat, b: nat, k: nat)
    requires Input(m) && a < |m.phis| && j < |m.phis[a]| && b < |m.phis| && k < |m.phis[b]|
             && m.phis[a][j].dst == m.phis[b][k].dst
    ensures m.phis[a][j] == m.phis[b][k]
  {
    hide BodyOk, D.IsDomTree, D.IsFrontier, Defs;
    var d := m.phis[a][j].dst;
    assert d in PhiDsts(m.phis[a]) && d in PhiDsts(m.phis[b]);
    assert d in P.BlockDefs(m, a) && d in P.BlockDefs(m, b);
  }

  lemma SetOnce(g: Gen, k: Marks, a: nat, i: nat, b: nat, j: nat)
    requires Sound(g, k) && a < |g.blocks| && i < |g.blocks[a]| && b < |g.blocks| && j < |g.blocks[b]|
    requires HasDst(g.blocks[a][i]) && HasDst(g.blocks[b][j]) && g.blocks[a][i].dst == g.blocks[b][j].dst
    ensures a == b && i == j
  {
    hide DomOk, KindsOk;
    assert InstrSound(g.blocks, k, a, i) && InstrSound(g.blocks, k, b, j);
  }

  lemma AfterUnique(g: Gen, k: Marks, m: Ssa)
    requires Sound(g, k) && Input(m) && m.orig == g.blocks
    ensures UniqueDefs(After(m))
  {
    hide Sound, Input;
    assert |m.orig| == |m.phis| by { InputSizes(m); }
    forall x, y | x in Items(After(m)) && y in Items(After(m)) && ItemHasDst(x) && ItemHasDst(y)
                  && ItemDst(x) == ItemDst(y)
      ensures x == y
    {
      SameItem(g, k, m, x, y);
    }
  }

  lemma InputSizes(m: Ssa)
    requires Input(m)
    ensures |m.orig| == |m.phis|
  {}

  lemma SameItem(g: Gen, k: Marks, m: Ssa, x: Item, y: Item)
    requires Sound(g, k) && Input(m) && m.orig == g.blocks && |m.orig| == |m.phis|
    requires x in Items(After(m)) && y in Items(After(m)) && ItemHasDst(x) && ItemHasDst(y) && ItemDst(x) == ItemDst(y)
    ensures x == y
  {
    hide Sound, Input, Items, After;
    var a, i := ItemFrom(m, x);
    var b, j := ItemFrom(m, y);
    ItemBelow(m, x, a, i);
    ItemBelow(m, y, b, j);
    if x.PhiItem? {
      PhiOnce(m, a, i, b, j);
    } else {
      DstKept(m.S, m.orig[a][i]);
      DstKept(m.S, m.orig[b][j]);
      SetOnce(g, k, a, i, b, j);
    }
  }

  /** Phis have new registers. */
  lemma ItemBelow(m: Ssa, x: Item, b: nat, k: nat)
    requires Input(m) && |m.orig| == |m.phis| && b < |m.orig| && ItemHasDst(x)
    requires x.PhiItem? ==> k < |m.phis[b]| && x.p == m.phis[b][k]
    requires x.InstrItem? ==> k < |m.orig[b]| && x.i == SubstInstr(m.S, m.orig[b][k])
    ensures x.PhiItem? <==> m.c.limit <= ItemDst(x)
  {
    if x.InstrItem? {
      DstKept(m.S, m.orig[b][k]);
      SetBelow(m, b, k);
    }
  }

  /** No register is set in two blocks. */
  ghost predicate OneBlock(f: seq<Block>) {
    forall a, b, i, j {:trigger i in f[a].body, j in f[b].body} ::
      0 <= a < |f| && 0 <= b < |f| && i in f[a].body && j in f[b].body && HasDst(i) && HasDst(j) && i.dst == j.dst ==>
        a == b
  }

  lemma AfterOneBlock(g: Gen, k: Marks, m: Ssa)
    requires Sound(g, k) && m.orig == g.blocks && |m.orig| == |m.phis|
    ensures OneBlock(After(m))
  {
    hide Sound, AfterBody;
    forall a, b, i, j {:trigger i in After(m)[a].body, j in After(m)[b].body} |
      0 <= a < |m.orig| && 0 <= b < |m.orig| && i in After(m)[a].body && j in After(m)[b].body && HasDst(i) && HasDst(j)
      && i.dst == j.dst
      ensures a == b
    {
      var x := AfterFrom(m, a, i);
      var y := AfterFrom(m, b, j);
      DstKept(m.S, m.orig[a][x]);
      DstKept(m.S, m.orig[b][y]);
      SetOnce(g, k, a, x, b, y);
    }
  }

  // ----- addresses ------------------------------------------------------------------------------------------------

  lemma BelowIsPlain(m: Ssa, r: nat)
    requires Input(m) && |m.orig| == |m.phis| && UniqueDefs(After(m)) && r < m.c.limit
    ensures Plain(DefMap(After(m)), Reg(r))
  {
    hide Input, Items, After, UniqueDefs;
    if r in DefMap(After(m)) {
      var b, k := ItemFrom(m, DefMap(After(m))[r]);
      ItemBelow(m, DefMap(After(m))[r], b, k);
    }
  }

  /** What is set by anything but a load is no phi afterwards. */
  lemma SetterIsPlain(g: Gen, k: Marks, m: Ssa, r: nat)
    requires Sound(g, k) && Input(m) && m.orig == g.blocks && |m.orig| == |m.phis| && m.c.limit == g.next
             && UniqueDefs(After(m)) && S.LoadsOnly(m)
    requires Setter(g.blocks, k.def, r).Some? && !Setter(g.blocks, k.def, r).value.Load?
    ensures Plain(DefMap(After(m)), Subst(m.S, Reg(r)))
  {
    hide Input, DomOk, InstrSound, After, UniqueDefs, Plain;
    var at := k.def[r];
    assert !PromotedLoad(m.c, m.orig[at.0][at.1]);
    BelowIsPlain(m, r);
  }

  lemma AddrIsPlain(g: Gen, k: Marks, m: Ssa, p: Operand)
    requires Sound(g, k) && Input(m) && m.orig == g.blocks && |m.orig| == |m.phis| && m.c.limit == g.next
             && UniqueDefs(After(m)) && S.LoadsOnly(m)
    requires AddrKind(g.blocks, k.def, p) || (BaseKind(g.blocks, k.def, p) && F.PtrParam !in k.params)
    ensures Plain(DefMap(After(m)), Subst(m.S, p))
  {
    hide Input, Sound, After, UniqueDefs, Setter, S.LoadsOnly;
    if p.Reg? {
      if Setter(g.blocks, k.def, p.r).value.Load? { NoArrayLoaded(g, k, Setter(g.blocks, k.def, p.r).value); }
      SetterIsPlain(g, k, m, p.r);
    }
  }

  lemma NoArrayLoaded(g: Gen, k: Marks, i: Instr)
    requires Sound(g, k) && LoadsArray(g.blocks, k.def, i)
    ensures F.PtrParam in k.params
  {
    hide DomOk, KindsOk;
    var at := k.def[i.ptr.r];
    assert InstrSound(g.blocks, k, at.0, at.1);
  }

  /** In the SSA form of a function without array parameters every address is computed from variables by
      getelementptr alone. */
  lemma AfterPlain(g: Gen, k: Marks, m: Ssa)
    requires Sound(g, k) && F.PtrParam !in k.params && Input(m) && m.orig == g.blocks && m.c.limit == g.next
             && S.LoadsOnly(m)
    ensures UniqueDefs(After(m)) && PlainAddresses(After(m))
  {
    hide Input, Sound, After, UniqueDefs, AddrKind, BaseKind, ValueKind, S.LoadsOnly, Plain, Items;
    AfterUnique(g, k, m);
    InputSizes(m);
    forall x {:trigger x in Items(After(m))} | x in Items(After(m)) && x.InstrItem?
      ensures x.i.Load? || x.i.Store? ==> Plain(DefMap(After(m)), x.i.ptr)
      ensures x.i.Gep? ==> Plain(DefMap(After(m)), x.i.base)
    {
      var b, j := ItemFrom(m, x);
      KindsOf(g, k, b, j);
      var i := g.blocks[b][j];
      if i.Load? || i.Store? { AddrIsPlain(g, k, m, i.ptr); }
      if i.Gep? { AddrIsPlain(g, k, m, i.base); }
    }
  }

  lemma KindsOf(g: Gen, k: Marks, b: nat, j: nat)
    requires Sound(g, k) && b < |g.blocks| && j < |g.blocks[b]|
    ensures KindsOk(g.blocks, k.def, g.blocks[b][j])
  {
    assert InstrSound(g.blocks, k, b, j);
  }
}

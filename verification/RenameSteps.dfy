/** The steps of the renaming walk, on values: what one instruction, one block and one child of the
    dominator tree add to the substitution and to the stacks. */
module RenameSteps {
  import opened Graph
  import opened DomTree
  import opened IR
  import opened Renaming
  import opened Promotion

  type Stacks = map<nat, seq<Operand>>

  /** The newest value of every variable that has one. */
  function TopsOf(st: Stacks): Tops {
    map v | v in st && st[v] != [] :: st[v][|st[v]| - 1]
  }

  function StackOf(st: Stacks, v: nat): seq<Operand> {
    if v in st then st[v] else []
  }

  function Push(st: Stacks, v: nat, o: Operand): Stacks {
    st[v := StackOf(st, v) + [o]]
  }

  lemma PushTops(st: Stacks, v: nat, o: Operand)
    ensures TopsOf(Push(st, v, o)) == TopsOf(st)[v := o]
  {}

  // ----- prefixes of a block ---------------------------------------------------------------------

  lemma {:induction false} TopsSnoc(c: Ctx, S: Tops, t: Tops, body: seq<Instr>, i: nat)
    requires i < |body|
    ensures TopsAfter(c, S, t, body[..i + 1]) == TopsStep(c, S, TopsAfter(c, S, t, body[..i]), body[i])
    ensures LoadsOk(c, S, t, body[..i + 1]) <==> LoadsOk(c, S, t, body[..i])
                                                 && LoadOk(c, S, TopsAfter(c, S, t, body[..i]), body[i])
    decreases i
  {
    if i == 0 {
      assert body[..1][1..] == [] && body[..0] == [];
    } else {
      assert body[..i + 1][1..] == body[1..][..i] && body[..i][1..] == body[1..][..i - 1];
      TopsSnoc(c, S, TopsStep(c, S, t, body[0]), body[1..], i - 1);
    }
  }

  lemma {:induction false} BodySplit(c: Ctx, avail: set<nat>, body: seq<Instr>, i: nat)
    requires BodyOk(c, avail, body) && i <= |body|
    ensures BodyOk(c, avail, body[..i]) && BodyOk(c, avail + Defs(body[..i]), body[i..])
    ensures Defs(body) == Defs(body[..i]) + Defs(body[i..])
    ensures i < |body| ==> InstrOk(c, avail + Defs(body[..i]), body[i])
                           && Defs(body[i..]) == Plus({}, body[i]) + Defs(body[i + 1..])
    decreases i
  {
    if i == 0 {
      assert body[..0] == [] && body[0..] == body && avail + Defs([]) == avail;
    } else {
      assert body[..i][1..] == body[1..][..i - 1] && body[i..] == body[1..][i - 1..];
      BodySplit(c, Plus(avail, body[0]), body[1..], i - 1);
      assert Plus(avail, body[0]) + Defs(body[1..][..i - 1]) == avail + Defs(body[..i]);
      if i < |body| { assert body[1..][i - 1 + 1..] == body[i + 1..]; }
    }
  }

  lemma {:induction false} DefsFresh(c: Ctx, avail: set<nat>, body: seq<Instr>)
    requires BodyOk(c, avail, body)
    ensures Defs(body) !! avail
    ensures forall r :: r in Defs(body) ==> r < c.limit
    decreases body
  {
    if body != [] { DefsFresh(c, Plus(avail, body[0]), body[1..]); }
  }

  /** Replacing loads that a block does not know leaves its renaming as it is. */
  lemma {:induction false} SubstGrows(c: Ctx, S: Tops, S': Tops, t: Tops, avail: set<nat>, body: seq<Instr>)
    requires BodyOk(c, avail, body)
    requires forall r :: r in S ==> r in S' && S'[r] == S[r]
    requires forall r :: r in S' && r !in S ==> r !in avail && r !in Defs(body)
    ensures LoadsOk(c, S', t, body) == LoadsOk(c, S, t, body)
    ensures TopsAfter(c, S', t, body) == TopsAfter(c, S, t, body)
    decreases body
  {
    if body != [] {
      var i := body[0];
      if i.Store? && i.val.Reg? { assert Uses(i, i.val.r); }
      SubstGrows(c, S, S', TopsStep(c, S, t, i), Plus(avail, i), body[1..]);
    }
  }

  // ----- the instruction lists -------------------------------------------------------------------

  /** `replace_all_use_with`: every operand slot that holds register `r` gets `o`. */
  function ReplaceUses(r: nat, o: Operand, body: seq<Instr>): seq<Instr> {
    SubstBody(map[r := o], body)
  }

  lemma {:induction false} SubstAllTwice(S: Tops, r: nat, o: Operand, os: seq<Operand>)
    requires r !in S && forall q :: q in S ==> S[q] != Reg(r)
    ensures SubstAll(map[r := o], SubstAll(S, os)) == SubstAll(S[r := o], os)
  {
    if os != [] { SubstAllTwice(S, r, o, os[1..]); }
  }

  lemma SubstInstrTwice(S: Tops, r: nat, o: Operand, i: Instr)
    requires r !in S && forall q :: q in S ==> S[q] != Reg(r)
    ensures SubstInstr(map[r := o], SubstInstr(S, i)) == SubstInstr(S[r := o], i)
  {
    match i
    case Gep(_, _, xs) => SubstAllTwice(S, r, o, xs);
    case Call(_, _, xs) => SubstAllTwice(S, r, o, xs);
    case _ =>
  }

  lemma {:induction false} ReplaceExtends(S: Tops, r: nat, o: Operand, body: seq<Instr>)
    requires r !in S && forall q :: q in S ==> S[q] != Reg(r)
    ensures ReplaceUses(r, o, SubstBody(S, body)) == SubstBody(S[r := o], body)
  {
    if body != [] {
      SubstInstrTwice(S, r, o, body[0]);
      ReplaceExtends(S, r, o, body[1..]);
    }
  }

  /** The loads and stores that the walk deletes. */
  predicate Dead(c: Ctx, S: Tops, i: Instr) {
    (PromotedLoad(c, i) && i.dst in S) || PromotedStore(c, i)
  }

  /** A block after the walk has left it: substituted, without the dead loads and stores. */
  function Swept(c: Ctx, S: Tops, body: seq<Instr>): seq<Instr> {
    if body == [] then []
    else if Dead(c, S, body[0]) then Swept(c, S, body[1..])
    else [SubstInstr(S, body[0])] + Swept(c, S, body[1..])
  }

  lemma {:induction false} ReplaceInSwept(c: Ctx, S: Tops, r: nat, o: Operand, body: seq<Instr>)
    requires r !in S && forall q :: q in S ==> S[q] != Reg(r)
    requires r !in Defs(body)
    ensures ReplaceUses(r, o, Swept(c, S, body)) == Swept(c, S[r := o], body)
  {
    if body != [] {
      SubstInstrTwice(S, r, o, body[0]);
      ReplaceInSwept(c, S, r, o, body[1..]);
      if !Dead(c, S, body[0]) {
        assert Swept(c, S, body)[1..] == Swept(c, S, body[1..]);
      }
    }
  }

  /** The list without the elements at the given positions, counted from `k`. */
  function Without(s: seq<Instr>, dead: set<nat>, k: nat): seq<Instr> {
    if s == [] then [] else (if k in dead then [] else [s[0]]) + Without(s[1..], dead, k + 1)
  }

  lemma {:induction false} WithoutIsSwept(c: Ctx, S: Tops, body: seq<Instr>, dead: set<nat>, k: nat)
    requires forall j :: 0 <= j < |body| ==> (k + j in dead <==> Dead(c, S, body[j]))
    ensures Without(SubstBody(S, body), dead, k) == Swept(c, S, body)
  {
    if body != [] {
      assert k + 0 in dead <==> Dead(c, S, body[0]);
      assert forall j :: 0 <= j < |body[1..]| ==> body[1..][j] == body[j + 1];
      forall j | 0 <= j < |body[1..]| ensures k + 1 + j in dead <==> Dead(c, S, body[1..][j]) {
        assert k + (j + 1) in dead <==> Dead(c, S, body[j + 1]);
      }
      WithoutIsSwept(c, S, body[1..], dead, k + 1);
    }
  }

  lemma {:induction false} WithoutIsDrop(body: seq<Instr>, dead: set<nat>, k: nat)
    requires forall j :: 0 <= j < |body| ==> (k + j in dead <==> NumAlloca(body[j]))
    ensures Without(body, dead, k) == DropAllocas(body)
  {
    hide NumAlloca;
    if body != [] {
      assert k + 0 in dead <==> NumAlloca(body[0]);
      forall j | 0 <= j < |body[1..]|
        ensures k + 1 + j in dead <==> NumAlloca(body[1..][j])
      {
        assert k + (j + 1) in dead <==> NumAlloca(body[j + 1]);
      }
      WithoutIsDrop(body[1..], dead, k + 1);
      DropFirst(body);
    }
  }

  predicate NumAlloca(i: Instr) {
    i.Alloca? && (i.ty.IntSlot? || i.ty.FloatSlot?)
  }

  lemma DropFirst(body: seq<Instr>)
    requires body != []
    ensures DropAllocas(body) == (if NumAlloca(body[0]) then [] else [body[0]]) + DropAllocas(body[1..])
  {
    assert [] + DropAllocas(body[1..]) == DropAllocas(body[1..]);
  }

  /** A block that the walk has left: replaced loads and stores to variables are gone, nothing else is. */
  lemma {:induction false} SweptIs(c: Ctx, S: Tops, body: seq<Instr>, i: Instr)
    ensures i in Swept(c, S, body) <==>
            exists k :: 0 <= k < |body| && i == SubstInstr(S, body[k]) && !(VarLoad(c, body[k]) && body[k].dst in S)
                        && !VarStore(c, body[k])
    decreases body
  {
    if body != [] {
      SweptIs(c, S, body[1..], i);
      assert forall k :: 0 <= k < |body[1..]| ==> body[1..][k] == body[k + 1];
      if k :| 0 <= k < |body| && i == SubstInstr(S, body[k]) && !(VarLoad(c, body[k]) && body[k].dst in S)
              && !VarStore(c, body[k]) {
        assert k > 0 ==> body[1..][k - 1] == body[k];
      }
    }
  }

  lemma {:induction false} DropIsRenamed(c: Ctx, S: Tops, body: seq<Instr>)
    ensures DropAllocas(Swept(c, S, body)) == Renamed(c, S, body)
  {
    if body != [] {
      DropIsRenamed(c, S, body[1..]);
      if !Dead(c, S, body[0]) { assert Swept(c, S, body)[1..] == Swept(c, S, body[1..]); }
    }
  }

  /** Pointers of loads and stores are never replaced. */
  lemma PtrKept(c: Ctx, S: Tops, p: Operand)
    requires PtrOk(c, p) && forall r :: r in S ==> r !in c.geps && r !in c.scalars
    ensures Subst(S, p) == p
  {}
}

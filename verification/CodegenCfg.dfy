/** The control-flow graph that the code generator emits: terminators last, predecessor and successor
    lists that mirror the branches, no branch to the entry, at most two predecessors. */
module CodegenCfg {
  import opened IR
  import opened Cminus
  import opened Codegen
  import G = Graph

  function LastTargets(body: seq<Instr>): seq<nat> {
    if Ends(body) then Targets(body[|body| - 1]) else []
  }

  ghost predicate NoTwice(s: seq<nat>) {
    forall i, j :: 0 <= i < j < |s| ==> s[i] != s[j]
  }

  /** A terminator can only be the last instruction; the successor list holds its targets. */
  ghost predicate BlockOk(g: Gen, b: nat)
    requires b < |g.blocks| == |g.succ|
  {
    && (forall k :: 0 <= k < |g.blocks[b]| && IsTerminator(g.blocks[b][k]) ==> k == |g.blocks[b]| - 1)
    && g.succ[b] == LastTargets(g.blocks[b])
    && (forall t :: t in g.succ[b] ==> 0 < t < |g.blocks|)
  }

  ghost predicate PredOk(g: Gen, b: nat)
    requires b < |g.pred|
  {
    |g.pred[b]| <= 2 && NoTwice(g.pred[b]) && forall p :: p in g.pred[b] ==> p < |g.succ|
  }

  ghost predicate Mirror(g: Gen, a: nat, b: nat)
    requires a < |g.succ| && b < |g.pred|
  {
    a in g.pred[b] <==> b in g.succ[a]
  }

  ghost predicate Cfg(g: Gen) {
    && |g.succ| == |g.pred| == |g.blocks| && g.cur < |g.blocks|
    && (forall b: nat {:trigger BlockOk(g, b)} :: b < |g.blocks| ==> BlockOk(g, b))
    && (forall b: nat {:trigger PredOk(g, b)} :: b < |g.blocks| ==> PredOk(g, b))
    && (forall a: nat, b: nat {:trigger Mirror(g, a, b)} :: a < |g.blocks| && b < |g.blocks| ==> Mirror(g, a, b))
  }

  /** What construction never takes back: blocks only grow, and only the one being filled. */
  ghost predicate Grown(g: Gen, g': Gen) {
    && |g.blocks| <= |g'.blocks| && |g.pred| <= |g'.pred| && g.next <= g'.next
    && (forall b {:trigger g'.blocks[b]} :: 0 <= b < |g.blocks| ==> g.blocks[b] <= g'.blocks[b]
                                                                    && (b != g.cur ==> g'.blocks[b] == g.blocks[b]))
    && (forall b {:trigger g'.pred[b]} :: 0 <= b < |g.pred| ==> g'.pred[b] == g.pred[b])
  }

  /** Blocks without a terminator are the one being filled and those that were left open before. */
  ghost predicate Keeps(g: Gen, g': Gen) {
    && Grown(g, g') && g'.scope == g.scope
    && (g'.cur == g.cur || g'.cur >= |g.blocks|)
    && (forall b {:trigger g'.blocks[b]} :: 0 <= b < |g'.blocks| && !Ends(g'.blocks[b]) ==>
          b == g'.cur || (b < |g.blocks| && b != g.cur))
  }

  lemma KeepsSelf(g: Gen)
    requires Cfg(g)
    ensures Keeps(g, g)
  {}

  lemma KeepsTrans(g: Gen, g1: Gen, g2: Gen)
    requires Cfg(g) && Cfg(g1) && Cfg(g2) && Keeps(g, g1) && Keeps(g1, g2)
    ensures Keeps(g, g2)
  {
    forall b {:trigger g2.blocks[b]} | 0 <= b < |g.blocks|
      ensures g.blocks[b] <= g2.blocks[b] && (b != g.cur ==> g2.blocks[b] == g.blocks[b])
    {
      assert g.blocks[b] <= g1.blocks[b];
    }
    forall b {:trigger g2.pred[b]} | 0 <= b < |g.pred|
      ensures g2.pred[b] == g.pred[b]
    {
      assert g1.pred[b] == g.pred[b];
    }
    forall b {:trigger g2.blocks[b]} | 0 <= b < |g2.blocks| && !Ends(g2.blocks[b])
      ensures b == g2.cur || (b < |g.blocks| && b != g.cur)
    {
      if b < |g1.blocks| && b != g2.cur { assert g2.blocks[b] == g1.blocks[b]; }
    }
  }

  // ----- branches keep the lists in step with the instructions ----------------------------------------------------

  /** Successor lists hold the targets of the last instruction, and predecessor lists mirror them. */
  ghost predicate Lists(g: Gen) {
    && |g.succ| == |g.pred| == |g.blocks| && g.cur < |g.blocks|
    && (forall b: nat {:trigger g.succ[b]} :: b < |g.blocks| ==> g.succ[b] == LastTargets(g.blocks[b]))
    && (forall a: nat, b: nat {:trigger Mirror(g, a, b)} :: a < |g.blocks| && b < |g.blocks| ==> Mirror(g, a, b))
  }

  /** Whatever the target, the entry block and the current block included. */
  lemma BranchLists(g: Gen, t: nat)
    requires Lists(g) && !Terminated(g) && t < |g.blocks|
    ensures Lists(CreateBr(g, t)) && Terminated(CreateBr(g, t))
  {
    var h := CreateBr(g, t);
    assert g.succ[g.cur] == [] && h.blocks[g.cur] == g.blocks[g.cur] + [Br(t)] && h.succ[g.cur] == [t];
    forall a: nat, b: nat {:trigger Mirror(h, a, b)} | a < |h.blocks| && b < |h.blocks| ensures Mirror(h, a, b) {
      assert Mirror(g, a, b);
    }
  }

  /** The targets may be one and the same block. */
  lemma CondBranchLists(g: Gen, c: Operand, t: nat, f: nat)
    requires Lists(g) && !Terminated(g) && t < |g.blocks| && f < |g.blocks|
    ensures Lists(CreateCondBr(g, c, t, f)) && Terminated(CreateCondBr(g, c, t, f))
  {
    var h := CreateCondBr(g, c, t, f);
    assert g.succ[g.cur] == [] && h.blocks[g.cur] == g.blocks[g.cur] + [CondBr(c, t, f)];
    assert [] + [f] + [t] == [f, t] && h.succ[g.cur] == [f, t];
    forall a: nat, b: nat {:trigger Mirror(h, a, b)} | a < |h.blocks| && b < |h.blocks| ensures Mirror(h, a, b) {
      assert Mirror(g, a, b);
    }
  }

  // ----- single steps -----------------------------------------------------------------------------------------

  /** An instruction that does not end the block. */
  lemma EmitCfg(g: Gen, i: Instr)
    requires Cfg(g) && !Terminated(g) && !IsTerminator(i)
    ensures Cfg(Emit(g, i)) && !Terminated(Emit(g, i)) && Keeps(g, Emit(g, i))
    ensures Cfg(EmitNew(g, i)) && !Terminated(EmitNew(g, i)) && Keeps(g, EmitNew(g, i))
  {
    var h := Emit(g, i);
    BodyOpen(g);
    forall b: nat {:trigger BlockOk(h, b)} | b < |h.blocks| ensures BlockOk(h, b) { assert BlockOk(g, b); }
    forall b: nat {:trigger PredOk(h, b)} | b < |h.blocks| ensures PredOk(h, b) { assert PredOk(g, b); }
    forall a: nat, b: nat {:trigger Mirror(h, a, b)} | a < |h.blocks| && b < |h.blocks|
      ensures Mirror(h, a, b)
    {
      assert Mirror(g, a, b);
    }
    CfgSame(h, h.(next := g.next + 1));
  }

  /** The next register, the current block and the names in scope are no part of the graph. */
  lemma CfgSame(g: Gen, h: Gen)
    requires Cfg(g) && h.blocks == g.blocks && h.succ == g.succ && h.pred == g.pred && h.cur < |h.blocks|
    ensures Cfg(h)
  {
    forall b: nat {:trigger BlockOk(h, b)} | b < |h.blocks| ensures BlockOk(h, b) { assert BlockOk(g, b); }
    forall b: nat {:trigger PredOk(h, b)} | b < |h.blocks| ensures PredOk(h, b) { assert PredOk(g, b); }
    forall a: nat, b: nat {:trigger Mirror(h, a, b)} | a < |h.blocks| && b < |h.blocks| ensures Mirror(h, a, b) {
      assert Mirror(g, a, b);
    }
  }

  /** An open block has no terminator at all and no successors. */
  lemma BodyOpen(g: Gen)
    requires Cfg(g) && !Terminated(g)
    ensures g.succ[g.cur] == [] && forall k :: 0 <= k < |g.blocks[g.cur]| ==> !IsTerminator(g.blocks[g.cur][k])
    ensures forall b: nat :: b < |g.blocks| ==> g.cur !in g.pred[b]
  {
    assert BlockOk(g, g.cur);
    forall b: nat | b < |g.blocks| ensures g.cur !in g.pred[b] { assert Mirror(g, g.cur, b); }
  }

  lemma NewBlockCfg(g: Gen)
    requires Cfg(g)
    ensures Cfg(NewBlock(g)) && NewBlock(g).blocks[..|g.blocks|] == g.blocks && NewBlock(g).blocks[|g.blocks|] == []
    ensures NewBlock(g).pred[..|g.pred|] == g.pred && NewBlock(g).pred[|g.pred|] == []
  {
    var h := NewBlock(g);
    forall b: nat {:trigger BlockOk(h, b)} | b < |h.blocks|
      ensures BlockOk(h, b)
    {
      if b < |g.blocks| { assert BlockOk(g, b); }
    }
    forall b: nat {:trigger PredOk(h, b)} | b < |h.blocks|
      ensures PredOk(h, b)
    {
      if b < |g.blocks| { assert PredOk(g, b); }
    }
    forall a: nat, b: nat {:trigger Mirror(h, a, b)} | a < |h.blocks| && b < |h.blocks| ensures Mirror(h, a, b) {
      if a < |g.blocks| && b < |g.blocks| { assert Mirror(g, a, b); }
      if a < |g.blocks| { assert BlockOk(g, a); }
      if b < |g.blocks| { assert PredOk(g, b); }
    }
  }

  lemma RetCfg(g: Gen, i: Instr)
    requires Cfg(g) && !Terminated(g) && i.Ret?
    ensures Cfg(Emit(g, i)) && Terminated(Emit(g, i)) && Keeps(g, Emit(g, i))
  {
    var h := Emit(g, i);
    BodyOpen(g);
    forall b: nat {:trigger BlockOk(h, b)} | b < |h.blocks| ensures BlockOk(h, b) { assert BlockOk(g, b); }
    forall b: nat {:trigger PredOk(h, b)} | b < |h.blocks| ensures PredOk(h, b) { assert PredOk(g, b); }
    forall a: nat, b: nat {:trigger Mirror(h, a, b)} | a < |h.blocks| && b < |h.blocks|
      ensures Mirror(h, a, b)
    {
      assert Mirror(g, a, b);
    }
  }

  lemma BrCfg(g: Gen, t: nat)
    requires Cfg(g) && !Terminated(g) && 0 < t < |g.blocks| && |g.pred[t]| <= 1
    ensures Cfg(CreateBr(g, t)) && Terminated(CreateBr(g, t))
    ensures CreateBr(g, t).pred == g.pred[t := g.pred[t] + [g.cur]]
    ensures CreateBr(g, t).blocks == g.blocks[g.cur := g.blocks[g.cur] + [Br(t)]]
  {
    var h := CreateBr(g, t);
    BodyOpen(g);
    forall b: nat {:trigger BlockOk(h, b)} | b < |h.blocks| ensures BlockOk(h, b) { assert BlockOk(g, b); }
    forall b: nat {:trigger PredOk(h, b)} | b < |h.blocks| ensures PredOk(h, b) { assert PredOk(g, b); }
    forall a: nat, b: nat {:trigger Mirror(h, a, b)} | a < |h.blocks| && b < |h.blocks|
      ensures Mirror(h, a, b)
    {
      assert Mirror(g, a, b);
    }
  }

  lemma CondBrCfg(g: Gen, c: Operand, t: nat, f: nat)
    requires Cfg(g) && !Terminated(g) && 0 < t < |g.blocks| && 0 < f < |g.blocks| && t != f && |g.pred[t]| <= 1
             && |g.pred[f]| <= 1
    ensures Cfg(CreateCondBr(g, c, t, f)) && Terminated(CreateCondBr(g, c, t, f))
    ensures CreateCondBr(g, c, t, f).pred == g.pred[t := g.pred[t] + [g.cur]][f := g.pred[f] + [g.cur]]
    ensures CreateCondBr(g, c, t, f).blocks == g.blocks[g.cur := g.blocks[g.cur] + [CondBr(c, t, f)]]
  {
    var h := CreateCondBr(g, c, t, f);
    BodyOpen(g);
    assert g.succ[g.cur] + [f] + [t] == [f, t];
    assert h.succ == g.succ[g.cur := [f, t]];
    forall b: nat {:trigger BlockOk(h, b)} | b < |h.blocks| ensures BlockOk(h, b) { assert BlockOk(g, b); }
    forall b: nat {:trigger PredOk(h, b)} | b < |h.blocks| ensures PredOk(h, b) { assert PredOk(g, b); }
    forall a: nat, b: nat {:trigger Mirror(h, a, b)} | a < |h.blocks| && b < |h.blocks|
      ensures Mirror(h, a, b)
    {
      assert Mirror(g, a, b);
    }
  }

  // ----- constructs that open several blocks --------------------------------------------------------------------

  /** Under way since `g0`: the block that was being filled then has ended; the blocks in `todo` are
      still empty, and every other new block but the current one has ended. */
  ghost predicate Mid(g0: Gen, g: Gen, todo: set<nat>) {
    && Cfg(g) && Grown(g0, g) && g.scope == g0.scope && g0.cur < |g0.blocks| && Ends(g.blocks[g0.cur])
    && (g.cur == g0.cur || (g.cur >= |g0.blocks| && g.cur !in todo))
    && (forall b {:trigger b in todo} :: b in todo ==> |g0.blocks| <= b < |g.blocks| && g.blocks[b] == [])
    && (forall b {:trigger g.blocks[b]} :: 0 <= b < |g.blocks| && !Ends(g.blocks[b]) ==>
          b in todo || b == g.cur || (b < |g0.blocks| && b != g0.cur))
  }

  lemma MidStep(g0: Gen, g: Gen, todo: set<nat>, g': Gen)
    requires Cfg(g0) && Mid(g0, g, todo) && Cfg(g') && Keeps(g, g') && g.cur != g0.cur
    ensures Mid(g0, g', todo) && g'.cur != g0.cur
    ensures forall b {:trigger g'.pred[b]} :: 0 <= b < |g.pred| ==> g'.pred[b] == g.pred[b]
  {
    forall b {:trigger g'.blocks[b]} | 0 <= b < |g0.blocks|
      ensures g0.blocks[b] <= g'.blocks[b] && (b != g0.cur ==> g'.blocks[b] == g0.blocks[b])
    {
      assert g0.blocks[b] <= g.blocks[b];
    }
    forall b {:trigger g'.pred[b]} | 0 <= b < |g0.pred|
      ensures g'.pred[b] == g0.pred[b]
    {
      assert g.pred[b] == g0.pred[b];
    }
    forall b {:trigger g'.blocks[b]} | 0 <= b < |g'.blocks| && !Ends(g'.blocks[b])
      ensures b in todo || b == g'.cur || (b < |g0.blocks| && b != g0.cur)
    {
      if b < |g.blocks| && b != g'.cur { assert g'.blocks[b] == g.blocks[b]; }
    }
    assert g'.blocks[g0.cur] == g.blocks[g0.cur];
  }

  lemma MidSwitch(g0: Gen, g: Gen, todo: set<nat>, t: nat)
    requires Mid(g0, g, todo) && Terminated(g) && t in todo
    ensures Mid(g0, g.(cur := t), todo - {t}) && !Terminated(g.(cur := t)) && t != g0.cur
  {
    CfgSame(g, g.(cur := t));
  }

  /** A branch to a new block, unless the current block has ended already. */
  lemma MidBr(g0: Gen, g: Gen, todo: set<nat>, t: nat)
    requires Cfg(g0) && Mid(g0, g, todo) && g.cur != g0.cur && |g0.blocks| <= t < |g.blocks| && |g.pred[t]| <= 1
    ensures Mid(g0, BrUnlessTerminated(g, t), todo) && Terminated(BrUnlessTerminated(g, t))
            && BrUnlessTerminated(g, t).cur == g.cur
    ensures |BrUnlessTerminated(g, t).pred| == |g.pred| && |BrUnlessTerminated(g, t).pred[t]| <= |g.pred[t]| + 1
    ensures forall b :: 0 <= b < |g.pred| && b != t ==> BrUnlessTerminated(g, t).pred[b] == g.pred[b]
  {
    if !Terminated(g) {
      BrCfg(g, t);
      var h := CreateBr(g, t);
      forall b {:trigger h.blocks[b]} | 0 <= b < |g0.blocks|
        ensures g0.blocks[b] <= h.blocks[b] && (b != g0.cur ==> h.blocks[b] == g0.blocks[b])
      {
        assert h.blocks[b] == g.blocks[b];
      }
      forall b {:trigger h.pred[b]} | 0 <= b < |g0.pred|
        ensures h.pred[b] == g0.pred[b]
      {
        assert g.pred[b] == g0.pred[b];
      }
    }
  }

  lemma MidEnd(g0: Gen, g: Gen)
    requires Mid(g0, g, {}) && g.cur != g0.cur
    ensures Keeps(g0, g)
  {}

  /** Two new blocks, a test in the current block, and a branch to one of them each way. */
  lemma TestCfg(g0: Gen, g: Gen, i: Instr, t: nat, f: nat, todo: set<nat>)
    requires Cfg(g0) && !Terminated(g0) && Cfg(g) && !IsTerminator(i)
    requires g.cur == g0.cur && g.scope == g0.scope && g0.next <= g.next && |g0.blocks| <= |g.blocks|
    requires g.blocks[..|g0.blocks|] == g0.blocks && g.pred[..|g0.pred|] == g0.pred
    requires forall b {:trigger b in todo} :: b in todo <==> |g0.blocks| <= b < |g.blocks|
    requires forall b :: |g0.blocks| <= b < |g.blocks| ==> g.blocks[b] == [] && g.pred[b] == []
    requires t in todo && f in todo && t != f
    ensures var h := CreateCondBr(EmitNew(g, i), Reg(g.next), t, f);
            && Mid(g0, h, todo) && Terminated(h) && h.cur == g0.cur
            && |h.pred| == |g.pred| && h.pred == g.pred[t := [g0.cur]][f := [g0.cur]]
  {
    assert g.blocks[g0.cur] == g0.blocks[g0.cur];
    EmitCfg(g, i);
    var g1 := EmitNew(g, i);
    CondBrCfg(g1, Reg(g.next), t, f);
    var h := CreateCondBr(g1, Reg(g.next), t, f);
    assert g.pred[t] + [g0.cur] == [g0.cur] && g.pred[f] + [g0.cur] == [g0.cur];
    assert h.pred == g.pred[t := [g0.cur]][f := [g0.cur]];
    forall b {:trigger h.blocks[b]} | 0 <= b < |g0.blocks|
      ensures g0.blocks[b] <= h.blocks[b] && (b != g0.cur ==> h.blocks[b] == g0.blocks[b])
    {
      assert g.blocks[b] == g0.blocks[b];
    }
    forall b {:trigger h.pred[b]} | 0 <= b < |g0.pred|
      ensures h.pred[b] == g0.pred[b]
    {
      assert g.pred[..|g0.pred|][b] == g0.pred[b];
    }
  }

  lemma TwoNewBlocks(g: Gen)
    requires Cfg(g)
    ensures var h := NewBlock(NewBlock(g));
            && Cfg(h) && |h.blocks| == |g.blocks| + 2 && h.blocks[..|g.blocks|] == g.blocks
            && h.pred[..|g.pred|] == g.pred
            && (forall b :: |g.blocks| <= b < |h.blocks| ==> h.blocks[b] == [] && h.pred[b] == [])
  {
    NewBlockCfg(g);
    NewBlockCfg(NewBlock(g));
  }

  lemma ThreeNewBlocks(g: Gen)
    requires Cfg(g)
    ensures var h := NewBlock(NewBlock(NewBlock(g)));
            && Cfg(h) && |h.blocks| == |g.blocks| + 3 && h.blocks[..|g.blocks|] == g.blocks
            && h.pred[..|g.pred|] == g.pred
            && (forall b :: |g.blocks| <= b < |h.blocks| ==> h.blocks[b] == [] && h.pred[b] == [])
  {
    TwoNewBlocks(g);
    NewBlockCfg(NewBlock(NewBlock(g)));
  }

  // ----- expressions --------------------------------------------------------------------------------------------

  ghost predicate Open(g: Gen) {
    Cfg(g) && !Terminated(g)
  }

  lemma CheckCfg(g: Gen, v: Operand, fn: nat, ret: Option<Ty>)
    requires Open(g)
    ensures Open(GenCheck(g, v, fn, ret)) && Keeps(g, GenCheck(g, v, fn, ret))
  {
    var except, cont := |g.blocks|, |g.blocks| + 1;
    TwoNewBlocks(g);
    var g1 := NewBlock(NewBlock(g));
    TestCfg(g, g1, Cmp(g1.next, LT, v, ConstInt(0)), except, cont, {except, cont});
    var g3 := CreateCondBr(EmitNew(g1, Cmp(g1.next, LT, v, ConstInt(0))), Reg(g1.next), except, cont);
    MidSwitch(g, g3, {except, cont}, except);
    var g4 := g3.(cur := except);
    EmitCfg(g4, Call(g4.next, fn, []));
    var g5 := EmitNew(g4, Call(g4.next, fn, []));
    assert {except, cont} - {except} == {cont};
    MidStep(g, g4, {cont}, g5);
    RetCfg(g5, DefaultRet(ret));
    MidStep(g, g5, {cont}, Emit(g5, DefaultRet(ret)));
    MidSwitch(g, Emit(g5, DefaultRet(ret)), {cont}, cont);
    assert {cont} - {cont} == {};
    MidEnd(g, Emit(g5, DefaultRet(ret)).(cur := cont));
  }

  lemma NewCfg(g: Gen, g1: Gen, i: Instr)
    requires Open(g) && Open(g1) && Keeps(g, g1) && !IsTerminator(i)
    ensures Open(EmitNew(g1, i)) && Keeps(g, EmitNew(g1, i)) && Open(Emit(g1, i)) && Keeps(g, Emit(g1, i))
  {
    EmitCfg(g1, i);
    KeepsTrans(g, g1, EmitNew(g1, i));
    KeepsTrans(g, g1, Emit(g1, i));
  }

  lemma ElementCfg(b: Binding, v: Operand, g: Gen)
    requires Open(g) && GenElement(b, v, g).Some?
    ensures Open(GenElement(b, v, g).value.1) && Keeps(g, GenElement(b, v, g).value.1)
  {
    KeepsSelf(g);
    match b
    case Mem(a, NumK(_)) => NewCfg(g, g, Gep(g.next, a, [v]));
    case Mem(a, PtrK(_)) =>
      NewCfg(g, g, Load(g.next, a));
      NewCfg(g, EmitNew(g, Load(g.next, a)), Gep(g.next + 1, Reg(g.next), [v]));
    case Mem(a, ArrK(_)) => NewCfg(g, g, Gep(g.next, a, [ConstInt(0), v]));
  }

  lemma ConvCfg(g: Gen, v: Operand, from: Ty, to: Ty, g1: Gen)
    requires Open(g) && Open(g1) && Keeps(g, g1)
    ensures Open(GenConv(v, from, to, g1).1) && Keeps(g, GenConv(v, from, to, g1).1)
  {
    NewCfg(g, g1, Conv(g1.next, if from.IntT? then SiToFp else FpToSi, v));
  }

  lemma StoreCfg(g: Gen, v: Operand, from: Ty, to: Ty, p: Operand, g1: Gen)
    requires Open(g) && Open(g1) && Keeps(g, g1)
    ensures Open(GenStore(v, from, to, p, g1).1) && Keeps(g, GenStore(v, from, to, p, g1).1)
  {
    hide Open, Keeps, Emit, GenConv;
    ConvCfg(g, v, from, to, g1);
    var (v', g2) := GenConv(v, from, to, g1);
    NewCfg(g, g2, Store(v', p));
  }

  /** Code for two operands. */
  lemma {:induction false} TwoCfg(l: Expr, r: Expr, g: Gen, ret: Option<Ty>)
    requires Open(g) && GenTwo(l, r, g, ret).Some?
    ensures Open(GenTwo(l, r, g, ret).value.3) && Keeps(g, GenTwo(l, r, g, ret).value.3)
    decreases if l < r then r else l, 1
  {
    hide Open, Keeps, GenX, GenConv, TypeX;
    XCfg(l, g, ret);
    var (a, g1) := GenX(l, g, ret).value;
    XCfg(r, g1, ret);
    var (b, g2) := GenX(r, g1, ret).value;
    KeptTrans(g, g1, g2);
    var s, t := TypeX(l, g.scope).t, TypeX(r, g.scope).t;
    ConvCfg(g, a, s, Join(s, t), g2);
    ConvCfg(g, b, t, Join(s, t), GenConv(a, s, Join(s, t), g2).1);
  }

  /** Code for an expression leaves the block it ends in open. */
  lemma {:induction false} XCfg(e: Expr, g: Gen, ret: Option<Ty>)
    requires Open(g) && GenX(e, g, ret).Some?
    ensures Open(GenX(e, g, ret).value.1) && Keeps(g, GenX(e, g, ret).value.1)
    decreases e, 0
  {
    hide Open, Keeps, GenElement, GenCheck, Emit, Find, TypeX, GenStore, GenTwo;
    SelfKept(g);
    match e
    case Num(_) =>
    case FloatNum(_) =>
    case Name(id) =>
      if Find(g.scope, id).value.kind.ArrK? {
        NewCfg(g, g, Gep(g.next, Find(g.scope, id).value.addr, [ConstInt(0), ConstInt(0)]));
      }
      else { NewCfg(g, g, Load(g.next, Find(g.scope, id).value.addr)); }
    case Index(id, x) =>
      IndexCfg(id, x, g, ret);
      var (p, g1) := GenIndex(id, x, g, ret).value;
      NewCfg(g, g1, Load(g1.next, p));
    case AssignName(id, x) =>
      XCfg(x, g, ret);
      var (v, g1) := GenX(x, g, ret).value;
      StoreCfg(g, v, TypeX(x, g.scope).t, Find(g.scope, id).value.kind.t, Find(g.scope, id).value.addr, g1);
    case AssignIndex(id, x, y) =>
      XCfg(y, g, ret);
      var (v, g1) := GenX(y, g, ret).value;
      IndexCfg(id, x, g1, ret);
      var (p, g2) := GenIndex(id, x, g1, ret).value;
      KeptTrans(g, g1, g2);
      StoreCfg(g, v, TypeX(y, g.scope).t, ElementOf(Find(g.scope, id)).t, p, g2);
    case BinX(op, l, r) =>
      TwoCfg(l, r, g, ret);
      var (a, b, t, g1) := GenTwo(l, r, g, ret).value;
      NewCfg(g, g1, Bin(g1.next, ArithInstr(op, t), a, b));
    case RelX(rel, l, r) =>
      TwoCfg(l, r, g, ret);
      var (a, b, t, g1) := GenTwo(l, r, g, ret).value;
      NewCfg(g, g1, Cmp(g1.next, RelInstr(rel, t), a, b));
      NewCfg(g, EmitNew(g1, Cmp(g1.next, RelInstr(rel, t), a, b)), Conv(g1.next + 1, ZExt, Reg(g1.next)));
    case CallX(id, xs) =>
      XsCfg(xs, Find(g.scope, id).value.params, g, ret);
      var (vs, g1) := GenXs(xs, Find(g.scope, id).value.params, g, ret).value;
      NewCfg(g, g1, Call(g1.next, Find(g.scope, id).value.fn, vs));
  }

  lemma SelfKept(g: Gen)
    requires Open(g)
    ensures Keeps(g, g)
  {
    KeepsSelf(g);
  }

  lemma KeptTrans(g: Gen, g1: Gen, g2: Gen)
    requires Open(g) && Open(g1) && Open(g2) && Keeps(g, g1) && Keeps(g1, g2)
    ensures Keeps(g, g2)
  {
    KeepsTrans(g, g1, g2);
  }

  lemma PassCfg(v: Operand, from: ExprTy, to: ExprTy, g: Gen, g1: Gen)
    requires Open(g) && Open(g1) && Keeps(g, g1) && GenPass(v, from, to, g1).Some?
    ensures Open(GenPass(v, from, to, g1).value.1) && Keeps(g, GenPass(v, from, to, g1).value.1)
  {
    hide Open, Keeps, GenConv;
    if from.Scalar? { ConvCfg(g, v, from.t, to.t, g1); }
  }

  lemma {:induction false} XsCfg(xs: seq<Expr>, params: seq<ExprTy>, g: Gen, ret: Option<Ty>)
    requires Open(g) && GenXs(xs, params, g, ret).Some?
    ensures Open(GenXs(xs, params, g, ret).value.1) && Keeps(g, GenXs(xs, params, g, ret).value.1)
    decreases xs, 0
  {
    hide Open, Keeps, GenX, TypeX, GenPass;
    SelfKept(g);
    if xs != [] {
      XCfg(xs[0], g, ret);
      var (v, g1) := GenX(xs[0], g, ret).value;
      var ty := TypeX(xs[0], g.scope);
      PassCfg(v, ty, params[0], g, g1);
      var (_, g2) := GenPass(v, ty, params[0], g1).value;
      XsCfg(xs[1..], params[1..], g2, ret);
      KeptTrans(g, g2, GenXs(xs[1..], params[1..], g2, ret).value.1);
    }
  }

  lemma {:induction false} IndexCfg(id: string, x: Expr, g: Gen, ret: Option<Ty>)
    requires Open(g) && GenIndex(id, x, g, ret).Some?
    ensures Open(GenIndex(id, x, g, ret).value.1) && Keeps(g, GenIndex(id, x, g, ret).value.1)
    decreases x, 1
  {
    hide Open, Keeps, GenX, GenElement, GenCheck, GenConv, TypeX;
    XCfg(x, g, ret);
    var (v, g1) := GenX(x, g, ret).value;
    var fn := Find(g.scope, NEG_IDX).value.fn;
    ConvCfg(g, v, TypeX(x, g.scope).t, IntT, g1);
    var (n, g2) := GenConv(v, TypeX(x, g.scope).t, IntT, g1);
    CheckCfg(g2, n, fn, ret);
    var g3 := GenCheck(g2, n, fn, ret);
    KeptTrans(g, g2, g3);
    ElementCfg(Find(g.scope, id).value, n, g3);
    KeptTrans(g, g3, GenElement(Find(g.scope, id).value, n, g3).value.1);
  }

  // ----- statements -----------------------------------------------------------------------------------------------

  /** The current block has just been made. */
  ghost predicate OpenEmpty(g: Gen) {
    Open(g) && g.blocks[g.cur] == []
  }

  lemma {:induction false} DeclsCfg(ds: seq<Decl>, g: Gen)
    requires Open(g) && |g.scope| > 0
    ensures Open(GenDecls(ds, g)) && Since(g, GenDecls(ds, g))
    decreases ds
  {
    if ds == [] {
      SinceSelf(g);
    } else {
      DeclCfg(ds[0], g);
      DeclsCfg(ds[1..], GenDecl(ds[0], g));
      ScopeChain(g, GenDecl(ds[0], g), GenDecls(ds, g));
    }
  }

  lemma SinceSelf(g: Gen)
    requires Cfg(g) && |g.scope| > 0
    ensures Since(g, g)
  {
    KeepsSelf(g);
    assert g.(scope := g.scope) == g;
  }

  lemma ScopeKept(g: Gen, g': Gen, s: Scope)
    requires Keeps(g, g'.(scope := g.scope))
    ensures Keeps(g.(scope := s), g'.(scope := s))
  {}

  lemma DeclCfg(d: Decl, g: Gen)
    requires Open(g) && |g.scope| > 0
    ensures Open(GenDecl(d, g)) && Since(g, GenDecl(d, g))
  {
    var i := if d.num.None? then Alloca(g.next, SlotFor(d.ty)) else Alloca(d.site, ArraySlot(d.num.value));
    EmitCfg(g, i);
    var h := if d.num.None? then EmitNew(g, i) else Emit(g, i);
    CfgSame(h, h.(scope := GenDecl(d, g).scope));
    assert GenDecl(d, g).(scope := g.scope) == h;
  }

  /** The test of an if or a loop: the branch blocks are open, the current block has ended. */
  lemma GenTestCfg(g: Gen, h: Gen, v: Operand, ty: Ty, t: nat, f: nat, todo: set<nat>)
    requires Open(g) && Cfg(h)
    requires h.cur == g.cur && h.scope == g.scope && g.next <= h.next && |g.blocks| <= |h.blocks|
    requires h.blocks[..|g.blocks|] == g.blocks && h.pred[..|g.pred|] == g.pred
    requires forall b {:trigger b in todo} :: b in todo <==> |g.blocks| <= b < |h.blocks|
    requires forall b :: |g.blocks| <= b < |h.blocks| ==> h.blocks[b] == [] && h.pred[b] == []
    requires t in todo && f in todo && t != f
    ensures var k := GenTest(h, v, ty, t, f).(cur := t);
            && Mid(g, k, todo - {t}) && Open(k) && k.cur != g.cur && k.pred == h.pred[t := [g.cur]][f := [g.cur]]
            && k.blocks[t] == []
  {
    TestCfg(g, h, Cmp(h.next, RelInstr(NotEqual, ty), v, Zero(ty)), t, f, todo);
    MidSwitch(g, GenTest(h, v, ty, t, f), todo, t);
  }

  /** Code for a statement. It may leave its last block open or ended. */
  lemma {:induction false} SCfg(t: Stmt, g: Gen, ret: Option<Ty>)
    requires Open(g) && GenS(t, g, ret).Some?
    ensures Cfg(GenS(t, g, ret).value) && Keeps(g, GenS(t, g, ret).value)
    decreases t, 1
  {
    hide Cfg, Keeps, GenX, GenTest, GenDecls, GenList, Since, BrUnlessTerminated;
    match t
    case ExprS(None) => KeepsSelf(g);
    case ExprS(Some(e)) => XCfg(e, g, ret);
    case ReturnS(None) => RetCfg(g, Ret(None));
    case ReturnS(Some(e)) =>
      XCfg(e, g, ret);
      var (v, g1) := GenX(e, g, ret).value;
      var (v', g2) := GenConv(v, TypeX(e, g.scope).t, ret.value, g1);
      ReturnCfg(g, v, TypeX(e, g.scope).t, ret.value, g1);
      RetCfg(g2, Ret(Some(v')));
      KeepsTrans(g, g2, Emit(g2, Ret(Some(v'))));
    case IfS(e, a, None) => var _, _, _, _, _, _ := IfCfg(e, a, g, ret, t);
    case IfS(e, a, Some(b)) => var _, _, _, _, _, _, _, _ := IfElseCfg(e, a, b, g, ret, t);
    case WhileS(e, body) => var _, _, _, _, _, _, _ := WhileCfg(e, body, g, ret, t);
    case CompoundS(ds, ts) =>
      var g0 := g.(scope := g.scope + [map[]]);
      CfgSizes(g);
      CfgSame(g, g.(scope := g.scope + [map[]]));
      DeclsCfg(ds, g0);
      var g1 := GenDecls(ds, g0);
      ListCfg(ts, g1, ret);
      var g2 := GenList(ts, g1, ret).value;
      CompoundKept(g, g0, g1, g2);
  }

  lemma ReturnCfg(g: Gen, v: Operand, from: Ty, to: Ty, g1: Gen)
    requires Open(g) && Open(g1) && Keeps(g, g1)
    ensures var g2 := GenConv(v, from, to, g1).1; Cfg(g2) && !Terminated(g2) && Keeps(g, g2)
  {
    ConvCfg(g, v, from, to, g1);
  }

  /** Code for a condition. */
  lemma CondCfg(e: Expr, g: Gen, ret: Option<Ty>)
    requires Open(g) && GenCond(e, g, ret).Some?
    ensures var (v, ty, g1) := GenCond(e, g, ret).value; Open(g1) && Keeps(g, g1) && GenX(e, g, ret) == Some((v, g1))
  {
    XCfg(e, g, ret);
  }

  lemma CompoundKept(g: Gen, g0: Gen, g1: Gen, g2: Gen)
    requires Cfg(g) && g0 == g.(scope := g.scope + [map[]]) && Cfg(g1) && Cfg(g2)
    requires Since(g0, g1) && Keeps(g1, g2)
    ensures Cfg(PopScope(g2)) && Keeps(g, PopScope(g2))
  {
    CfgSame(g2, g2.(scope := g.scope));
    CfgSame(g1, g1.(scope := g.scope));
    assert g0.scope[..|g0.scope| - 1] == g.scope;
    assert g2.scope[..|g2.scope| - 1] == g.scope;
    ScopeKept(g0, g1, g.scope);
    assert g0.(scope := g.scope) == g;
    KeepsTrans(g, g1.(scope := g.scope), g2.(scope := g.scope));
  }

  lemma {:induction false} ListCfg(ts: seq<Stmt>, g: Gen, ret: Option<Ty>)
    requires Open(g) && GenList(ts, g, ret).Some?
    ensures Cfg(GenList(ts, g, ret).value) && Keeps(g, GenList(ts, g, ret).value)
    decreases ts, 0
  {
    if ts == [] {
      KeepsSelf(g);
    } else {
      SCfg(ts[0], g, ret);
      var g1 := GenS(ts[0], g, ret).value;
      if !Terminated(g1) {
        ListCfg(ts[1..], g1, ret);
        KeepsTrans(g, g1, GenList(ts[1..], g1, ret).value);
      }
    }
  }

  lemma {:induction false} IfCfg(e: Expr, a: Stmt, g: Gen, ret: Option<Ty>, t: Stmt)
    returns (v: Operand, ty: Ty, g1: Gen, k: Gen, g2: Gen, r: Gen)
    requires t == IfS(e, a, None) && Open(g) && GenS(t, g, ret).Some?
    ensures GenCond(e, g, ret) == Some((v, ty, g1)) && k == GenTest(NewBlock(NewBlock(g1)), v, ty, |g1.blocks|,
                                                                    |g1.blocks| + 1).(cur := |g1.blocks|)
    ensures GenS(a, k, ret) == Some(g2) && r == BrUnlessTerminated(g2, |g1.blocks| + 1).(cur := |g1.blocks| + 1)
            && GenS(t, g, ret) == Some(r)
    ensures Open(g1) && Keeps(g, g1) && OpenEmpty(k) && Cfg(g2) && Keeps(k, g2) && OpenEmpty(r) && Keeps(g, r)
    decreases t, 0
  {
    hide Cfg, Keeps, GenCond, GenX, GenTest, Mid, BrUnlessTerminated;
    CondCfg(e, g, ret);
    v, ty, g1 := GenCond(e, g, ret).value.0, GenCond(e, g, ret).value.1, GenCond(e, g, ret).value.2;
    var trueBB, contBB := |g1.blocks|, |g1.blocks| + 1;
    var h := NewBlock(NewBlock(g1));
    TwoNewBlocks(g1);
    CfgSizes(g1);
    GenTestCfg(g1, h, v, ty, trueBB, contBB, {trueBB, contBB});
    k := GenTest(h, v, ty, trueBB, contBB).(cur := trueBB);
    assert {trueBB, contBB} - {trueBB} == {contBB};
    SCfg(a, k, ret);
    g2 := GenS(a, k, ret).value;
    JoinAt(g1, k, g2, contBB, {contBB});
    r := BrUnlessTerminated(g2, contBB).(cur := contBB);
    KeepsTrans(g, g1, r);
  }

  lemma CfgSizes(g: Gen)
    requires Cfg(g)
    ensures |g.succ| == |g.pred| == |g.blocks| && g.cur < |g.blocks|
  {}

  /** The end of a branch: control goes to the join block, which becomes the current block. */
  lemma JoinAt(g0: Gen, k: Gen, g2: Gen, join: nat, todo: set<nat>)
    requires Cfg(g0) && Mid(g0, k, todo) && Cfg(g2) && Keeps(k, g2) && k.cur != g0.cur && todo == {join}
             && join < |k.pred| && |k.pred[join]| <= 1
    ensures var r := BrUnlessTerminated(g2, join).(cur := join);
            Open(r) && Keeps(g0, r) && r.blocks[join] == []
  {
    MidStep(g0, k, todo, g2);
    MidBr(g0, g2, todo, join);
    MidSwitch(g0, BrUnlessTerminated(g2, join), todo, join);
    assert todo - {join} == {};
    MidEnd(g0, BrUnlessTerminated(g2, join).(cur := join));
  }

  lemma {:induction false} IfElseCfg(e: Expr, a: Stmt, b: Stmt, g: Gen, ret: Option<Ty>, t: Stmt)
    returns (v: Operand, ty: Ty, g1: Gen, k: Gen, g2: Gen, k2: Gen, g3: Gen, r: Gen)
    requires t == IfS(e, a, Some(b)) && Open(g) && GenS(t, g, ret).Some?
    ensures GenCond(e, g, ret) == Some((v, ty, g1))
    ensures k == GenTest(NewBlock(NewBlock(NewBlock(g1))), v, ty, |g1.blocks|, |g1.blocks| + 2).(cur := |g1.blocks|)
    ensures GenS(a, k, ret) == Some(g2) && k2 == BrUnlessTerminated(g2, |g1.blocks| + 1).(cur := |g1.blocks| + 2)
    ensures GenS(b, k2, ret) == Some(g3) && r == BrUnlessTerminated(g3, |g1.blocks| + 1).(cur := |g1.blocks| + 1)
            && GenS(t, g, ret) == Some(r)
    ensures Open(g1) && Keeps(g, g1) && OpenEmpty(k) && Cfg(g2) && Keeps(k, g2)
    ensures OpenEmpty(k2) && Cfg(g3) && Keeps(k2, g3) && OpenEmpty(r) && Keeps(g, r)
    decreases t, 0
  {
    hide Cfg, Keeps, GenCond, GenX, GenTest, Mid, BrUnlessTerminated;
    CondCfg(e, g, ret);
    v, ty, g1 := GenCond(e, g, ret).value.0, GenCond(e, g, ret).value.1, GenCond(e, g, ret).value.2;
    var trueBB, contBB, falseBB := |g1.blocks|, |g1.blocks| + 1, |g1.blocks| + 2;
    var h := NewBlock(NewBlock(NewBlock(g1)));
    ThreeNewBlocks(g1);
    CfgSizes(g1);
    GenTestCfg(g1, h, v, ty, trueBB, falseBB, {trueBB, contBB, falseBB});
    k := GenTest(h, v, ty, trueBB, falseBB).(cur := trueBB);
    assert {trueBB, contBB, falseBB} - {trueBB} == {contBB, falseBB};
    SCfg(a, k, ret);
    g2 := GenS(a, k, ret).value;
    SwitchTo(g1, k, g2, contBB, falseBB, {contBB, falseBB});
    k2 := BrUnlessTerminated(g2, contBB).(cur := falseBB);
    assert {contBB, falseBB} - {falseBB} == {contBB};
    SCfg(b, k2, ret);
    g3 := GenS(b, k2, ret).value;
    JoinAt(g1, k2, g3, contBB, {contBB});
    r := BrUnlessTerminated(g3, contBB).(cur := contBB);
    KeepsTrans(g, g1, r);
  }

  /** The end of the first branch: control goes to the join block, and the other branch comes next. */
  lemma SwitchTo(g0: Gen, k: Gen, g2: Gen, join: nat, next: nat, todo: set<nat>)
    requires Cfg(g0) && Mid(g0, k, todo) && Cfg(g2) && Keeps(k, g2) && k.cur != g0.cur
    requires join in todo && next in todo && join != next && join < |k.pred| && k.pred[join] == []
    ensures var r := BrUnlessTerminated(g2, join).(cur := next);
            Open(r) && Mid(g0, r, todo - {next}) && r.cur != g0.cur && join < |r.pred| && |r.pred[join]| <= 1
            && r.blocks[next] == []
  {
    MidStep(g0, k, todo, g2);
    MidBr(g0, g2, todo, join);
    MidSwitch(g0, BrUnlessTerminated(g2, join), todo, next);
  }

  /** A construct inside one that is under way. */
  lemma MidNest(g0: Gen, g1: Gen, k: Gen, todo: set<nat>)
    requires Cfg(g0) && Mid(g0, g1, {}) && g1.cur != g0.cur && Mid(g1, k, todo) && k.cur != g1.cur
    ensures Mid(g0, k, todo) && k.cur != g0.cur
  {
    forall b {:trigger k.blocks[b]} | 0 <= b < |g0.blocks|
      ensures g0.blocks[b] <= k.blocks[b] && (b != g0.cur ==> k.blocks[b] == g0.blocks[b])
    {
      assert g0.blocks[b] <= g1.blocks[b];
    }
    forall b {:trigger k.pred[b]} | 0 <= b < |g0.pred|
      ensures k.pred[b] == g0.pred[b]
    {
      assert g1.pred[b] == g0.pred[b];
    }
    forall b {:trigger k.blocks[b]} | 0 <= b < |k.blocks| && !Ends(k.blocks[b])
      ensures b in todo || b == k.cur || (b < |g0.blocks| && b != g0.cur)
    {
      if b < |g1.blocks| && b != g1.cur { assert k.blocks[b] == g1.blocks[b]; }
    }
    assert k.blocks[g0.cur] == g1.blocks[g0.cur];
  }

  /** Into the block that tests the condition of a loop. */
  lemma LoopEntry(g: Gen)
    requires Open(g)
    ensures var k := BrUnlessTerminated(NewBlock(g), |g.blocks|).(cur := |g.blocks|);
            Open(k) && Mid(g, k, {}) && k.cur != g.cur && k.scope == g.scope && k.next >= g.next
            && |g.blocks| < |k.pred| && k.pred[|g.blocks|] == [g.cur] && k.blocks[|g.blocks|] == []
  {
    var h, exprBB := NewBlock(g), |g.blocks|;
    NewBlockCfg(g);
    assert h.blocks[g.cur] == g.blocks[g.cur];
    BrCfg(h, exprBB);
    var r := CreateBr(h, exprBB);
    forall b {:trigger r.blocks[b]} | 0 <= b < |g.blocks|
      ensures g.blocks[b] <= r.blocks[b] && (b != g.cur ==> r.blocks[b] == g.blocks[b])
    {
      assert h.blocks[b] == g.blocks[b];
    }
    forall b {:trigger r.pred[b]} | 0 <= b < |g.pred| ensures r.pred[b] == g.pred[b] { assert h.pred[b] == g.pred[b]; }
    assert Mid(g, r, {exprBB});
    MidSwitch(g, r, {exprBB}, exprBB);
    assert {exprBB} - {exprBB} == {};
  }

  /** The end of a loop body: control goes back to the test, and the block after the loop comes next. */
  lemma LoopEnd(g: Gen, g1: Gen, k: Gen, g2: Gen, exprBB: nat, contBB: nat)
    requires Cfg(g) && Mid(g, g1, {}) && g1.cur != g.cur && Mid(g1, k, {contBB}) && k.cur != g1.cur && Cfg(g2)
             && Keeps(k, g2)
    requires |g.blocks| <= exprBB < |g1.pred| && |g1.pred[exprBB]| <= 1
    ensures var r := BrUnlessTerminated(g2, exprBB).(cur := contBB);
            Open(r) && Keeps(g, r) && r.blocks[contBB] == []
  {
    MidNest(g, g1, k, {contBB});
    assert k.pred[exprBB] == g1.pred[exprBB];
    MidStep(g, k, {contBB}, g2);
    MidBr(g, g2, {contBB}, exprBB);
    MidSwitch(g, BrUnlessTerminated(g2, exprBB), {contBB}, contBB);
    assert {contBB} - {contBB} == {};
    MidEnd(g, BrUnlessTerminated(g2, exprBB).(cur := contBB));
  }

  lemma {:induction false} WhileCfg(e: Expr, body: Stmt, g: Gen, ret: Option<Ty>, t: Stmt)
    returns (k1: Gen, v: Operand, ty: Ty, g1: Gen, k: Gen, g2: Gen, r: Gen)
    requires t == WhileS(e, body) && Open(g) && GenS(t, g, ret).Some?
    ensures k1 == BrUnlessTerminated(NewBlock(g), |g.blocks|).(cur := |g.blocks|)
            && GenCond(e, k1, ret) == Some((v, ty, g1))
    ensures k == GenTest(NewBlock(NewBlock(g1)), v, ty, |g1.blocks|, |g1.blocks| + 1).(cur := |g1.blocks|)
    ensures GenS(body, k, ret) == Some(g2) && r == BrUnlessTerminated(g2, |g.blocks|).(cur := |g1.blocks| + 1)
            && GenS(t, g, ret) == Some(r)
    ensures OpenEmpty(k1) && k1.scope == g.scope && k1.next >= g.next && Open(g1) && Keeps(k1, g1)
    ensures OpenEmpty(k) && Cfg(g2) && Keeps(k, g2) && OpenEmpty(r) && Keeps(g, r)
    decreases t, 0
  {
    hide Cfg, Keeps, GenCond, GenX, GenTest, Mid, BrUnlessTerminated;
    var exprBB := |g.blocks|;
    k1 := BrUnlessTerminated(NewBlock(g), exprBB).(cur := exprBB);
    LoopEntry(g);
    CondCfg(e, k1, ret);
    v, ty, g1 := GenCond(e, k1, ret).value.0, GenCond(e, k1, ret).value.1, GenCond(e, k1, ret).value.2;
    MidStep(g, k1, {}, g1);
    PredKept(k1, g1, exprBB);
    var trueBB, contBB := |g1.blocks|, |g1.blocks| + 1;
    var h := NewBlock(NewBlock(g1));
    TwoNewBlocks(g1);
    CfgSizes(g1);
    GenTestCfg(g1, h, v, ty, trueBB, contBB, {trueBB, contBB});
    k := GenTest(h, v, ty, trueBB, contBB).(cur := trueBB);
    assert {trueBB, contBB} - {trueBB} == {contBB};
    SCfg(body, k, ret);
    g2 := GenS(body, k, ret).value;
    r := BrUnlessTerminated(g2, exprBB).(cur := contBB);
    LoopEnd(g, g1, k, g2, exprBB, contBB);
  }

  lemma PredKept(g: Gen, g': Gen, b: nat)
    requires Keeps(g, g') && b < |g.pred| && Cfg(g')
    ensures b < |g'.pred| && g'.pred[b] == g.pred[b] && |g'.pred| == |g'.blocks|
  {}

  // ----- the whole function ------------------------------------------------------------------------------------------

  lemma ParamCfg(p: Param, k: nat, g: Gen)
    requires Open(g) && |g.scope| > 0
    ensures Open(GenParam(p, k, g)) && Since(g, GenParam(p, k, g))
  {
    var i := Alloca(g.next, ParamSlot(p));
    EmitCfg(g, i);
    EmitCfg(EmitNew(g, i), Store(Arg(k), Reg(g.next)));
    var h := Emit(EmitNew(g, i), Store(Arg(k), Reg(g.next)));
    KeepsTrans(g, EmitNew(g, i), h);
    CfgSame(h, h.(scope := GenParam(p, k, g).scope));
    assert GenParam(p, k, g).(scope := g.scope) == h;
  }

  lemma {:induction false} ParamsCfg(ps: seq<Param>, k: nat, g: Gen)
    requires Open(g) && |g.scope| > 0
    ensures Open(GenParams(ps, k, g)) && Since(g, GenParams(ps, k, g))
    decreases ps
  {
    if ps == [] {
      SinceSelf(g);
    } else {
      ParamCfg(ps[0], k, g);
      ParamsCfg(ps[1..], k + 1, GenParam(ps[0], k, g));
      ScopeChain(g, GenParam(ps[0], k, g), GenParams(ps, k, g));
    }
  }

  function GraphOf(g: Gen): G.Graph {
    G.Graph(g.succ, g.pred)
  }

  /** The graph of a generated function is well formed: every block ends with its only terminator,
      predecessor and successor lists mirror the branches, nothing branches to the entry, no block has
      more than two predecessors, and the scope is what it was before the function. */
  lemma FunCfg(fd: FunDecl, globals: map<string, Binding>, base: nat)
    requires GenFun(fd, globals, base).Some?
    ensures var g := GenFun(fd, globals, base).value;
            && Cfg(g) && (forall b :: 0 <= b < |g.blocks| ==> Ends(g.blocks[b])) && g.pred[0] == []
            && G.WellFormed(GraphOf(g)) && g.scope == [globals]
  {
    hide Open, Keeps, GenDecls, GenParams, GenList, Cfg;
    var g0 := GenStart(globals, base);
    StartCfg(globals, base);
    ParamsCfg(fd.params, 0, g0);
    var g1 := GenParams(fd.params, 0, g0);
    DeclsCfg(fd.decls, g1);
    var g2 := GenDecls(fd.decls, g1);
    ScopeChain(g0, g1, g2);
    ListCfg(fd.stmts, g2, fd.ret);
    var g3 := GenList(fd.stmts, g2, fd.ret).value;
    ScopeChain(g0, g2, g3);
    var g4 := if Terminated(g3) then g3 else Emit(g3, DefaultRet(fd.ret));
    LastRet(g3, DefaultRet(fd.ret));
    ScopeChain(g0, g3, g4);
    FunEnds(g0, g4, globals);
  }

  /** From the start of the function, scopes left aside. */
  ghost predicate Since(g0: Gen, g: Gen) {
    && Cfg(g) && Keeps(g0, g.(scope := g0.scope)) && |g.scope| == |g0.scope| > 0
    && g.scope[..|g.scope| - 1] == g0.scope[..|g.scope| - 1]
  }

  lemma ScopeChain(g0: Gen, g: Gen, g': Gen)
    requires Cfg(g0) && Since(g0, g) && Since(g, g')
    ensures Since(g0, g')
  {
    CfgSame(g, g.(scope := g0.scope));
    CfgSame(g', g'.(scope := g0.scope));
    ScopeKept(g, g', g0.scope);
    KeepsTrans(g0, g.(scope := g0.scope), g'.(scope := g0.scope));
  }

  lemma LastRet(g: Gen, i: Instr)
    requires Cfg(g) && i.Ret? && |g.scope| > 0
    ensures var h := if Terminated(g) then g else Emit(g, i); Since(g, h) && Terminated(h)
  {
    if Terminated(g) {
      KeepsSelf(g);
      assert g.(scope := g.scope) == g;
    } else {
      RetCfg(g, i);
      assert Emit(g, i).(scope := g.scope) == Emit(g, i);
    }
  }

  lemma FunEnds(g0: Gen, g: Gen, globals: map<string, Binding>)
    requires Cfg(g0) && |g0.blocks| == 1 && g0.cur == 0 && g0.pred[0] == [] && g0.scope == [globals, map[]]
    requires Since(g0, g) && Terminated(g)
    ensures var h := PopScope(g);
            && Cfg(h) && (forall b :: 0 <= b < |h.blocks| ==> Ends(h.blocks[b])) && h.pred[0] == []
            && G.WellFormed(GraphOf(h)) && h.scope == [globals]
  {
    var k, h := g.(scope := g0.scope), PopScope(g);
    assert h.scope == [globals];
    CfgSame(g, g.(scope := h.scope));
    assert k.pred[0] == g0.pred[0];
    forall b | 0 <= b < |h.blocks| ensures Ends(h.blocks[b]) { assert k.blocks[b] == h.blocks[b]; }
    CfgIsWellFormed(h);
  }

  lemma CfgIsWellFormed(g: Gen)
    requires Cfg(g)
    ensures G.WellFormed(GraphOf(g))
  {
    var q := GraphOf(g);
    forall a, i | 0 <= a < |q.succ| && 0 <= i < |q.succ[a]| ensures q.succ[a][i] < |q.succ| {
      assert BlockOk(g, a) && q.succ[a][i] in g.succ[a];
    }
    forall b, i | 0 <= b < |q.pred| && 0 <= i < |q.pred[b]| ensures q.pred[b][i] < |q.succ| {
      assert PredOk(g, b) && q.pred[b][i] in g.pred[b];
    }
    forall a, b {:trigger b in q.succ[a]} {:trigger a in q.pred[b]} | 0 <= a < |q.succ| && 0 <= b < |q.succ|
      ensures b in q.succ[a] <==> a in q.pred[b]
    {
      assert Mirror(g, a, b);
    }
  }

  lemma StartCfg(globals: map<string, Binding>, base: nat)
    ensures Open(GenStart(globals, base)) && |GenStart(globals, base).scope| == 2
  {
    var g := GenStart(globals, base);
    assert BlockOk(g, 0) && PredOk(g, 0) && Mirror(g, 0, 0);
  }
}

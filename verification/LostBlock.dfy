/** A source function whose graph has an unreachable block that branches to a reachable one: the walk
    that builds dominance frontiers does not end on it. */
module LostBlock {
  import opened IR
  import opened Cminus
  import opened Codegen
  import opened CodegenCfg
  import G = Graph
  import D = DomTree

  const Arm := ReturnS(Some(Num(0)))

  /** `while (1) { if (1) return 0; else return 0; }` */
  const Body := IfS(Num(1), Arm, Some(Arm))
  const Loop := FunDecl(Some(IntT), [], [], [WhileS(Num(1), Body)])

  const Test := Cmp(0, NE, ConstInt(1), ConstInt(0))
  const Test2 := Cmp(1, NE, ConstInt(1), ConstInt(0))
  const RetZero := Ret(Some(ConstInt(0)))

  /** What the generator has made before the body of the loop, and after it. */
  function AtBody(base: Scope): Gen {
    Gen([[Br(1)], [Test, CondBr(Reg(0), 2, 3)], [], []], [[1], [3, 2], [], []], [[], [0], [1], [1]], 2, 1, base)
  }

  function AfterBody(base: Scope): Gen {
    Gen([[Br(1)], [Test, CondBr(Reg(0), 2, 3)], [Test2, CondBr(Reg(1), 4, 6)], [], [RetZero], [], [RetZero]],
        [[1], [3, 2], [6, 4], [], [], [], []], [[], [0], [1], [1], [2], [], [2]], 5, 2, base)
  }

  lemma TestIs(g: Gen, v: Operand, t: nat, f: nat)
    requires g.cur < |g.blocks| == |g.succ| == |g.pred| && t < |g.blocks| && f < |g.blocks| && t != f
    ensures var r := GenTest(g, v, IntT, t, f);
            && r.blocks == g.blocks[g.cur := g.blocks[g.cur] + [Cmp(g.next, NE, v, ConstInt(0)),
                                                                CondBr(Reg(g.next), t, f)]]
            && r.succ == g.succ[g.cur := g.succ[g.cur] + [f, t]]
            && r.pred == g.pred[t := g.pred[t] + [g.cur]][f := g.pred[f] + [g.cur]]
            && r.cur == g.cur && r.next == g.next + 1 && r.scope == g.scope
  {
    assert g.blocks[g.cur] + [Cmp(g.next, NE, v, ConstInt(0))] + [CondBr(Reg(g.next), t, f)]
        == g.blocks[g.cur] + [Cmp(g.next, NE, v, ConstInt(0)), CondBr(Reg(g.next), t, f)];
    assert g.succ[g.cur] + [f] + [t] == g.succ[g.cur] + [f, t];
  }

  lemma BrIs(g: Gen, t: nat)
    requires g.cur < |g.blocks| == |g.succ| == |g.pred| && t < |g.blocks|
    ensures var r := CreateBr(g, t);
            && r.blocks == g.blocks[g.cur := g.blocks[g.cur] + [Br(t)]]
            && r.succ == g.succ[g.cur := g.succ[g.cur] + [t]]
            && r.pred == g.pred[t := g.pred[t] + [g.cur]] && r.cur == g.cur && r.next == g.next && r.scope == g.scope
  {}

  function AtArm(base: Scope): Gen {
    var g := AtBody(base);
    Gen(g.blocks[2 := [Test2, CondBr(Reg(1), 4, 6)]] + [[], [], []], [[1], [3, 2], [6, 4], [], [], [], []],
        [[], [0], [1], [1], [2], [], [2]], 4, 2, base)
  }

  lemma TestMakes(base: Scope)
    ensures GenTest(NewBlock(NewBlock(NewBlock(AtBody(base)))), ConstInt(1), IntT, 4, 6).(cur := 4) == AtArm(base)
  {
    hide GenTest;
    var g := AtBody(base);
    var h := NewBlock(NewBlock(NewBlock(g)));
    assert h.blocks == g.blocks + [[], [], []] && h.succ == g.succ + [[], [], []] && h.pred == g.pred + [[], [], []];
    TestIs(h, ConstInt(1), 4, 6);
    var t := GenTest(h, ConstInt(1), IntT, 4, 6).(cur := 4);
    assert [] + [Test2, CondBr(Reg(1), 4, 6)] == [Test2, CondBr(Reg(1), 4, 6)];
    assert t.blocks == g.blocks[2 := [Test2, CondBr(Reg(1), 4, 6)]] + [[], [], []];
    assert h.succ[2] + [6, 4] == [6, 4] && h.pred[4] + [2] == [2] && h.pred[6] + [2] == [2];
    assert t.succ == AtArm(base).succ;
    assert t.pred == AtArm(base).pred;
  }

  lemma BodyMakes(base: Scope)
    ensures GenS(Body, AtBody(base), Some(IntT)) == Some(AfterBody(base))
  {
    hide GenTest;
    var t := AtArm(base);
    TestMakes(base);
    var a := Emit(t, RetZero);
    ArmMakes(t);
    var b := a.(cur := 6);
    ArmMakes(b);
    assert Emit(b, RetZero).blocks == AfterBody(base).blocks;
    assert Emit(b, RetZero).(cur := 5) == AfterBody(base);
  }

  lemma ArmMakes(g: Gen)
    requires g.cur < |g.blocks| && g.blocks[g.cur] == []
    ensures GenS(Arm, g, Some(IntT)) == Some(Emit(g, RetZero)) && Terminated(Emit(g, RetZero))
            && Emit(g, RetZero).blocks == g.blocks[g.cur := [RetZero]]
  {
    assert [] + [RetZero] == [RetZero];
  }

  lemma HeadMakes(g: Gen)
    requires g == Gen([[]], [[]], [[]], 0, 0, g.scope)
    ensures var k := BrUnlessTerminated(NewBlock(g), 1).(cur := 1);
            GenTest(NewBlock(NewBlock(k)), ConstInt(1), IntT, 2, 3).(cur := 2) == AtBody(g.scope) && |k.blocks| == 2
  {
    hide GenTest, CreateBr;
    var h := NewBlock(g);
    BrIs(h, 1);
    var k := CreateBr(h, 1).(cur := 1);
    assert h.blocks == [[], []] && h.succ == [[], []] && h.pred == [[], []];
    assert h.blocks[0] + [Br(1)] == [Br(1)] && h.succ[0] + [1] == [1] && h.pred[1] + [0] == [0];
    assert k.blocks == [[Br(1)], []] && k.succ == [[1], []] && k.pred == [[], [0]];
    var n := NewBlock(NewBlock(k));
    assert n.blocks == [[Br(1)], [], [], []] && n.succ == [[1], [], [], []] && n.pred == [[], [0], [], []];
    TestIs(n, ConstInt(1), 2, 3);
    var t := GenTest(n, ConstInt(1), IntT, 2, 3).(cur := 2);
    assert [] + [Test, CondBr(Reg(0), 2, 3)] == [Test, CondBr(Reg(0), 2, 3)];
    assert n.succ[1] + [3, 2] == [3, 2] && n.pred[2] + [1] == [1] && n.pred[3] + [1] == [1]
           && n.blocks[1] + [Test, CondBr(Reg(0), 2, 3)] == [Test, CondBr(Reg(0), 2, 3)];
    assert t.blocks == AtBody(g.scope).blocks && t.succ == AtBody(g.scope).succ && t.pred == AtBody(g.scope).pred;
  }

  lemma LoopMakes()
    ensures var g := GenFun(Loop, map[], 0);
            g.Some? && g.value.succ == [[1], [3, 2], [6, 4], [], [], [1], []]
            && g.value.pred == [[], [0, 5], [1], [1], [2], [], [2]]
  {
    hide NewBlock, GenTest, CreateBr, GenS;
    var g := GenStart(map[], 0);
    var t := WhileS(Num(1), Body);
    var z := BrUnlessTerminated(AfterBody(g.scope), 1).(cur := 3);
    WhileMakes(g);
    BackEdge(g.scope);
    assert GenList([t], g, Some(IntT)) == Some(z) by { assert [t][1..] == [] && GenList([], z, Some(IntT)) == Some(z); }
    assert Loop.stmts == [t] && GenDecls([], g) == g && GenParams([], 0, g) == g;
  }

  lemma WhileMakes(g: Gen)
    requires g == Gen([[]], [[]], [[]], 0, 0, g.scope)
    ensures GenS(WhileS(Num(1), Body), g, Some(IntT)) == Some(BrUnlessTerminated(AfterBody(g.scope), 1).(cur := 3))
  {
    hide NewBlock, GenTest, CreateBr, BrUnlessTerminated;
    HeadMakes(g);
    BodyMakes(g.scope);
    var k := BrUnlessTerminated(NewBlock(g), 1).(cur := 1);
    assert GenCond(Num(1), k, Some(IntT)) == Some((ConstInt(1), IntT, k));
  }

  lemma BackEdge(base: Scope)
    ensures var z := BrUnlessTerminated(AfterBody(base), 1);
            !Terminated(z.(cur := 3)) && z.succ == [[1], [3, 2], [6, 4], [], [], [1], []]
            && z.pred == [[], [0, 5], [1], [1], [2], [], [2]]
  {
    var g := AfterBody(base);
    BrIs(g, 1);
    assert !Terminated(g);
    assert g.pred[1] + [5] == [0, 5] && g.succ[5] + [1] == [1];
  }

  /** Block 5, after the if, is unreachable and branches to block 1, the test of the loop: from there
      the walk for dominance frontiers never gets to the immediate dominator of block 1. */
  lemma RunnerLost(id: map<int, nat>, l: D.Links)
    requires GenFun(Loop, map[], 0).Some?
    requires var g := GraphOf(GenFun(Loop, map[], 0).value); G.WellFormed(g) && D.IsDomTree(g, id, l)
    ensures GenFun(Loop, map[], 0).value.pred == [[], [0, 5], [1], [1], [2], [], [2]]
    ensures forall k :: D.Climb(l, 5, k) != D.IdomOf(l, 1)
  {
    LoopMakes();
    var g := GraphOf(GenFun(Loop, map[], 0).value);
    assert g.pred[1] == [0, 5] && g.pred[5] == [];
    assert G.Edge(g, 5, 1) && G.Edge(g, 0, 1);
    assert G.PathTo(g, [0], 0);
    G.ExtendPath(g, [0], 0, 1);
    forall p ensures !G.PathTo(g, p, 5) { if |p| > 1 { assert !G.Edge(g, p[|p| - 2], 5); } }
    assert !G.Reachable(g, 5) && G.Reachable(g, 1);
    D.RunnerStops(g, id, l, 5, 1);
  }
}

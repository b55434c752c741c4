/** Code for expressions: the value of the expression ends up in the operand that code generation
    returns, and every variable has the value it has in the source. */
module CodegenExpr {
  import opened IR
  import opened Cminus
  import opened Codegen
  import opened CodegenCfg
  import opened CodegenSim

  /** Ready to generate and to run: `g` has an open block, and variables correspond. */
  ghost predicate Start(env: Env, g: Gen, ss: Src, s: State) {
    Open(g) && Rel(env, g.scope, ss, s) && ScopeOk(g.scope, g.next)
  }

  /** What running the code from `g` to `g'` has to do with the result of the source. */
  ghost predicate XSim(env: Env, f: seq<seq<Instr>>, ret: Option<Ty>, g: Gen, g': Gen, o: Operand, s: State,
                       r: ExprResult, s': State, k: nat) {
    match r
    case Val(v, ss') =>
      && Moves(env, f, Here(g, s), Here(g', s'), k) && Rel(env, g.scope, ss', s')
      && Eval(env, s'.regs, o) == Some(v) && Below(o, g'.next) && RegsKept(g.next, s, s')
    case Exit(w) => Finishes(env, f, Here(g, s), DefaultResult(ret), w, k)
    case Bad => true
  }

  lemma ScopeOkMore(scope: Scope, n: nat, n': nat)
    requires ScopeOk(scope, n) && n <= n'
    ensures ScopeOk(scope, n')
  {}

  /** What is known after a subexpression. */
  lemma Between(env: Env, f: seq<seq<Instr>>, ret: Option<Ty>, g: Gen, g1: Gen, o: Operand, ss: Src, s: State,
                v: Value, ss1: Src, s1: State, k: nat)
    requires Start(env, g, ss, s) && Open(g1) && Keeps(g, g1) && XSim(env, f, ret, g, g1, o, s, Val(v, ss1), s1, k)
    ensures Start(env, g1, ss1, s1) && g.next <= g1.next && g1.scope == g.scope && g1.cur < |g1.blocks|
  {
    ScopeOkMore(g.scope, g.next, g1.next);
  }

  /** A subexpression that exits makes the whole exit. */
  lemma ExitLater(env: Env, f: seq<seq<Instr>>, ret: Option<Ty>, g: Gen, g1: Gen, g2: Gen, o: Operand, o2: Operand,
                  s: State, v: Value, ss1: Src, s1: State, k: nat,
                  w: World, s2: State, k2: nat)
    requires XSim(env, f, ret, g, g1, o, s, Val(v, ss1), s1, k) && XSim(env, f, ret, g1, g2, o2, s1, Exit(w), s2, k2)
    ensures XSim(env, f, ret, g, g2, o2, s, Exit(w), s2, k + k2)
  {
    MovesFinish(env, f, Here(g, s), Here(g1, s1), DefaultResult(ret), w, k, k2);
  }

  /** Two pieces of code, one after the other. */
  lemma Then(env: Env, f: seq<seq<Instr>>, ret: Option<Ty>, g: Gen, g1: Gen, g2: Gen, o: Operand, o2: Operand,
             s: State, v: Value, ss1: Src, s1: State, k: nat,
             v2: Value, ss2: Src, s2: State, k2: nat)
    requires Keeps(g, g1) && XSim(env, f, ret, g, g1, o, s, Val(v, ss1), s1, k)
             && XSim(env, f, ret, g1, g2, o2, s1, Val(v2, ss2), s2, k2)
    ensures XSim(env, f, ret, g, g2, o2, s, Val(v2, ss2), s2, k + k2)
    ensures Eval(env, s2.regs, o) == Some(v)
  {
    MovesTrans(env, f, Here(g, s), Here(g1, s1), Here(g2, s2), k, k2);
    KeptTransRegs(g.next, g1.next, s, s1, s2);
    OperandKept(env, o, g1.next, s1, s2);
  }

  lemma ExtNew(g: Gen, i: Instr, f: seq<seq<Instr>>)
    requires Ext(EmitNew(g, i), f)
    ensures Ext(Emit(g, i), f)
  {
    assert EmitNew(g, i).blocks == Emit(g, i).blocks;
  }

  /** An instruction that sets the next register. */
  lemma ThenSet(env: Env, f: seq<seq<Instr>>, ret: Option<Ty>, g: Gen, i: Instr, ss: Src, s: State, v: Value, w: World)
    requires Start(env, g, ss, s) && g.cur < |g.blocks| && Ext(EmitNew(g, i), f) && !IsTerminator(i)
    requires Step(env, i, s) == Some(State(s.regs[g.next := v], s.slots, w))
    ensures XSim(env, f, ret, g, EmitNew(g, i), Reg(g.next), s, Val(v, ss.(world := w)),
                 State(s.regs[g.next := v], s.slots, w), 0)
  {
    hide Step, Open, ScopeOk, Rel, Ext, Moves;
    ExtNew(g, i, f);
    EmitMoves(env, g, i, f, s, State(s.regs[g.next := v], s.slots, w));
    RelSet(env, g.scope, g.next, ss, s, g.next, v, w);
  }

  // ----- single instructions ----------------------------------------------------------------------------------

  lemma LoadSlot(env: Env, s: State, d: nat, r: nat, v: Value)
    requires r in s.regs && s.regs[r].SlotPtr? && s.regs[r].r == r && SlotIs(s, r, Some(v))
    ensures Step(env, Load(d, Reg(r)), s) == Some(State(s.regs[d := v], s.slots, s.world))
  {
    EvalOne(env, s.regs, Reg(r));
  }

  lemma LoadMem(env: Env, s: State, d: nat, p: Operand, g: Region, k: int)
    requires Eval(env, s.regs, p) == Some(Ptr(g, k)) && (g, k) in s.world.mem
    ensures Step(env, Load(d, p), s) == Some(State(s.regs[d := s.world.mem[(g, k)]], s.slots, s.world))
  {
    EvalOne(env, s.regs, p);
  }

  lemma StoreMem(env: Env, s: State, v: Operand, x: Value, p: Operand, g: Region, k: int)
    requires Eval(env, s.regs, p) == Some(Ptr(g, k)) && Eval(env, s.regs, v) == Some(x)
    ensures Step(env, Store(v, p), s) == Some(s.(world := s.world.(mem := s.world.mem[(g, k) := x])))
  {
    EvalTwo(env, s.regs, v, p);
  }

  lemma StoreSlot(env: Env, s: State, v: Operand, x: Value, r: nat)
    requires r in s.regs && s.regs[r].SlotPtr? && s.regs[r].r == r && SlotHolds(s.regs[r].ty, x)
             && Eval(env, s.regs, v) == Some(x)
    ensures Step(env, Store(v, Reg(r)), s) == Some(s.(slots := s.slots[r := x]))
  {
    EvalTwo(env, s.regs, v, Reg(r));
  }

  lemma GepOne(env: Env, s: State, d: nat, b: Operand, x: Operand, g: Region, o: int, n: int)
    requires Eval(env, s.regs, b) == Some(Ptr(g, o)) && Eval(env, s.regs, x) == Some(Int(n))
    ensures Step(env, Gep(d, b, [x]), s) == Some(State(s.regs[d := Ptr(g, o + n)], s.slots, s.world))
  {
    EvalTwo(env, s.regs, b, x);
    assert [b] + [x] == [b, x];
  }

  lemma GepZero(env: Env, s: State, d: nat, b: Operand, x: Operand, g: Region, n: int)
    requires Eval(env, s.regs, b) == Some(Ptr(g, 0)) && Eval(env, s.regs, x) == Some(Int(n))
    ensures Step(env, Gep(d, b, [ConstInt(0), x]), s) == Some(State(s.regs[d := Ptr(g, n)], s.slots, s.world))
  {
    EvalTwo(env, s.regs, ConstInt(0), x);
    var os := [b] + [ConstInt(0), x];
    assert os[0] == b && os[1..] == [ConstInt(0), x];
    assert EvalAll(env, s.regs, os) == Some([Ptr(g, 0)] + [Int(0), Int(n)]);
    assert [Ptr(g, 0)] + [Int(0), Int(n)] == [Ptr(g, 0), Int(0), Int(n)];
  }

  lemma BinStep(env: Env, s: State, d: nat, op: BinOp, a: Operand, b: Operand, v: Value, w: Value, x: Value)
    requires Eval(env, s.regs, a) == Some(v) && Eval(env, s.regs, b) == Some(w) && BinSem(op, v, w) == Some(x)
    ensures Step(env, Bin(d, op, a, b), s) == Some(State(s.regs[d := x], s.slots, s.world))
  {
    hide BinSem;
    EvalTwo(env, s.regs, a, b);
  }

  lemma CmpStep(env: Env, s: State, d: nat, op: CmpOp, a: Operand, b: Operand, v: Value, w: Value, x: Value)
    requires Eval(env, s.regs, a) == Some(v) && Eval(env, s.regs, b) == Some(w) && CmpSem(op, v, w) == Some(x)
    ensures Step(env, Cmp(d, op, a, b), s) == Some(State(s.regs[d := x], s.slots, s.world))
  {
    hide CmpSem;
    EvalTwo(env, s.regs, a, b);
  }

  lemma ConvStep(env: Env, s: State, d: nat, op: ConvOp, a: Operand, v: Value, x: Value)
    requires Eval(env, s.regs, a) == Some(v) && ConvSem(op, v) == Some(x)
    ensures Step(env, Conv(d, op, a), s) == Some(State(s.regs[d := x], s.slots, s.world))
  {
    hide ConvSem;
    EvalOne(env, s.regs, a);
  }

  lemma CallStep(env: Env, s: State, d: nat, fn: nat, os: seq<Operand>, vs: seq<Value>, v: Value, w: World)
    requires EvalAll(env, s.regs, os) == Some(vs) && env.call(fn, vs, s.world) == Some((v, w))
    ensures Step(env, Call(d, fn, os), s) == Some(State(s.regs[d := v], s.slots, w))
  {}

  // ----- conversions ----------------------------------------------------------------------------------------------

  /** The value has the type that code generation expects. */
  predicate HasTy(t: ExprTy, v: Value) {
    match t
    case Scalar(n) => HasTag(n, v)
    case PtrTo(_) => v.Ptr?
    case NoValue => true
  }

  /** A number as a number of another type. */
  lemma SimConv(env: Env, f: seq<seq<Instr>>, ret: Option<Ty>, g: Gen, v: Operand, from: Ty, to: Ty, ss: Src,
                s: State, x: Value, y: Value) returns (s': State)
    requires Start(env, g, ss, s) && Ext(GenConv(v, from, to, g).1, f) && Eval(env, s.regs, v) == Some(x)
             && Below(v, g.next)
    requires HasTag(from, x) && ConvertTo(to, x) == Some(y)
    ensures var (v', g') := GenConv(v, from, to, g); XSim(env, f, ret, g, g', v', s, Val(y, ss), s', 0)
    ensures HasTag(to, y)
  {
    hide Moves, ScopeOk, Ext, Open, Rel, Step, Emit;
    if from == to {
      s' := s;
      MovesSelf(env, f, Here(g, s));
    } else {
      var op := if from.IntT? then SiToFp else FpToSi;
      RelWorldIs(env, g.scope, ss, s);
      OpenCur(g);
      ConvStep(env, s, g.next, op, v, x, y);
      ThenSet(env, f, ret, g, Conv(g.next, op, v), ss, s, y, s.world);
      s' := State(s.regs[g.next := y], s.slots, s.world);
    }
  }

  lemma ConvKeeps(v: Operand, from: Ty, to: Ty, g: Gen)
    requires Open(g)
    ensures var g' := GenConv(v, from, to, g).1; Open(g') && Keeps(g, g') && g'.cur == g.cur && g'.cur < |g'.blocks|
                                                 && g'.scope == g.scope
  {
    SelfKept(g);
    ConvCfg(g, v, from, to, g);
  }

  /** A conversion after other code. */
  lemma ThenConv(env: Env, f: seq<seq<Instr>>, ret: Option<Ty>, g: Gen, g1: Gen, v: Operand, from: Ty, to: Ty,
                 ss: Src, s: State, x: Value, ss1: Src, s1: State, k1: nat, y: Value)
    returns (s': State)
    requires Start(env, g, ss, s) && Open(g1) && Keeps(g, g1) && XSim(env, f, ret, g, g1, v, s, Val(x, ss1), s1, k1)
    requires Ext(GenConv(v, from, to, g1).1, f) && HasTag(from, x) && ConvertTo(to, x) == Some(y)
    ensures var (v', g') := GenConv(v, from, to, g1);
            && XSim(env, f, ret, g, g', v', s, Val(y, ss1), s', k1) && Start(env, g', ss1, s') && Keeps(g, g')
            && Open(g')
    ensures RegsKept(g1.next, s1, s') && HasTag(to, y)
  {
    hide Moves, ScopeOk, Ext, Open, Rel, RegsKept, Keeps, GenConv;
    Between(env, f, ret, g, g1, v, ss, s, x, ss1, s1, k1);
    ConvKeeps(v, from, to, g1);
    var (v', g') := GenConv(v, from, to, g1);
    s' := SimConv(env, f, ret, g1, v, from, to, ss1, s1, x, y);
    Between(env, f, ret, g1, g', v', ss1, s1, y, ss1, s', 0);
    Then(env, f, ret, g, g1, g', v, v', s, x, ss1, s1, k1, y, ss1, s', 0);
    KeptTrans2(env, g, ss, s, g1, g');
  }

  lemma KeptTrans2(env: Env, g: Gen, ss: Src, s: State, g1: Gen, g2: Gen)
    requires Start(env, g, ss, s) && Open(g1) && Open(g2) && Keeps(g, g1) && Keeps(g1, g2)
    ensures Keeps(g, g2)
  {
    KeptTrans(g, g1, g2);
  }

  // ----- the test of an index ------------------------------------------------------------------------------------

  lemma CheckBlocks(g: Gen, v: Operand, fn: nat, ret: Option<Ty>)
    requires Open(g)
    ensures var r, c := GenCheck(g, v, fn, ret), g.next;
            && r.blocks == g.blocks[g.cur := g.blocks[g.cur] + [Cmp(c, LT, v, ConstInt(0)),
                                                                CondBr(Reg(c), |g.blocks|, |g.blocks| + 1)]]
                           + [[Call(c + 1, fn, []), DefaultRet(ret)]] + [[]]
            && r.cur == |g.blocks| + 1 && r.next == c + 2 && r.scope == g.scope
  {
    var c, a := g.next, g.blocks[g.cur];
    assert a + [Cmp(c, LT, v, ConstInt(0))] + [CondBr(Reg(c), |g.blocks|, |g.blocks| + 1)]
        == a + [Cmp(c, LT, v, ConstInt(0)), CondBr(Reg(c), |g.blocks|, |g.blocks| + 1)];
    assert [] + [Call(c + 1, fn, [])] + [DefaultRet(ret)] == [Call(c + 1, fn, []), DefaultRet(ret)];
  }

  /** The two instructions at the end of the current block are found in the finished function. */
  lemma TwoEmitted(body: seq<Instr>, a: Instr, b: Instr, done: seq<Instr>)
    requires body + [a, b] <= done
    ensures |body| + 1 < |done| && done[|body|] == a && done[|body| + 1] == b && body <= done
  {
    assert (body + [a, b])[|body|] == a && (body + [a, b])[|body| + 1] == b;
  }

  lemma TestMoves(env: Env, f: seq<seq<Instr>>, b: nat, i: nat, s: State, c: nat, op: CmpOp, o: Operand, z: Operand,
                  v: Value, w: Value, q: bool, t: nat, e: nat)
    requires b < |f| && i + 1 < |f[b]| && f[b][i] == Cmp(c, op, o, z) && f[b][i + 1] == CondBr(Reg(c), t, e)
    requires Eval(env, s.regs, o) == Some(v) && Eval(env, s.regs, z) == Some(w) && CmpSem(op, v, w) == Some(Bool(q))
    ensures Moves(env, f, Point(b, i, s), Point(if q then t else e, 0, s.(regs := s.regs[c := Bool(q)])), 1)
  {
    hide CmpSem, Moves, Step;
    var s1 := s.(regs := s.regs[c := Bool(q)]);
    CmpStep(env, s, c, op, o, z, v, w, Bool(q));
    StepMoves(env, f, Point(b, i, s), s1);
    GotoMoves(env, f, Point(b, i + 1, s1), if q then t else e);
    MovesTrans(env, f, Point(b, i, s), Point(b, i + 1, s1), Point(if q then t else e, 0, s1), 0, 1);
  }

  lemma CheckExt(g: Gen, v: Operand, fn: nat, ret: Option<Ty>, f: seq<seq<Instr>>)
    requires Open(g) && Ext(GenCheck(g, v, fn, ret), f)
    ensures var n, i := |g.blocks|, |g.blocks[g.cur]|;
            && n + 1 < |f| && g.cur < |f| && i + 1 < |f[g.cur]|
            && f[g.cur][i] == Cmp(g.next, LT, v, ConstInt(0)) && f[g.cur][i + 1] == CondBr(Reg(g.next), n, n + 1)
            && |f[n]| >= 2 && f[n][0] == Call(g.next + 1, fn, []) && f[n][1] == DefaultRet(ret)
  {
    CheckBlocks(g, v, fn, ret);
    var r, n := GenCheck(g, v, fn, ret), |g.blocks|;
    assert r.blocks[g.cur] <= f[g.cur] && r.blocks[n] <= f[n];
    TwoEmitted(g.blocks[g.cur], Cmp(g.next, LT, v, ConstInt(0)), CondBr(Reg(g.next), n, n + 1), f[g.cur]);
    TwoEmitted([], Call(g.next + 1, fn, []), DefaultRet(ret), f[n]);
  }

  /** A test that passes. */
  lemma CheckPasses(env: Env, f: seq<seq<Instr>>, g: Gen, v: Operand, fn: nat, ret: Option<Ty>, ss: Src, s: State,
                    n: nat)
    requires Start(env, g, ss, s) && Ext(GenCheck(g, v, fn, ret), f) && Eval(env, s.regs, v) == Some(Int(n))
             && Below(v, g.next)
    ensures XSim(env, f, ret, g, GenCheck(g, v, fn, ret), v, s, Val(Int(n), ss), s.(regs := s.regs[g.next := Int(0)]),
                 1)
  {
    hide Moves, Rel, ScopeOk, Ext, GenCheck, Open;
    var s1 := s.(regs := s.regs[g.next := Int(0)]);
    OpenCur(g);
    CheckBlocks(g, v, fn, ret);
    CheckExt(g, v, fn, ret, f);
    TestMoves(env, f, g.cur, |g.blocks[g.cur]|, s, g.next, LT, v, ConstInt(0), Int(n), Int(0), n < 0, |g.blocks|,
              |g.blocks| + 1);
    RelWorldIs(env, g.scope, ss, s);
    RelSet(env, g.scope, g.next, ss, s, g.next, Int(0), s.world);
    OperandKept(env, v, g.next, s, s1);
  }

  lemma OpenCur(g: Gen)
    requires Open(g)
    ensures g.cur < |g.blocks| == |g.pred|
  {}

  lemma RelWorldIs(env: Env, scope: Scope, ss: Src, s: State)
    requires Rel(env, scope, ss, s)
    ensures ss.world == s.world && ss.(world := s.world) == ss
  {}

  /** A test that fails: the handler is called, and when it returns the function does. */
  lemma CheckFails(env: Env, f: seq<seq<Instr>>, g: Gen, v: Operand, fn: nat, ret: Option<Ty>, s: State, n: int,
                   x: Value, w: World)
    requires Open(g) && Ext(GenCheck(g, v, fn, ret), f) && Eval(env, s.regs, v) == Some(Int(n)) && n < 0
    requires env.call(fn, [], s.world) == Some((x, w))
    ensures Finishes(env, f, Here(g, s), DefaultResult(ret), w, 1)
  {
    hide Moves, Finishes, Ext, GenCheck, Open;
    var s1 := s.(regs := s.regs[g.next := Int(1)]);
    CheckExt(g, v, fn, ret, f);
    OpenCur(g);
    TestMoves(env, f, g.cur, |g.blocks[g.cur]|, s, g.next, LT, v, ConstInt(0), Int(n), Int(0), n < 0, |g.blocks|,
              |g.blocks| + 1);
    var p, s2 := Point(|g.blocks|, 0, s1), State(s1.regs[g.next + 1 := x], s1.slots, w);
    CallStep(env, s1, g.next + 1, fn, [], [], x, w);
    StepMoves(env, f, p, s2);
    ReturnFinishes(env, f, Point(|g.blocks|, 1, s2), DefaultResult(ret), w);
    MovesFinish(env, f, p, Point(|g.blocks|, 1, s2), DefaultResult(ret), w, 0, 0);
    MovesFinish(env, f, Here(g, s), p, DefaultResult(ret), w, 1, 0);
  }

  // ----- elements ---------------------------------------------------------------------------------------------------

  /** The address of an element, once the index has been tested. */
  lemma SimElement(env: Env, f: seq<seq<Instr>>, ret: Option<Ty>, g: Gen, id: string, v: Operand, ss: Src, s: State,
                   n: nat, r: Region, k: int) returns (s': State)
    requires Start(env, g, ss, s) && Find(g.scope, id).Some? && GenElement(Find(g.scope, id).value, v, g).Some?
    requires Ext(GenElement(Find(g.scope, id).value, v, g).value.1, f) && Eval(env, s.regs, v) == Some(Int(n))
             && Below(v, g.next)
    requires Element(env, ss, id, n) == Some((r, k))
    ensures var (p, g') := GenElement(Find(g.scope, id).value, v, g).value;
            XSim(env, f, ret, g, g', p, s, Val(Ptr(r, k), ss), s', 0)
  {
    hide Moves, ScopeOk, Ext, Open, Rel, Step, Find, Lookup;
    FoundRel(env, g.scope, ss, s, id);
    OpenCur(g);
    RelWorldIs(env, g.scope, ss, s);
    match Find(g.scope, id).value
    case Mem(a, PtrK(_)) =>
      var d := a.r;
      var base := Lookup(ss.frames, id).value.p.value;
      LoadSlot(env, s, g.next, d, base);
      var g1 := EmitNew(g, Load(g.next, a));
      var s1 := State(s.regs[g.next := base], s.slots, s.world);
      var last := Gep(g1.next, Reg(g.next), [v]);
      ExtNew(g1, last, f);
      Emitted(g1, last, f);
      ThenSet(env, f, ret, g, Load(g.next, a), ss, s, base, s.world);
      LoadKeeps(g, a);
      Between(env, f, ret, g, g1, Reg(g.next), ss, s, base, ss, s1, 0);
      OperandKept(env, v, g.next, s, s1);
      GepOne(env, s1, g1.next, Reg(g.next), v, base.region, base.off, n);
      ThenSet(env, f, ret, g1, last, ss, s1, Ptr(r, k), s.world);
      s' := State(s1.regs[g1.next := Ptr(r, k)], s1.slots, s.world);
      Then(env, f, ret, g, g1, EmitNew(g1, last), Reg(g.next), Reg(g1.next), s, base, ss, s1, 0, Ptr(r, k), ss, s', 0);
    case Mem(a, ArrK(_)) =>
      GepZero(env, s, g.next, a, v, r, n);
      ThenSet(env, f, ret, g, Gep(g.next, a, [ConstInt(0), v]), ss, s, Ptr(r, k), s.world);
      s' := State(s.regs[g.next := Ptr(r, k)], s.slots, s.world);
    case _ =>
      s' := s;
  }

  lemma LoadKeeps(g: Gen, a: Operand)
    requires Open(g)
    ensures Open(EmitNew(g, Load(g.next, a))) && Keeps(g, EmitNew(g, Load(g.next, a)))
  {
    EmitCfg(g, Load(g.next, a));
  }

  /** An index: the expression, as an int, the test, the address. */
  lemma {:induction false} SimIndex(env: Env, f: seq<seq<Instr>>, id: string, x: Expr, g: Gen, ret: Option<Ty>,
                                    ss: Src, s: State) returns (s': State, k: nat)
    requires Start(env, g, ss, s) && GenIndex(id, x, g, ret).Some? && Ext(GenIndex(id, x, g, ret).value.1, f)
    ensures var (p, g') := GenIndex(id, x, g, ret).value; XSim(env, f, ret, g, g', p, s, EvalIndex(env, id, x, ss),
                                                               s', k)
    decreases x, 3
  {
    hide Moves, Finishes, ScopeOk, Ext, Rel, GenX, GenElement, GenCheck, EvalX, Element, Open, Keeps, GenConv,
         RegsKept, TypeX, ConvertTo;
    var (v, g1) := GenX(x, g, ret).value;
    var from, fn, b := TypeX(x, g.scope).t, Find(g.scope, NEG_IDX).value.fn, Find(g.scope, id).value;
    XCfg2(x, g, ret, ss, s, env);
    ConvKeeps(v, from, IntT, g1);
    var (n, g2) := GenConv(v, from, IntT, g1);
    CheckCfg(g2, n, fn, ret);
    var g3 := GenCheck(g2, n, fn, ret);
    ElementCfg(b, n, g3);
    var (p, g4) := GenElement(b, n, g3).value;
    ExtBack(g3, g4, f);
    ExtBack(g2, g3, f);
    ExtBack(g1, g2, f);
    var s1, k1 := SimX(env, f, x, g, ret, ss, s);
    s', k := s1, k1;
    var r := EvalX(env, x, ss);
    if r.Val? && ConvertTo(IntT, r.v).Some? && ConvertTo(IntT, r.v).value.Int? {
      var m := ConvertTo(IntT, r.v).value.n;
      var s2 := ThenConv(env, f, ret, g, g1, v, from, IntT, ss, s, r.v, r.s, s1, k1, Int(m));
      s', k := SimIndexed(env, f, ret, g, g2, id, n, fn, ss, s, r.s, s2, k1, m);
    }
  }

  /** From the value of the index on. */
  lemma SimIndexed(env: Env, f: seq<seq<Instr>>, ret: Option<Ty>, g: Gen, g1: Gen, id: string, v: Operand, fn: nat,
                   ss: Src, s: State, ss1: Src, s1: State,
                   k1: nat, n: int)
    returns (s': State, k: nat)
    requires Start(env, g, ss, s) && Start(env, g1, ss1, s1) && Keeps(g, g1) && g1.scope == g.scope
             && XSim(env, f, ret, g, g1, v, s, Val(Int(n), ss1), s1, k1)
    requires Find(g.scope, id).Some? && GenElement(Find(g.scope, id).value, v, GenCheck(g1, v, fn, ret)).Some?
    requires Find(g.scope, NEG_IDX).Some? && Find(g.scope, NEG_IDX).value.Fun? && Find(g.scope, NEG_IDX).value.fn == fn
    requires Ext(GenCheck(g1, v, fn, ret), f)
             && Ext(GenElement(Find(g.scope, id).value, v, GenCheck(g1, v, fn, ret)).value.1, f)
    ensures var (p, g') := GenElement(Find(g.scope, id).value, v, GenCheck(g1, v, fn, ret)).value;
            XSim(env, f, ret, g, g', p, s, if n < 0 then NegativeIndex(env, ss1) else ElementAt(env, ss1, id, n), s', k)
  {
    hide Moves, Finishes, ScopeOk, Ext, Rel, GenElement, GenCheck, Element, Open, Keeps, RegsKept;
    s', k := s1, k1;
    if n < 0 {
      FoundRel(env, g.scope, ss1, s1, NEG_IDX);
      RelWorldIs(env, g.scope, ss1, s1);
      if env.call(fn, [], ss1.world).Some? {
        var (y, w) := env.call(fn, [], ss1.world).value;
        CheckFails(env, f, g1, v, fn, ret, s1, n, y, w);
        MovesFinish(env, f, Here(g, s), Here(g1, s1), DefaultResult(ret), w, k1, 1);
        k := k1 + 1;
      }
    } else {
      s', k := SimChecked(env, f, ret, g, g1, id, v, fn, s, ss1, s1, k1, n);
    }
  }

  lemma ExtBack(g: Gen, g': Gen, f: seq<seq<Instr>>)
    requires Keeps(g, g') && Ext(g', f)
    ensures Ext(g, f)
  {
    ExtKeeps(g, g', f);
  }

  /** The test passes, and the address is computed. */
  lemma SimChecked(env: Env, f: seq<seq<Instr>>, ret: Option<Ty>, g: Gen, g1: Gen, id: string, v: Operand, fn: nat,
                   s: State, ss1: Src, s1: State, k1: nat, n: nat)
    returns (s': State, k: nat)
    requires Open(g) && Start(env, g1, ss1, s1) && Keeps(g, g1) && g1.scope == g.scope
             && XSim(env, f, ret, g, g1, v, s, Val(Int(n), ss1), s1, k1)
    requires Find(g.scope, id).Some? && GenElement(Find(g.scope, id).value, v, GenCheck(g1, v, fn, ret)).Some?
    requires Ext(GenCheck(g1, v, fn, ret), f)
             && Ext(GenElement(Find(g.scope, id).value, v, GenCheck(g1, v, fn, ret)).value.1, f)
    ensures var (p, g') := GenElement(Find(g.scope, id).value, v, GenCheck(g1, v, fn, ret)).value;
            XSim(env, f, ret, g, g', p, s, ElementAt(env, ss1, id, n), s', k)
  {
    hide Moves, Finishes, ScopeOk, Ext, Rel, GenElement, GenCheck, Element, Open, Keeps, Start;
    s', k := s1, k1;
    if Element(env, ss1, id, n).Some? {
      var (q, o) := Element(env, ss1, id, n).value;
      var g2, s2 := GenCheck(g1, v, fn, ret), s1.(regs := s1.regs[g1.next := Int(0)]);
      StartOpen(env, g1, ss1, s1);
      CheckPasses(env, f, g1, v, fn, ret, ss1, s1, n);
      CheckCfg(g1, v, fn, ret);
      Between(env, f, ret, g1, g2, v, ss1, s1, Int(n), ss1, s2, 1);
      var (p, g') := GenElement(Find(g.scope, id).value, v, g2).value;
      s' := SimElement(env, f, ret, g2, id, v, ss1, s2, n, q, o);
      Then(env, f, ret, g1, g2, g', v, p, s1, Int(n), ss1, s2, 1, Ptr(q, o), ss1, s', 0);
      Then(env, f, ret, g, g1, g', v, p, s, Int(n), ss1, s1, k1, Ptr(q, o), ss1, s', 1);
      k := k1 + 1;
    }
  }

  lemma StartOpen(env: Env, g: Gen, ss: Src, s: State)
    requires Start(env, g, ss, s)
    ensures Open(g) && g.cur < |g.blocks| && Rel(env, g.scope, ss, s) && ScopeOk(g.scope, g.next)
  {}

  // ----- all expressions -------------------------------------------------------------------------------------------

  lemma {:induction false} SimX(env: Env, f: seq<seq<Instr>>, e: Expr, g: Gen, ret: Option<Ty>, ss: Src, s: State)
    returns (s': State, k: nat)
    requires Start(env, g, ss, s) && GenX(e, g, ret).Some? && Ext(GenX(e, g, ret).value.1, f)
    ensures var (o, g') := GenX(e, g, ret).value; XSim(env, f, ret, g, g', o, s, EvalX(env, e, ss), s', k)
    ensures EvalX(env, e, ss).Val? ==> HasTy(TypeX(e, g.scope), EvalX(env, e, ss).v)
    decreases e, 2
  {
    hide Start, Ext, Moves, Finishes, Rel, RegsKept, GenIndex, EvalIndex, AssignVar, AssignTo, StoreAt, LoadAt,
         ReadVar, LoadCell, Emit, EmitNew, GenStore,
         ElementTy, Find, ConvertTo;
    match e
    case Num(_) =>
      s', k := s, 0;
      Unmoved(env, f, g, ss, s);
    case FloatNum(_) =>
      s', k := s, 0;
      Unmoved(env, f, g, ss, s);
    case Name(id) =>
      s' := SimName(env, f, id, g, ret, ss, s);
      k := 0;
    case Index(id, x) =>
      var (p, g1) := GenIndex(id, x, g, ret).value;
      IndexCfg2(id, x, g, ret, ss, s, env);
      EmitBack(g1, Load(g1.next, p), f);
      s', k := SimIndex(env, f, id, x, g, ret, ss, s);
      ElementTyIs(env, g, ss, s, id, x, ret);
      s', k := ThenLoad(env, f, ret, g, g1, p, ss, s, ElementTy(ss.frames, id), EvalIndex(env, id, x, ss), s', k);
    case AssignName(id, x) =>
      var (v, g1) := GenX(x, g, ret).value;
      XCfg2(x, g, ret, ss, s, env);
      var a, t := Find(g.scope, id).value.addr, Find(g.scope, id).value.kind.t;
      StoreBack(g1, v, TypeX(x, g.scope).t, t, a, f);
      s', k := SimX(env, f, x, g, ret, ss, s);
      s', k := ThenAssign(env, f, ret, g, g1, id, v, TypeX(x, g.scope).t, ss, s, EvalX(env, x, ss), s', k);
    case AssignIndex(id, x, y) => s', k := SimAssignIndex(env, f, e, id, x, y, g, ret, ss, s);
    case BinX(op, l, x) => s', k := SimBin(env, f, e, op, l, x, g, ret, ss, s);
    case RelX(rel, l, x) => s', k := SimRel(env, f, e, rel, l, x, g, ret, ss, s);
    case CallX(id, xs) => s', k := SimCall(env, f, e, id, xs, g, ret, ss, s);
  }

  /** Both sides know the type of the elements. */
  lemma ElementTyIs(env: Env, g: Gen, ss: Src, s: State, id: string, x: Expr, ret: Option<Ty>)
    requires Start(env, g, ss, s) && (GenIndex(id, x, g, ret).Some? || ElementOf(Find(g.scope, id)).Scalar?)
    ensures ElementOf(Find(g.scope, id)) == Scalar(ElementTy(ss.frames, id))
  {
    hide GenX, Find, Lookup, Rel, GenCheck, GenConv;
    FoundRel(env, g.scope, ss, s, id);
  }

  lemma StoreBack(g: Gen, v: Operand, from: Ty, to: Ty, p: Operand, f: seq<seq<Instr>>)
    requires Open(g) && Ext(GenStore(v, from, to, p, g).1, f)
    ensures var (v', g') := GenConv(v, from, to, g); Ext(Emit(g', Store(v', p)), f) && Ext(g', f) && Ext(g, f)
  {
    hide Ext, GenConv, Open, Keeps;
    ConvKeeps(v, from, to, g);
    var (v', g') := GenConv(v, from, to, g);
    EmitBack(g', Store(v', p), f);
    ExtBack(g, g', f);
  }

  lemma {:induction false} SimAssignIndex(env: Env, f: seq<seq<Instr>>, e: Expr, id: string, x: Expr, y: Expr, g: Gen,
                                          ret: Option<Ty>, ss: Src, s: State)
    returns (s': State, k: nat)
    requires e == AssignIndex(id, x, y) && Start(env, g, ss, s) && GenX(e, g, ret).Some?
             && Ext(GenX(e, g, ret).value.1, f)
    ensures var (o, g') := GenX(e, g, ret).value; XSim(env, f, ret, g, g', o, s, EvalX(env, e, ss), s', k)
    ensures EvalX(env, e, ss).Val? ==> HasTy(TypeX(e, g.scope), EvalX(env, e, ss).v)
    decreases e, 1
  {
    hide Start, Ext, Moves, Finishes, Rel, RegsKept, GenIndex, EvalIndex, StoreAt, GenStore, ElementTy, ElementOf,
         Find, ConvertTo, Open, Keeps;
    var (v, g1) := GenX(y, g, ret).value;
    var from, to := TypeX(y, g.scope).t, ElementTy(ss.frames, id);
    XCfg2(y, g, ret, ss, s, env);
    ElementTyIs(env, g, ss, s, id, x, ret);
    var (p, g2) := GenIndex(id, x, g1, ret).value;
    IndexCfg(id, x, g1, ret);
    StoreBack(g2, v, from, to, p, f);
    ExtBack(g1, g2, f);
    s', k := SimX(env, f, y, g, ret, ss, s);
    var r := EvalX(env, y, ss);
    if r.Val? {
      Between(env, f, ret, g, g1, v, ss, s, r.v, r.s, s', k);
      var s1, k1 := s', k;
      s', k := SimIndex(env, f, id, x, g1, ret, r.s, s1);
      s', k := ThenStore(env, f, ret, g, g1, g2, v, from, to, p, ss, s, r.v, r.s, s1, k1, EvalIndex(env, id, x, r.s),
                         s', k);
    }
  }

  lemma Unmoved(env: Env, f: seq<seq<Instr>>, g: Gen, ss: Src, s: State)
    requires Start(env, g, ss, s)
    ensures Moves(env, f, Here(g, s), Here(g, s), 0) && Rel(env, g.scope, ss, s) && RegsKept(g.next, s, s)
  {
    MovesSelf(env, f, Here(g, s));
  }

  lemma XCfg2(e: Expr, g: Gen, ret: Option<Ty>, ss: Src, s: State, env: Env)
    requires Start(env, g, ss, s) && GenX(e, g, ret).Some?
    ensures var g1 := GenX(e, g, ret).value.1; Open(g1) && Keeps(g, g1) && g1.cur < |g1.blocks| && g1.scope == g.scope
  {
    XCfg(e, g, ret);
  }

  lemma IndexCfg2(id: string, x: Expr, g: Gen, ret: Option<Ty>, ss: Src, s: State, env: Env)
    requires Start(env, g, ss, s) && GenIndex(id, x, g, ret).Some?
    ensures var g1 := GenIndex(id, x, g, ret).value.1; Open(g1) && Keeps(g, g1) && g1.cur < |g1.blocks|
                                                       && g1.scope == g.scope
  {
    IndexCfg(id, x, g, ret);
  }

  lemma EmitBack(g: Gen, i: Instr, f: seq<seq<Instr>>)
    requires g.cur < |g.blocks| && (Ext(EmitNew(g, i), f) || Ext(Emit(g, i), f))
    ensures Ext(g, f) && Ext(Emit(g, i), f) && Ext(EmitNew(g, i), f)
  {
    if Ext(EmitNew(g, i), f) { ExtNew(g, i, f); }
    Emitted(g, i, f);
  }

  /** A variable that is read. */
  lemma SimName(env: Env, f: seq<seq<Instr>>, id: string, g: Gen, ret: Option<Ty>, ss: Src, s: State)
    returns (s': State)
    requires Start(env, g, ss, s) && GenX(Name(id), g, ret).Some? && Ext(GenX(Name(id), g, ret).value.1, f)
    ensures var (o, g') := GenX(Name(id), g, ret).value; XSim(env, f, ret, g, g', o, s, ReadVar(env, ss, id), s', 0)
    ensures ReadVar(env, ss, id).Val? ==> HasTy(TypeX(Name(id), g.scope), ReadVar(env, ss, id).v)
  {
    hide Start, Ext, Moves, Finishes, Rel, RegsKept, Step, Find, Lookup, XSim, Emit, EmitNew;
    StartOpen(env, g, ss, s);
    FoundRel(env, g.scope, ss, s, id);
    RelWorldIs(env, g.scope, ss, s);
    var (o, g') := GenX(Name(id), g, ret).value;
    var a := Find(g.scope, id).value.addr;
    s' := s;
    BadIsFine(env, f, ret, g, g', o, s, s', 0);
    var r := ReadVar(env, ss, id);
    assert r.Val? || r == Bad;
    if r.Val? {
      match Lookup(ss.frames, id).value {
        case NumVar(_, x) => LoadSlot(env, s, g.next, a.r, r.v);
        case PtrVar(_, x) => LoadSlot(env, s, g.next, a.r, r.v);
        case ArrVar(_, site) => GepZero(env, s, g.next, a, ConstInt(0), LocalArray(env.depth, site), 0);
        case GlobalNum(_, m) => LoadMem(env, s, g.next, a, GlobalVar(m), 0);
        case GlobalArr(_, m) => GepZero(env, s, g.next, a, ConstInt(0), GlobalVar(m), 0);
        case FunVar(_, _, _) =>
      }
      s' := State(s.regs[g.next := r.v], s.slots, s.world);
      var i := if Find(g.scope, id).value.kind.ArrK? then Gep(g.next, a, [ConstInt(0), ConstInt(0)])
          else Load(g.next, a);
      assert g' == EmitNew(g, i) && o == Reg(g.next) && r == Val(r.v, ss);
      ThenSet(env, f, ret, g, i, ss, s, r.v, s.world);
    }
  }

  lemma BadIsFine(env: Env, f: seq<seq<Instr>>, ret: Option<Ty>, g: Gen, g': Gen, o: Operand, s: State, s': State,
                  k: nat)
    ensures XSim(env, f, ret, g, g', o, s, Bad, s', k)
  {}

  /** Reading an element, once its address is known. */
  lemma ThenLoad(env: Env, f: seq<seq<Instr>>, ret: Option<Ty>, g: Gen, g1: Gen, p: Operand, ss: Src, s: State, t: Ty,
                 r: ExprResult, s1: State, k1: nat)
    returns (s': State, k: nat)
    requires Start(env, g, ss, s) && Open(g1) && Keeps(g, g1) && XSim(env, f, ret, g, g1, p, s, r, s1, k1)
             && Ext(EmitNew(g1, Load(g1.next, p)), f)
    ensures XSim(env, f, ret, g, EmitNew(g1, Load(g1.next, p)), Reg(g1.next), s, LoadAt(t, r), s', k)
    ensures LoadAt(t, r).Val? ==> HasTag(t, LoadAt(t, r).v)
  {
    hide Ext, Moves, Finishes, Rel, RegsKept, Step, Emit, Open, Keeps, ScopeOk;
    s', k := s1, k1;
    if r.Val? && r.v.Ptr? && LoadAt(t, r).Val? {
      Between(env, f, ret, g, g1, p, ss, s, r.v, r.s, s1, k1);
      RelWorldIs(env, g.scope, r.s, s1);
      var x := s1.world.mem[(r.v.region, r.v.off)];
      LoadMem(env, s1, g1.next, p, r.v.region, r.v.off);
      ThenSet(env, f, ret, g1, Load(g1.next, p), r.s, s1, x, s1.world);
      s' := State(s1.regs[g1.next := x], s1.slots, s1.world);
      Then(env, f, ret, g, g1, EmitNew(g1, Load(g1.next, p)), p, Reg(g1.next), s, r.v, r.s, s1, k1, x, r.s, s', 0);
    }
  }

  /** Assigning to a variable, once the value is known. */
  lemma ThenAssign(env: Env, f: seq<seq<Instr>>, ret: Option<Ty>, g: Gen, g1: Gen, id: string, v: Operand, from: Ty,
                   ss: Src, s: State, r: ExprResult, s1: State,
                   k1: nat)
    returns (s': State, k: nat)
    requires Start(env, g, ss, s) && Open(g1) && Keeps(g, g1) && XSim(env, f, ret, g, g1, v, s, r, s1, k1)
             && (r.Val? ==> HasTag(from, r.v))
    requires Find(g.scope, id).Some? && Find(g.scope, id).value.Mem? && Find(g.scope, id).value.kind.NumK?
    requires Ext(GenStore(v, from, Find(g.scope, id).value.kind.t, Find(g.scope, id).value.addr, g1).1, f)
    ensures var Mem(a, NumK(t)) := Find(g.scope, id).value;
            var (o, g') := GenStore(v, from, t, a, g1);
            XSim(env, f, ret, g, g', o, s, AssignTo(id, r), s', k) && (AssignTo(id, r).Val? ==>
                  HasTag(t, AssignTo(id, r).v))
  {
    hide Ext, Moves, Finishes, Rel, Step, Emit, Open, Keeps, ScopeOk, Find, Lookup, Update, GenConv, ConvertTo,
         RegsKept;
    s', k := s1, k1;
    if r.Val? {
      var Mem(a, NumK(t)) := Find(g.scope, id).value;
      Between(env, f, ret, g, g1, v, ss, s, r.v, r.s, s1, k1);
      StoreBack(g1, v, from, t, a, f);
      FoundRel(env, g.scope, r.s, s1, id);
      if ConvertTo(t, r.v).Some? {
        var x := ConvertTo(t, r.v).value;
        var s2 := ThenConv(env, f, ret, g, g1, v, from, t, ss, s, r.v, r.s, s1, k1, x);
        var (o, g2) := GenConv(v, from, t, g1);
        AlreadyConverted(t, x);
        s' := StoreVar(env, f, ret, g, g2, id, o, ss, s, x, r.s, s2, k1);
      }
    }
  }

  lemma AlreadyConverted(t: Ty, x: Value)
    requires HasTag(t, x)
    ensures ConvertTo(t, x) == Some(x)
  {}

  /** The store to a variable of a number of its type. */
  lemma StoreVar(env: Env, f: seq<seq<Instr>>, ret: Option<Ty>, g: Gen, g1: Gen, id: string, v: Operand, ss: Src,
                 s: State, x: Value, ss1: Src, s1: State, k: nat)
    returns (s': State)
    requires Start(env, g, ss, s) && Open(g1) && Keeps(g, g1) && XSim(env, f, ret, g, g1, v, s, Val(x, ss1), s1, k)
    requires Find(g.scope, id).Some? && Find(g.scope, id).value.Mem? && Find(g.scope, id).value.kind.NumK?
             && HasTag(Find(g.scope, id).value.kind.t, x)
    requires Ext(Emit(g1, Store(v, Find(g.scope, id).value.addr)), f)
    ensures XSim(env, f, ret, g, Emit(g1, Store(v, Find(g.scope, id).value.addr)), v, s, AssignVar(ss1, id, x), s', k)
  {
    hide Ext, Moves, Finishes, Rel, Step, Emit, Open, Keeps, ScopeOk, Find, Lookup, Update;
    var i := Store(v, Find(g.scope, id).value.addr);
    var a, t := Find(g.scope, id).value.addr, Find(g.scope, id).value.kind.t;
    AlreadyConverted(t, x);
    Between(env, f, ret, g, g1, v, ss, s, x, ss1, s1, k);
    FoundRel(env, g.scope, ss1, s1, id);
    RelWorldIs(env, g.scope, ss1, s1);
    StartOpen(env, g1, ss1, s1);
    match Lookup(ss1.frames, id).value {
      case NumVar(_, _) =>
        StoreSlot(env, s1, v, x, a.r);
        s' := s1.(slots := s1.slots[a.r := x]);
        RelAssign(env, g.scope, g1.next, ss1, s1, id, a.r, t, x);
        StoreMoves(env, f, ret, g, g1, i, s, s1, s', k);
      case GlobalNum(_, m) =>
        StoreMem(env, s1, v, x, a, GlobalVar(m), 0);
        s' := s1.(world := s1.world.(mem := s1.world.mem[(GlobalVar(m), 0) := x]));
        RelWorld(env, g.scope, ss1, s1, s'.world);
        StoreMoves(env, f, ret, g, g1, i, s, s1, s', k);
      case _ =>
        s' := s1;
    }
  }

  lemma StoreMoves(env: Env, f: seq<seq<Instr>>, ret: Option<Ty>, g: Gen, g1: Gen, i: Instr, s: State, s1: State,
                   s': State, k: nat)
    requires g1.cur < |g1.blocks| && Moves(env, f, Here(g, s), Here(g1, s1), k) && Ext(Emit(g1, i), f) && i.Store?
             && Step(env, i, s1) == Some(s')
    ensures Moves(env, f, Here(g, s), Here(Emit(g1, i), s'), k) && Emit(g1, i).next == g1.next
  {
    hide Moves, Ext, Step;
    EmitMoves(env, g1, i, f, s1, s');
    MovesTrans(env, f, Here(g, s), Here(g1, s1), Here(Emit(g1, i), s'), k, 0);
    NextSame(g1, i);
  }

  lemma NextSame(g: Gen, i: Instr)
    ensures Emit(g, i).next == g.next && EmitNew(g, i).next == g.next + 1
  {}

  /** Assigning to an element, once the value and the address are known. */
  lemma ThenStore(env: Env, f: seq<seq<Instr>>, ret: Option<Ty>, g: Gen, g1: Gen, g2: Gen, v: Operand, from: Ty,
                  to: Ty, p: Operand, ss: Src, s: State,
                  x: Value, ss1: Src, s1: State, k1: nat, r: ExprResult, s2: State, k2: nat) returns (s': State, k: nat)
    requires Start(env, g, ss, s) && Open(g1) && Open(g2) && Keeps(g, g1) && Keeps(g1, g2) && HasTag(from, x)
    requires XSim(env, f, ret, g, g1, v, s, Val(x, ss1), s1, k1) && XSim(env, f, ret, g1, g2, p, s1, r, s2, k2)
    requires Ext(GenStore(v, from, to, p, g2).1, f)
    ensures var (o, g') := GenStore(v, from, to, p, g2); XSim(env, f, ret, g, g', o, s, StoreAt(to, x, r), s', k)
    ensures StoreAt(to, x, r).Val? ==> HasTag(to, StoreAt(to, x, r).v)
  {
    hide Ext, Moves, Finishes, Rel, Step, Emit, Open, Keeps, ScopeOk, GenConv, ConvertTo, RegsKept;
    s', k := s2, k1 + k2;
    if r.Exit? { ExitLater(env, f, ret, g, g1, g2, v, p, s, x, ss1, s1, k1, r.w, s2, k2); }
    if r.Val? && r.v.Ptr? && ConvertTo(to, x).Some? {
      var y := ConvertTo(to, x).value;
      Between(env, f, ret, g, g1, v, ss, s, x, ss1, s1, k1);
      Between(env, f, ret, g1, g2, p, ss1, s1, r.v, r.s, s2, k2);
      Then(env, f, ret, g, g1, g2, v, p, s, x, ss1, s1, k1, r.v, r.s, s2, k2);
      StartOpen(env, g, ss, s);
      KeptTrans(g, g1, g2);
      AlsoValue(env, f, ret, g, g1, g2, v, p, s, x, ss1, s1, k1, r.v, r.s, s2, k);
      StoreBack(g2, v, from, to, p, f);
      var s3 := ThenConv(env, f, ret, g, g2, v, from, to, ss, s, x, r.s, s2, k, y);
      var (o, g3) := GenConv(v, from, to, g2);
      KeptOperand(env, p, g2.next, s2, s3);
      s' := StoreElement(env, f, ret, g, g3, o, p, ss, s, y, r.v, r.s, s3, k);
    }
  }

  /** An older operand in place of the newest one. */
  lemma AlsoValue(env: Env, f: seq<seq<Instr>>, ret: Option<Ty>, g: Gen, g1: Gen, g2: Gen, o: Operand, o2: Operand,
                  s: State, v: Value, ss1: Src, s1: State, k1: nat,
                  v2: Value, ss2: Src, s2: State, k: nat)
    requires XSim(env, f, ret, g, g1, o, s, Val(v, ss1), s1, k1) && XSim(env, f, ret, g, g2, o2, s, Val(v2, ss2), s2, k)
    requires Eval(env, s2.regs, o) == Some(v) && g1.next <= g2.next
    ensures XSim(env, f, ret, g, g2, o, s, Val(v, ss2), s2, k)
  {
    hide Moves, Rel, RegsKept;
  }

  lemma KeptOperand(env: Env, o: Operand, n: nat, s: State, s': State)
    requires RegsKept(n, s, s') && Below(o, n) && Eval(env, s.regs, o).Some?
    ensures Eval(env, s'.regs, o) == Eval(env, s.regs, o)
  {}

  /** The store to an element of a number of its type. */
  lemma StoreElement(env: Env, f: seq<seq<Instr>>, ret: Option<Ty>, g: Gen, g1: Gen, v: Operand, p: Operand, ss: Src,
                     s: State, x: Value, at: Value, ss1: Src,
                     s1: State, k: nat)
    returns (s': State)
    requires Start(env, g, ss, s) && Open(g1) && Keeps(g, g1) && XSim(env, f, ret, g, g1, v, s, Val(x, ss1), s1, k)
    requires Eval(env, s1.regs, p) == Some(at) && at.Ptr? && Ext(Emit(g1, Store(v, p)), f)
    ensures XSim(env, f, ret, g, Emit(g1, Store(v, p)), v, s,
                 Val(x, ss1.(world := ss1.world.(mem := ss1.world.mem[(at.region, at.off) := x]))), s', k)
  {
    hide Ext, Moves, Finishes, Rel, Step, Emit, Open, Keeps, ScopeOk;
    var i := Store(v, p);
    Between(env, f, ret, g, g1, v, ss, s, x, ss1, s1, k);
    RelWorldIs(env, g.scope, ss1, s1);
    StoreMem(env, s1, v, x, p, at.region, at.off);
    s' := s1.(world := s1.world.(mem := s1.world.mem[(at.region, at.off) := x]));
    RelWorld(env, g.scope, ss1, s1, s'.world);
    EmitMoves(env, g1, i, f, s1, s');
    MovesTrans(env, f, Here(g, s), Here(g1, s1), Here(Emit(g1, i), s'), k, 0);
    NextSame(g1, i);
  }

  // ----- operators and calls ---------------------------------------------------------------------------------

  /** On numbers made ints or floats alike, the instruction does what the operator does. */
  lemma ArithAgrees(op: ArithOp, s: Ty, t: Ty, v: Value, w: Value, x: Value, y: Value)
    requires HasTag(s, v) && HasTag(t, w) && ConvertTo(Join(s, t), v) == Some(x) && ConvertTo(Join(s, t), w) == Some(y)
    ensures Arith(op, v, w) == BinSem(ArithInstr(op, Join(s, t)), x, y)
    ensures Arith(op, v, w).Some? ==> HasTag(Join(s, t), Arith(op, v, w).value)
  {
    hide IntArith, FloatArith, BinSem, ArithInstr;
    match (v, w)
    case (Int(a), Int(b)) => IntAgrees(op, a, b);
    case (Int(a), Flt(q)) => FloatAgrees(op, a as real, q);
    case (Flt(p), Int(b)) => FloatAgrees(op, p, b as real);
    case (Flt(p), Flt(q)) => FloatAgrees(op, p, q);
  }

  /** Division of ints, of the source and of an sdiv: what is left over has the sign of the dividend. */
  lemma DivisionIs(a: int, b: int, q: int)
    ensures b == 0 ==> IntArith(Over, a, b) == None && BinSem(SDiv, Int(a), Int(b)) == None
    ensures b != 0 && CutsOff(a, b, q) ==>
              IntArith(Over, a, b) == Some(Wrap(q)) && BinSem(SDiv, Int(a), Int(b)) == Some(Int(Wrap(q)))
  {
    if b != 0 { TruncDivIs(a, b, q); }
  }

  /** A float becomes the int that it is cut off to, when that is a 32-bit number. */
  lemma ConversionIs(x: real, n: int)
    requires x >= 0.0 ==> n as real <= x < n as real + 1.0
    requires x <= 0.0 ==> n as real - 1.0 < x <= n as real
    ensures ConvertTo(IntT, Flt(x)) == ConvSem(FpToSi, Flt(x))
    ensures ConvSem(FpToSi, Flt(x)) == if -0x8000_0000 <= n <= 0x7FFF_FFFF then Some(Int(n)) else None
  {
    TruncateIs(x);
  }

  /** A comparison is 1 or 0, in the source and in LightIR. */
  lemma ComparisonIs(rel: RelOp, a: int, b: int, x: real, y: real)
    ensures CmpSem(RelInstr(rel, IntT), Int(a), Int(b)) ==
            Some(if (match rel
                     case Less => a < b
                     case LessEq => a <= b
                     case GreaterEq => a >= b
                     case Greater => a > b
                     case Equal => a == b
                     case NotEqual => a != b) then Int(1) else Int(0))
    ensures CmpSem(RelInstr(rel, FloatT), Flt(x), Flt(y)) ==
            Some(if (match rel
                     case Less => x < y
                     case LessEq => x <= y
                     case GreaterEq => x >= y
                     case Greater => x > y
                     case Equal => x == y
                     case NotEqual => x != y) then Int(1) else Int(0))
  {}

  lemma IntAgrees(op: ArithOp, a: int, b: int)
    ensures BinSem(ArithInstr(op, IntT), Int(a), Int(b)) ==
            if IntArith(op, a, b).Some? then Some(Int(IntArith(op, a, b).value)) else None
  {}

  lemma FloatAgrees(op: ArithOp, x: real, y: real)
    ensures BinSem(ArithInstr(op, FloatT), Flt(x), Flt(y)) == FloatArith(op, x, y)
    ensures FloatArith(op, x, y).Some? ==> FloatArith(op, x, y).value.Flt?
  {}

  lemma CompareAgrees(rel: RelOp, s: Ty, t: Ty, v: Value, w: Value, x: Value, y: Value)
    requires HasTag(s, v) && HasTag(t, w) && ConvertTo(Join(s, t), v) == Some(x) && ConvertTo(Join(s, t), w) == Some(y)
    ensures Compare(rel, v, w).Some? && CmpSem(RelInstr(rel, Join(s, t)), x, y) == Some(Bool(Compare(rel, v, w).value))
  {}

  /** A number always has a value as what it is joined to. */
  lemma JoinConverts(s: Ty, t: Ty, v: Value)
    requires HasTag(s, v)
    ensures ConvertTo(Join(s, t), v).Some? && ConvertTo(Join(t, s), v) == ConvertTo(Join(s, t), v)
  {}

  /** Two operands, left before right, made ints or floats alike. */
  ghost predicate TwoSim(env: Env, f: seq<seq<Instr>>, l: Expr, x: Expr, g: Gen, ret: Option<Ty>, ss: Src, s: State,
                         s': State, k: nat)
    requires GenTwo(l, x, g, ret).Some?
  {
    var (a, b, t, g') := GenTwo(l, x, g, ret).value;
    var r1 := EvalX(env, l, ss);
    && (r1.Exit? ==> Finishes(env, f, Here(g, s), DefaultResult(ret), r1.w, k))
    && (r1.Val? ==>
          var r2 := EvalX(env, x, r1.s);
          && (r2.Exit? ==> Finishes(env, f, Here(g, s), DefaultResult(ret), r2.w, k))
          && (r2.Val? ==>
                && HasTy(TypeX(l, g.scope), r1.v) && HasTy(TypeX(x, g.scope), r2.v) && ConvertTo(t, r1.v).Some?
                && ConvertTo(t, r2.v).Some?
                && XSim(env, f, ret, g, g', b, s, Val(ConvertTo(t, r2.v).value, r2.s), s', k)
                && Eval(env, s'.regs, a) == ConvertTo(t, r1.v)
                && Start(env, g', r2.s, s') && Open(g') && Keeps(g, g')))
  }

  lemma {:induction false} SimTwo(env: Env, f: seq<seq<Instr>>, e: Expr, l: Expr, x: Expr, g: Gen, ret: Option<Ty>,
                                  ss: Src, s: State) returns (s': State, k: nat)
    requires Start(env, g, ss, s) && GenTwo(l, x, g, ret).Some? && Ext(GenTwo(l, x, g, ret).value.3, f)
    requires (e.BinX? || e.RelX?) && e.l == l && e.r == x
    ensures TwoSim(env, f, l, x, g, ret, ss, s, s', k)
    decreases e, 0
  {
    hide Start, Ext, Moves, Finishes, Rel, RegsKept, GenX, EvalX, Open, Keeps, GenConv, TypeX, ConvertTo;
    var (a, g1) := GenX(l, g, ret).value;
    var (b, g2) := GenX(x, g1, ret).value;
    XCfg2(l, g, ret, ss, s, env);
    XCfg(x, g1, ret);
    var t1, t2 := TypeX(l, g.scope).t, TypeX(x, g.scope).t;
    PromoteBack(a, t1, b, t2, g2, f);
    ExtBack(g1, g2, f);
    s', k := SimX(env, f, l, g, ret, ss, s);
    var r1 := EvalX(env, l, ss);
    if r1.Val? {
      var s1, k1 := s', k;
      Between(env, f, ret, g, g1, a, ss, s, r1.v, r1.s, s1, k1);
      s', k := SimX(env, f, x, g1, ret, r1.s, s1);
      var r2 := EvalX(env, x, r1.s);
      if r2.Val? {
        Between(env, f, ret, g1, g2, b, r1.s, s1, r2.v, r2.s, s', k);
        Then(env, f, ret, g, g1, g2, a, b, s, r1.v, r1.s, s1, k1, r2.v, r2.s, s', k);
        StartOpen(env, g, ss, s);
        KeptTrans(g, g1, g2);
        AlsoValue(env, f, ret, g, g1, g2, a, b, s, r1.v, r1.s, s1, k1, r2.v, r2.s, s', k1 + k);
        s' := ThenPromote(env, f, ret, g, g2, a, t1, b, t2, ss, s, r1.v, r2.v, r2.s, s', k1 + k);
      } else if r2.Exit? {
        ExitLater(env, f, ret, g, g1, g2, a, b, s, r1.v, r1.s, s1, k1, r2.w, s', k);
      }
      k := k1 + k;
    }
  }

  lemma PromoteBack(a: Operand, s: Ty, b: Operand, t: Ty, g: Gen, f: seq<seq<Instr>>)
    requires Open(g) && Ext(GenPromote(a, s, b, t, g).2, f)
    ensures Ext(g, f) && Ext(GenConv(a, s, Join(s, t), g).1, f)
  {
    hide Ext, Open, Keeps, GenConv;
    var (a', g1) := GenConv(a, s, Join(s, t), g);
    ConvKeeps(a, s, Join(s, t), g);
    ConvKeeps(b, t, Join(s, t), g1);
    ExtBack(g1, GenConv(b, t, Join(s, t), g1).1, f);
    ExtBack(g, g1, f);
  }

  /** Both operands as numbers of one type. */
  lemma ThenPromote(env: Env, f: seq<seq<Instr>>, ret: Option<Ty>, g: Gen, g1: Gen, a: Operand, t1: Ty, b: Operand,
                    t2: Ty, ss: Src, s: State, v: Value, w: Value,
                    ss1: Src, s1: State, k: nat)
    returns (s': State)
    requires Start(env, g, ss, s) && Open(g1) && Keeps(g, g1) && HasTag(t1, v) && HasTag(t2, w)
             && Ext(GenPromote(a, t1, b, t2, g1).2, f)
    requires XSim(env, f, ret, g, g1, a, s, Val(v, ss1), s1, k) && XSim(env, f, ret, g, g1, b, s, Val(w, ss1), s1, k)
    ensures var (a', b', g') := GenPromote(a, t1, b, t2, g1);
            var t := Join(t1, t2);
            && ConvertTo(t, v).Some? && ConvertTo(t, w).Some? && Start(env, g', ss1, s') && Open(g') && Keeps(g, g')
            && XSim(env, f, ret, g, g', b', s, Val(ConvertTo(t, w).value, ss1), s', k)
            && Eval(env, s'.regs, a') == ConvertTo(t, v)
  {
    hide Start, Ext, Moves, Finishes, Rel, RegsKept, Open, Keeps, GenConv, ConvertTo;
    var t := Join(t1, t2);
    JoinConverts(t1, t2, v);
    JoinConverts(t2, t1, w);
    var x, y := ConvertTo(t, v).value, ConvertTo(t, w).value;
    PromoteBack(a, t1, b, t2, g1, f);
    var (a', g2) := GenConv(a, t1, t, g1);
    var (b', g3) := GenConv(b, t2, t, g2);
    var s2 := ThenConv(env, f, ret, g, g1, a, t1, t, ss, s, v, ss1, s1, k, x);
    KeptOperand(env, b, g1.next, s1, s2);
    ConvNext(a, t1, t, g1);
    AlsoValue(env, f, ret, g, g1, g2, b, a', s, w, ss1, s1, k, x, ss1, s2, k);
    s' := ThenConv(env, f, ret, g, g2, b, t2, t, ss, s, w, ss1, s2, k, y);
    KeptOperand(env, a', g2.next, s2, s');
  }

  lemma ConvNext(v: Operand, from: Ty, to: Ty, g: Gen)
    ensures GenConv(v, from, to, g).1.next >= g.next
  {}

  lemma {:induction false} SimBin(env: Env, f: seq<seq<Instr>>, e: Expr, op: ArithOp, l: Expr, x: Expr, g: Gen,
                                  ret: Option<Ty>, ss: Src, s: State)
    returns (s': State, k: nat)
    requires e == BinX(op, l, x) && Start(env, g, ss, s) && GenX(e, g, ret).Some? && Ext(GenX(e, g, ret).value.1, f)
    ensures var (o, g') := GenX(e, g, ret).value; XSim(env, f, ret, g, g', o, s, EvalX(env, e, ss), s', k)
    ensures EvalX(env, e, ss).Val? ==> HasTy(TypeX(e, g.scope), EvalX(env, e, ss).v)
    decreases e, 1
  {
    hide Start, Ext, Moves, Finishes, Rel, RegsKept, BinSem, Arith, Emit, Open, Keeps, ConvertTo, GenPromote;
    var (a, b, t, g2) := GenTwo(l, x, g, ret).value;
    var i := Bin(g2.next, ArithInstr(op, t), a, b);
    TwoCfg2(l, x, g, ret, ss, s, env);
    EmitBack(g2, i, f);
    s', k := SimTwo(env, f, e, l, x, g, ret, ss, s);
    var r := EvalX(env, e, ss);
    if r.Val? {
      var r1 := EvalX(env, l, ss);
      var r2 := EvalX(env, x, r1.s);
      var v, w := ConvertTo(t, r1.v).value, ConvertTo(t, r2.v).value;
      ArithAgrees(op, TypeX(l, g.scope).t, TypeX(x, g.scope).t, r1.v, r2.v, v, w);
      BinStep(env, s', g2.next, ArithInstr(op, t), a, b, v, w, r.v);
      s', k := ThenResult(env, f, ret, g, g2, i, b, ss, s, w, r2.s, s', k, r.v);
    }
  }

  lemma TwoCfg2(l: Expr, x: Expr, g: Gen, ret: Option<Ty>, ss: Src, s: State, env: Env)
    requires Start(env, g, ss, s) && GenTwo(l, x, g, ret).Some?
    ensures var g2 := GenTwo(l, x, g, ret).value.3; g2.cur < |g2.blocks|
  {
    TwoCfg(l, x, g, ret);
  }

  /** The instruction that computes the result. */
  lemma ThenResult(env: Env, f: seq<seq<Instr>>, ret: Option<Ty>, g: Gen, g2: Gen, i: Instr, b: Operand, ss: Src,
                   s: State, v2: Value, ss2: Src, s2: State, k2: nat, v: Value)
    returns (s': State, k: nat)
    requires Start(env, g2, ss2, s2) && Keeps(g, g2) && XSim(env, f, ret, g, g2, b, s, Val(v2, ss2), s2, k2)
             && Ext(EmitNew(g2, i), f)
    requires !IsTerminator(i) && Step(env, i, s2) == Some(State(s2.regs[g2.next := v], s2.slots, s2.world))
    ensures XSim(env, f, ret, g, EmitNew(g2, i), Reg(g2.next), s, Val(v, ss2), s', k)
    ensures s' == State(s2.regs[g2.next := v], s2.slots, s2.world) && Eval(env, s2.regs, b) == Some(v2)
  {
    hide Ext, Moves, Rel, RegsKept, Step, Emit, Open, Keeps, ScopeOk;
    StartOpen(env, g2, ss2, s2);
    RelWorldIs(env, g2.scope, ss2, s2);
    ThenSet(env, f, ret, g2, i, ss2, s2, v, s2.world);
    s', k := State(s2.regs[g2.next := v], s2.slots, s2.world), k2 + 0;
    Then(env, f, ret, g, g2, EmitNew(g2, i), b, Reg(g2.next), s, v2, ss2, s2, k2, v, ss2, s', 0);
  }

  lemma {:induction false} SimRel(env: Env, f: seq<seq<Instr>>, e: Expr, rel: RelOp, l: Expr, x: Expr, g: Gen,
                                  ret: Option<Ty>, ss: Src, s: State)
    returns (s': State, k: nat)
    requires e == RelX(rel, l, x) && Start(env, g, ss, s) && GenX(e, g, ret).Some? && Ext(GenX(e, g, ret).value.1, f)
    ensures var (o, g') := GenX(e, g, ret).value; XSim(env, f, ret, g, g', o, s, EvalX(env, e, ss), s', k)
    ensures EvalX(env, e, ss).Val? ==> HasTy(TypeX(e, g.scope), EvalX(env, e, ss).v)
    decreases e, 1
  {
    hide Start, Ext, Moves, Finishes, Rel, RegsKept, CmpSem, Compare, Emit, Open, Keeps, ConvertTo, GenPromote;
    var (a, b, t, g2) := GenTwo(l, x, g, ret).value;
    var i := Cmp(g2.next, RelInstr(rel, t), a, b);
    TwoCfg2(l, x, g, ret, ss, s, env);
    StartOpen(env, g, ss, s);
    var g3 := EmitNew(g2, i);
    CurSame(g2, i);
    EmitBack(g3, Conv(g3.next, ZExt, Reg(g2.next)), f);
    EmitBack(g2, i, f);
    s', k := SimTwo(env, f, e, l, x, g, ret, ss, s);
    var r := EvalX(env, e, ss);
    if r.Val? {
      var r1 := EvalX(env, l, ss);
      var r2 := EvalX(env, x, r1.s);
      var v, w := ConvertTo(t, r1.v).value, ConvertTo(t, r2.v).value;
      CompareAgrees(rel, TypeX(l, g.scope).t, TypeX(x, g.scope).t, r1.v, r2.v, v, w);
      CmpStep(env, s', g2.next, RelInstr(rel, t), a, b, v, w, r.v);
      NewKeeps(g, g2, i);
      s', k := ThenResult(env, f, ret, g, g2, i, b, ss, s, w, r2.s, s', k, r.v);
      Between(env, f, ret, g, g3, Reg(g2.next), ss, s, r.v, r2.s, s', k);
      ConvStep(env, s', g3.next, ZExt, Reg(g2.next), r.v, r.v);
      s', k := ThenResult(env, f, ret, g, g3, Conv(g3.next, ZExt, Reg(g2.next)), Reg(g2.next), ss, s, r.v, r2.s, s',
                          k, r.v);
    }
  }

  lemma CurSame(g: Gen, i: Instr)
    ensures EmitNew(g, i).cur == g.cur && |EmitNew(g, i).blocks| == |g.blocks| && EmitNew(g, i).next == g.next + 1
  {}

  lemma NewKeeps(g: Gen, g2: Gen, i: Instr)
    requires Open(g2) && Keeps(g, g2) && !IsTerminator(i) && Open(g)
    ensures Open(EmitNew(g2, i)) && Keeps(g, EmitNew(g2, i))
  {
    EmitCfg(g2, i);
    KeepsTrans(g, g2, EmitNew(g2, i));
  }

  ghost predicate AllBelow(os: seq<Operand>, n: nat) {
    forall o :: o in os ==> Below(o, n)
  }

  ghost predicate XsSim(env: Env, f: seq<seq<Instr>>, ret: Option<Ty>, g: Gen, g': Gen, os: seq<Operand>, s: State,
                        r: ArgsResult, s': State, k: nat) {
    match r
    case Vals(vs, ss') =>
      && Moves(env, f, Here(g, s), Here(g', s'), k) && Rel(env, g.scope, ss', s')
      && EvalAll(env, s'.regs, os) == Some(vs) && AllBelow(os, g'.next) && RegsKept(g.next, s, s')
    case ExitArgs(w) => Finishes(env, f, Here(g, s), DefaultResult(ret), w, k)
    case BadArgs => true
  }

  /** An argument as the parameter wants it. */
  lemma ThenPass(env: Env, f: seq<seq<Instr>>, ret: Option<Ty>, g: Gen, g1: Gen, v: Operand, from: ExprTy, to: ExprTy,
                 ss: Src, s: State, x: Value, ss1: Src,
                 s1: State, k: nat)
    returns (s': State)
    requires Start(env, g, ss, s) && Open(g1) && Keeps(g, g1) && XSim(env, f, ret, g, g1, v, s, Val(x, ss1), s1, k)
             && HasTy(from, x)
    requires GenPass(v, from, to, g1).Some? && Ext(GenPass(v, from, to, g1).value.1, f) && PassAs(to, x).Some?
    ensures var (v', g') := GenPass(v, from, to, g1).value;
            XSim(env, f, ret, g, g', v', s, Val(PassAs(to, x).value, ss1), s', k) && Start(env, g', ss1, s')
            && Keeps(g, g') && Open(g')
  {
    hide Moves, ScopeOk, Ext, Open, Rel, RegsKept, Keeps, GenConv, ConvertTo;
    if from.PtrTo? {
      Between(env, f, ret, g, g1, v, ss, s, x, ss1, s1, k);
      s' := s1;
    } else {
      s' := ThenConv(env, f, ret, g, g1, v, from.t, to.t, ss, s, x, ss1, s1, k, PassAs(to, x).value);
    }
  }

  lemma PassKeeps(v: Operand, from: ExprTy, to: ExprTy, g: Gen)
    requires Open(g) && GenPass(v, from, to, g).Some?
    ensures var g' := GenPass(v, from, to, g).value.1; Open(g') && Keeps(g, g')
  {
    SelfKept(g);
    PassCfg(v, from, to, g, g);
  }

  /** Arguments, in order. */
  lemma {:induction false} SimXs(env: Env, f: seq<seq<Instr>>, xs: seq<Expr>, params: seq<ExprTy>, g: Gen,
                                 ret: Option<Ty>, ss: Src, s: State)
    returns (s': State, k: nat)
    requires Start(env, g, ss, s) && GenXs(xs, params, g, ret).Some? && Ext(GenXs(xs, params, g, ret).value.1, f)
    ensures var (os, g') := GenXs(xs, params, g, ret).value; XsSim(env, f, ret, g, g', os, s,
                                                                   EvalXs(env, params, xs, ss), s', k)
    decreases xs, 0
  {
    hide Start, Ext, Moves, Finishes, Rel, RegsKept, GenX, EvalX, Open, Keeps, TypeX, GenPass, PassAs;
    if xs == [] {
      s', k := s, 0;
      Unmoved(env, f, g, ss, s);
    } else {
      var (o, g1) := GenX(xs[0], g, ret).value;
      var ty := TypeX(xs[0], g.scope);
      var (o', g2) := GenPass(o, ty, params[0], g1).value;
      var (os, g3) := GenXs(xs[1..], params[1..], g2, ret).value;
      XCfg2(xs[0], g, ret, ss, s, env);
      PassKeeps(o, ty, params[0], g1);
      XsCfg(xs[1..], params[1..], g2, ret);
      ExtBack(g2, g3, f);
      ExtBack(g1, g2, f);
      s', k := SimX(env, f, xs[0], g, ret, ss, s);
      var r := EvalX(env, xs[0], ss);
      if r.Val? && PassAs(params[0], r.v).Some? {
        var x, k1 := PassAs(params[0], r.v).value, k;
        var s1 := ThenPass(env, f, ret, g, g1, o, ty, params[0], ss, s, r.v, r.s, s', k1);
        s', k := SimXs(env, f, xs[1..], params[1..], g2, ret, r.s, s1);
        ArgsThen(env, f, ret, g, g2, g3, o', os, s, x, r.s, s1, k1, EvalXs(env, params[1..], xs[1..], r.s), s', k);
        k := k1 + k;
      }
    }
  }

  lemma ArgsThen(env: Env, f: seq<seq<Instr>>, ret: Option<Ty>, g: Gen, g1: Gen, g2: Gen, o: Operand,
                 os: seq<Operand>, s: State, v: Value, ss1: Src, s1: State, k1: nat,
                 r: ArgsResult, s': State, k: nat)
    requires Keeps(g, g1) && Keeps(g1, g2) && XSim(env, f, ret, g, g1, o, s, Val(v, ss1), s1, k1)
             && XsSim(env, f, ret, g1, g2, os, s1, r, s', k)
    ensures XsSim(env, f, ret, g, g2, [o] + os, s, MoreArgs(v, r), s', k1 + k)
  {
    hide Moves, Finishes, Rel;
    if r.Vals? {
      MovesTrans(env, f, Here(g, s), Here(g1, s1), Here(g2, s'), k1, k);
      KeptTransRegs(g.next, g1.next, s, s1, s');
      OperandKept(env, o, g1.next, s1, s');
      assert ([o] + os)[1..] == os;
    }
    if r.ExitArgs? { MovesFinish(env, f, Here(g, s), Here(g1, s1), DefaultResult(ret), r.w, k1, k); }
  }

  lemma {:induction false} SimCall(env: Env, f: seq<seq<Instr>>, e: Expr, id: string, xs: seq<Expr>, g: Gen,
                                   ret: Option<Ty>, ss: Src, s: State)
    returns (s': State, k: nat)
    requires e == CallX(id, xs) && Start(env, g, ss, s) && GenX(e, g, ret).Some? && Ext(GenX(e, g, ret).value.1, f)
    ensures var (o, g') := GenX(e, g, ret).value; XSim(env, f, ret, g, g', o, s, EvalX(env, e, ss), s', k)
    ensures EvalX(env, e, ss).Val? ==> HasTy(TypeX(e, g.scope), EvalX(env, e, ss).v)
    decreases e, 1
  {
    hide Start, Ext, Moves, Finishes, Rel, RegsKept, Emit, Open, Keeps, Find, Lookup, VarRel;
    var b := Find(g.scope, id).value;
    var (os, g1) := GenXs(xs, b.params, g, ret).value;
    var i := Call(g1.next, b.fn, os);
    StartOpen(env, g, ss, s);
    XsCfg(xs, b.params, g, ret);
    OpenCur(g1);
    EmitBack(g1, i, f);
    FoundFun(env, g.scope, ss, s, id);
    s', k := SimXs(env, f, xs, b.params, g, ret, ss, s);
    var r := EvalXs(env, b.params, xs, ss);
    if r.Vals? {
      s', k := ThenCall(env, f, ret, g, g1, b.fn, b.ret, os, ss, s, r.vs, r.s, s', k);
    }
  }

  lemma FoundFun(env: Env, scope: Scope, ss: Src, s: State, id: string)
    requires Rel(env, scope, ss, s) && Find(scope, id).Some? && Find(scope, id).value.Fun?
    ensures var b := Find(scope, id).value; Lookup(ss.frames, id) == Some(FunVar(b.fn, b.params, b.ret))
  {
    FoundRel(env, scope, ss, s, id);
  }

  lemma ThenCall(env: Env, f: seq<seq<Instr>>, ret: Option<Ty>, g: Gen, g1: Gen, fn: nat, rt: Option<Ty>,
                 os: seq<Operand>, ss: Src, s: State, vs: seq<Value>,
                 ss1: Src, s1: State, k1: nat)
    returns (s': State, k: nat)
    requires Start(env, g, ss, s) && Open(g1) && Keeps(g, g1) && XsSim(env, f, ret, g, g1, os, s, Vals(vs, ss1), s1, k1)
    requires Ext(EmitNew(g1, Call(g1.next, fn, os)), f)
    ensures XSim(env, f, ret, g, EmitNew(g1, Call(g1.next, fn, os)), Reg(g1.next), s,
                 CallResult(env, fn, rt, vs, ss1), s', k)
  {
    hide Ext, Moves, Rel, RegsKept, Emit, Open, Keeps, ScopeOk;
    s', k := s1, k1;
    if CallResult(env, fn, rt, vs, ss1).Val? {
      var (v, w) := env.call(fn, vs, ss1.world).value;
      var i, z := Call(g1.next, fn, os), ConstInt(0);
      BetweenArgs(env, f, ret, g, g1, os, ss, s, vs, ss1, s1, k1);
      StartOpen(env, g1, ss1, s1);
      RelWorldIs(env, g1.scope, ss1, s1);
      CallStep(env, s1, g1.next, fn, os, vs, v, w);
      ThenSet(env, f, ret, g1, i, ss1, s1, v, w);
      s' := State(s1.regs[g1.next := v], s1.slots, w);
      MovesTrans(env, f, Here(g, s), Here(g1, s1), Here(EmitNew(g1, i), s'), k1, 0);
      KeptTransRegs(g.next, g1.next, s, s1, s');
    }
  }

  lemma BetweenArgs(env: Env, f: seq<seq<Instr>>, ret: Option<Ty>, g: Gen, g1: Gen, os: seq<Operand>, ss: Src,
                    s: State, vs: seq<Value>, ss1: Src, s1: State, k: nat)
    requires Start(env, g, ss, s) && Open(g1) && Keeps(g, g1) && XsSim(env, f, ret, g, g1, os, s, Vals(vs, ss1), s1, k)
    ensures Start(env, g1, ss1, s1) && g.next <= g1.next && g1.scope == g.scope
  {
    ScopeOkMore(g.scope, g.next, g1.next);
  }
}

/** Running generated code from the middle of a block, and what relates variables to their registers. */
module CodegenSim {
  import opened IR
  import opened Cminus
  import opened Codegen
  import opened CodegenCfg

  // ----- running from the middle of a block ------------------------------------------------------------------

  /** About to execute instruction `i` of block `b`. */
  datatype Point = Point(b: nat, i: nat, s: State)

  function RunFrom(env: Env, f: seq<seq<Instr>>, p: Point, fuel: nat): Outcome
    decreases fuel
  {
    if p.b >= |f| || p.i > |f[p.b]| then Outcome.Wrong
    else match ExecBody(env, f[p.b][p.i..], p.s)
      case Goto(t, s') => if fuel == 0 then OutOfFuel else RunFrom(env, f, Point(t, 0, s'), fuel - 1)
      case Return(v, w) => Done(v, w)
      case Stuck => Outcome.Wrong
  }

  /** From `p` the run gets to `q`, through `k` branches. */
  ghost predicate Moves(env: Env, f: seq<seq<Instr>>, p: Point, q: Point, k: nat) {
    && (forall fuel: nat {:trigger RunFrom(env, f, q, fuel)} :: RunFrom(env, f, p, fuel + k)
                                                                == RunFrom(env, f, q, fuel))
    && Spins(env, f, p, k)
  }

  /** From `p` the run is still going after any number of branches below `k`. */
  ghost predicate Spins(env: Env, f: seq<seq<Instr>>, p: Point, k: nat) {
    forall n: nat {:trigger RunFrom(env, f, p, n)} :: n < k ==> RunFrom(env, f, p, n) == OutOfFuel
  }

  lemma MovesSpin(env: Env, f: seq<seq<Instr>>, p: Point, q: Point, k1: nat, k2: nat)
    requires Moves(env, f, p, q, k1) && Spins(env, f, q, k2)
    ensures Spins(env, f, p, k1 + k2)
  {
    forall n: nat {:trigger RunFrom(env, f, p, n)} | n < k1 + k2 ensures RunFrom(env, f, p, n) == OutOfFuel {
      if n >= k1 {
        assert RunFrom(env, f, q, n - k1) == OutOfFuel;
        assert RunFrom(env, f, p, (n - k1) + k1) == RunFrom(env, f, q, n - k1);
      }
    }
  }

  /** From `p` the run ends with this result, after at most `k` branches. */
  ghost predicate Finishes(env: Env, f: seq<seq<Instr>>, p: Point, v: Option<Value>, w: World, k: nat) {
    forall n: nat {:trigger RunFrom(env, f, p, n)} :: n >= k ==> RunFrom(env, f, p, n) == Done(v, w)
  }

  lemma MovesTrans(env: Env, f: seq<seq<Instr>>, p: Point, q: Point, r: Point, k1: nat, k2: nat)
    requires Moves(env, f, p, q, k1) && Moves(env, f, q, r, k2)
    ensures Moves(env, f, p, r, k1 + k2)
  {
    MovesSpin(env, f, p, q, k1, k2);
    forall fuel: nat {:trigger RunFrom(env, f, r, fuel)}
      ensures RunFrom(env, f, p, fuel + (k1 + k2)) == RunFrom(env, f, r, fuel)
    {
      assert RunFrom(env, f, q, fuel + k2) == RunFrom(env, f, r, fuel);
      assert RunFrom(env, f, p, (fuel + k2) + k1) == RunFrom(env, f, q, fuel + k2);
    }
  }

  lemma MovesFinish(env: Env, f: seq<seq<Instr>>, p: Point, q: Point, v: Option<Value>, w: World, k1: nat, k2: nat)
    requires Moves(env, f, p, q, k1) && Finishes(env, f, q, v, w, k2)
    ensures Finishes(env, f, p, v, w, k1 + k2)
  {
    forall n: nat {:trigger RunFrom(env, f, p, n)} | n >= k1 + k2 ensures RunFrom(env, f, p, n) == Done(v, w) {
      assert RunFrom(env, f, q, n - k1) == Done(v, w);
      assert RunFrom(env, f, p, (n - k1) + k1) == RunFrom(env, f, q, n - k1);
    }
  }

  lemma MovesSelf(env: Env, f: seq<seq<Instr>>, p: Point)
    ensures Moves(env, f, p, p, 0)
  {}

  /** One instruction. */
  lemma StepMoves(env: Env, f: seq<seq<Instr>>, p: Point, s': State)
    requires p.b < |f| && p.i < |f[p.b]| && !IsTerminator(f[p.b][p.i]) && Step(env, f[p.b][p.i], p.s) == Some(s')
    ensures Moves(env, f, p, Point(p.b, p.i + 1, s'), 0)
  {
    hide Step;
    assert f[p.b][p.i..] == [f[p.b][p.i]] + f[p.b][p.i + 1..];
    assert f[p.b][p.i..][1..] == f[p.b][p.i + 1..];
    assert ExecBody(env, f[p.b][p.i..], p.s) == ExecBody(env, f[p.b][p.i + 1..], s');
  }

  /** A branch. */
  lemma GotoMoves(env: Env, f: seq<seq<Instr>>, p: Point, t: nat)
    requires p.b < |f| && p.i < |f[p.b]| && IsTerminator(f[p.b][p.i]) && End(env, f[p.b][p.i], p.s) == Goto(t, p.s)
    ensures Moves(env, f, p, Point(t, 0, p.s), 1)
  {
    assert ExecBody(env, f[p.b][p.i..], p.s) == Goto(t, p.s);
  }

  lemma ReturnFinishes(env: Env, f: seq<seq<Instr>>, p: Point, v: Option<Value>, w: World)
    requires p.b < |f| && p.i < |f[p.b]| && IsTerminator(f[p.b][p.i]) && End(env, f[p.b][p.i], p.s) == Return(v, w)
    ensures Finishes(env, f, p, v, w, 0)
  {
    assert ExecBody(env, f[p.b][p.i..], p.s) == Return(v, w);
  }

  // ----- generated code inside the finished function -----------------------------------------------------------

  /** `f` is what the blocks have become in the end. */
  ghost predicate Ext(g: Gen, f: seq<seq<Instr>>) {
    |g.blocks| <= |f| && forall b {:trigger f[b]} {:trigger g.blocks[b]} :: 0 <= b < |g.blocks| ==> g.blocks[b] <= f[b]
  }

  lemma ExtKeeps(g: Gen, g': Gen, f: seq<seq<Instr>>)
    requires Grown(g, g') && Ext(g', f)
    ensures Ext(g, f)
  {
    forall b {:trigger f[b]} | 0 <= b < |g.blocks| ensures g.blocks[b] <= f[b] { assert g.blocks[b] <= g'.blocks[b]; }
  }

  /** Where the next instruction will go. */
  function Here(g: Gen, s: State): Point {
    Point(g.cur, if g.cur < |g.blocks| then |g.blocks[g.cur]| else 0, s)
  }

  /** An emitted instruction is found in the finished function. */
  lemma Emitted(g: Gen, i: Instr, f: seq<seq<Instr>>)
    requires g.cur < |g.blocks| && Ext(Emit(g, i), f)
    ensures Ext(g, f) && |g.blocks[g.cur]| < |f[g.cur]| && f[g.cur][|g.blocks[g.cur]|] == i
  {
    var h := Emit(g, i);
    assert h.blocks[g.cur] <= f[g.cur] && h.blocks[g.cur][|g.blocks[g.cur]|] == i;
    forall b {:trigger f[b]} | 0 <= b < |g.blocks| ensures g.blocks[b] <= f[b] { assert g.blocks[b] <= h.blocks[b]; }
  }

  /** Executing an emitted instruction. */
  lemma EmitMoves(env: Env, g: Gen, i: Instr, f: seq<seq<Instr>>, s: State, s': State)
    requires g.cur < |g.blocks| && Ext(Emit(g, i), f) && !IsTerminator(i) && Step(env, i, s) == Some(s')
    ensures Moves(env, f, Here(g, s), Here(Emit(g, i), s'), 0) && Moves(env, f, Here(g, s), Here(EmitNew(g, i), s'), 0)
  {
    hide Step;
    Emitted(g, i, f);
    StepMoves(env, f, Here(g, s), s');
  }

  // ----- variables -----------------------------------------------------------------------------------------------

  predicate SlotIs(s: State, d: nat, x: Option<Value>) {
    match x case None => d !in s.slots case Some(v) => d in s.slots && s.slots[d] == v
  }

  /** The binding of a name leads to what the name stands for. */
  predicate VarRel(env: Env, v: Var, b: Binding, s: State) {
    match (v, b)
    case (NumVar(t, x), Mem(Reg(d), NumK(t'))) =>
      t == t' && d in s.regs && s.regs[d] == SlotPtr(d, SlotFor(t)) && SlotIs(s, d, x)
    case (PtrVar(t, x), Mem(Reg(d), PtrK(t'))) =>
      t == t' && d in s.regs && s.regs[d] == SlotPtr(d, PtrSlot) && SlotIs(s, d, x)
    case (ArrVar(t, site), Mem(Reg(d), ArrK(t'))) =>
      t == t' && d == site && d in s.regs && s.regs[d] == Ptr(LocalArray(env.depth, d), 0)
    case (GlobalNum(t, k), Mem(GlobalAddr(m), NumK(t'))) => t == t' && k == m
    case (GlobalArr(t, k), Mem(GlobalAddr(m), ArrK(t'))) => t == t' && k == m
    case (FunVar(fn, ps, r), Fun(fn', ps', r')) => fn == fn' && ps == ps' && r == r'
    case _ => false
  }

  ghost predicate LevelRel(env: Env, frame: map<string, Var>, names: map<string, Binding>, s: State) {
    frame.Keys == names.Keys && forall id :: id in frame ==> VarRel(env, frame[id], names[id], s)
  }

  ghost predicate Rel(env: Env, scope: Scope, ss: Src, s: State) {
    && ss.world == s.world && |ss.frames| == |scope|
    && (forall k :: 0 <= k < |scope| ==> LevelRel(env, ss.frames[k], scope[k], s))
  }

  /** The register behind a local name. */
  function Home(b: Binding): Option<nat> {
    match b case Mem(Reg(d), _) => Some(d) case _ => None
  }

  ghost predicate Holds(scope: Scope, k: int, id: string, d: nat) {
    0 <= k < |scope| && id in scope[k] && Home(scope[k][id]) == Some(d)
  }

  /** Local names have registers of their own, below `next`. */
  ghost predicate ScopeOk(scope: Scope, next: nat) {
    && (forall k, id, d: nat {:trigger Holds(scope, k, id, d)} :: Holds(scope, k, id, d) ==> d < next)
    && (forall k, id, k', id', d: nat {:trigger Holds(scope, k, id, d), Holds(scope, k', id', d)} ::
          Holds(scope, k, id, d) && Holds(scope, k', id', d) ==> k == k' && id == id')
  }

  /** The innermost level that knows the name. */
  function Level(scope: Scope, id: string): Option<nat> {
    if scope == [] then None
    else if id in scope[|scope| - 1] then Some(|scope| - 1)
    else Level(scope[..|scope| - 1], id)
  }

  lemma {:induction false} LevelIs(env: Env, scope: Scope, frames: Frames, id: string, v: Var)
    requires |frames| == |scope| && forall k :: 0 <= k < |scope| ==> frames[k].Keys == scope[k].Keys
    ensures Level(scope, id).None? ==> Find(scope, id).None? && Lookup(frames, id).None?
    ensures var l := Level(scope, id);
            l.Some? ==> l.value < |scope| && id in scope[l.value] && Find(scope, id) == Some(scope[l.value][id])
                        && Lookup(frames, id) == Some(frames[l.value][id])
                        && Update(frames, id, v) == frames[l.value := frames[l.value][id := v]]
    decreases |scope|
  {
    if scope != [] {
      var k := |scope| - 1;
      assert frames[k].Keys == scope[k].Keys;
      if id !in scope[k] {
        LevelIs(env, scope[..k], frames[..k], id, v);
        if Level(scope, id).Some? {
          var l := Level(scope, id).value;
          assert frames[..k][l := frames[..k][l][id := v]] + [frames[k]] == frames[l := frames[l][id := v]];
        }
      } else {
        assert frames[..k] + [frames[k][id := v]] == frames[k := frames[k][id := v]];
      }
    }
  }

  /** A name is known to both sides or to neither, and stands for the same. */
  lemma FoundRel(env: Env, scope: Scope, ss: Src, s: State, id: string)
    requires Rel(env, scope, ss, s)
    ensures Find(scope, id).None? <==> Lookup(ss.frames, id).None?
    ensures Find(scope, id).Some? ==> VarRel(env, Lookup(ss.frames, id).value, Find(scope, id).value, s)
  {
    hide VarRel;
    forall k | 0 <= k < |scope|
      ensures ss.frames[k].Keys == scope[k].Keys
    {
      assert LevelRel(env, ss.frames[k], scope[k], s);
    }
    LevelIs(env, scope, ss.frames, id, FunVar(0, [], None));
    var l := Level(scope, id);
    if l.Some? { assert LevelRel(env, ss.frames[l.value], scope[l.value], s); }
  }

  lemma {:induction false} LevelFind(scope: Scope, id: string)
    ensures Level(scope, id).Some? <==> Find(scope, id).Some?
    ensures Find(scope, id).Some? ==> var l := Level(scope, id).value;
            l < |scope| && id in scope[l] && Find(scope, id) == Some(scope[l][id])
    decreases |scope|
  {
    if scope != [] && id !in scope[|scope| - 1] { LevelFind(scope[..|scope| - 1], id); }
  }

  /** Registers below `n` keep their values. */
  ghost predicate RegsKept(n: nat, s: State, s': State) {
    forall r :: r < n && r in s.regs ==> r in s'.regs && s'.regs[r] == s.regs[r]
  }

  lemma KeptTransRegs(n: nat, n': nat, s: State, s1: State, s2: State)
    requires RegsKept(n, s, s1) && RegsKept(n', s1, s2) && n <= n'
    ensures RegsKept(n, s, s2)
  {}

  ghost predicate Below(o: Operand, n: nat) {
    o.Reg? ==> o.r < n
  }

  lemma OperandKept(env: Env, o: Operand, n: nat, s: State, s': State)
    requires RegsKept(n, s, s') && Below(o, n) && Eval(env, s.regs, o).Some?
    ensures Eval(env, s'.regs, o) == Eval(env, s.regs, o)
  {}

  /** Setting a new register, or the world, disturbs no variable. */
  lemma RelSet(env: Env, scope: Scope, next: nat, ss: Src, s: State, d: nat, v: Value, w: World)
    requires Rel(env, scope, ss, s) && ScopeOk(scope, next) && d >= next
    ensures Rel(env, scope, ss.(world := w), State(s.regs[d := v], s.slots, w))
    ensures RegsKept(next, s, State(s.regs[d := v], s.slots, w))
  {
    var s' := State(s.regs[d := v], s.slots, w);
    forall k | 0 <= k < |scope| ensures LevelRel(env, ss.frames[k], scope[k], s') {
      assert LevelRel(env, ss.frames[k], scope[k], s);
      forall id | id in scope[k] ensures VarRel(env, ss.frames[k][id], scope[k][id], s') {
        assert VarRel(env, ss.frames[k][id], scope[k][id], s);
        if Home(scope[k][id]).Some? { assert Holds(scope, k, id, Home(scope[k][id]).value); }
      }
    }
  }

  lemma RelWorld(env: Env, scope: Scope, ss: Src, s: State, w: World)
    requires Rel(env, scope, ss, s)
    ensures Rel(env, scope, ss.(world := w), s.(world := w))
  {
    var s' := s.(world := w);
    forall k | 0 <= k < |scope| ensures LevelRel(env, ss.frames[k], scope[k], s') {
      assert LevelRel(env, ss.frames[k], scope[k], s);
    }
  }

  /** Storing to the slot of a number variable changes that variable and no other. */
  lemma RelAssign(env: Env, scope: Scope, next: nat, ss: Src, s: State, id: string, d: nat, t: Ty, v: Value)
    requires Rel(env, scope, ss, s) && ScopeOk(scope, next) && Find(scope, id) == Some(Mem(Reg(d), NumK(t)))
    ensures Rel(env, scope, ss.(frames := Update(ss.frames, id, NumVar(t, Some(v)))), s.(slots := s.slots[d := v]))
  {
    forall k | 0 <= k < |scope|
      ensures ss.frames[k].Keys == scope[k].Keys
    {
      assert LevelRel(env, ss.frames[k], scope[k], s);
    }
    LevelIs(env, scope, ss.frames, id, NumVar(t, Some(v)));
    var l := Level(scope, id).value;
    var frames', s' := ss.frames[l := ss.frames[l][id := NumVar(t, Some(v))]], s.(slots := s.slots[d := v]);
    assert Holds(scope, l, id, d);
    forall k | 0 <= k < |scope| ensures LevelRel(env, frames'[k], scope[k], s') {
      assert LevelRel(env, ss.frames[k], scope[k], s);
      forall x | x in scope[k] ensures VarRel(env, frames'[k][x], scope[k][x], s') {
        assert VarRel(env, ss.frames[k][x], scope[k][x], s);
        if k != l || x != id {
          if Home(scope[k][x]) == Some(d) { assert Holds(scope, k, x, d); }
        }
      }
      assert frames'[k].Keys == scope[k].Keys;
    }
  }
}

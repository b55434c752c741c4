/** Whole programs: functions that call each other, as written and as compiled. */
module Program {
  import opened IR
  import opened Cminus
  import opened Codegen
  import opened CodegenStmt
  import opened Purity

  // ----- calls that answer more -----------------------------------------------------------------------------

  /** Wherever the calls of `env` return, those of `env'` return the same. */
  ghost predicate Refines(env: Env, env': Env) {
    && env'.args == env.args && env'.depth == env.depth
    && forall fn, vs, w :: env.call(fn, vs, w).Some? ==> env'.call(fn, vs, w) == env.call(fn, vs, w)
  }

  lemma SameArgs(env: Env, env': Env)
    requires Refines(env, env')
    ensures env'.args == env.args
  {}

  lemma {:induction false} RefinedEval(env: Env, env': Env, regs: map<nat, Value>, os: seq<Operand>)
    requires env'.args == env.args
    ensures EvalAll(env', regs, os) == EvalAll(env, regs, os)
  {
    if os != [] { RefinedEval(env, env', regs, os[1..]); }
  }

  lemma RefinedStep(env: Env, env': Env, i: Instr, s: State)
    requires Refines(env, env') && Step(env, i, s).Some?
    ensures Step(env', i, s) == Step(env, i, s)
  {
    RefinedEval(env, env', s.regs, Operands(i));
  }

  lemma RefinedEnd(env: Env, env': Env, i: Instr, s: State)
    requires env'.args == env.args
    ensures End(env', i, s) == End(env, i, s)
  {}

  lemma {:induction false} RefinedBody(env: Env, env': Env, body: seq<Instr>, s: State)
    requires Refines(env, env') && !ExecBody(env, body, s).Stuck?
    ensures ExecBody(env', body, s) == ExecBody(env, body, s)
    decreases body
  {
    hide Step, End, Refines;
    if IsTerminator(body[0]) {
      SameArgs(env, env');
      RefinedEnd(env, env', body[0], s);
    } else {
      RefinedStep(env, env', body[0], s);
      RefinedBody(env, env', body[1..], Step(env, body[0], s).value);
    }
  }

  lemma {:induction false} RefinedPhis(env: Env, env': Env, phis: seq<Phi>, from: nat, before: map<nat, Value>,
                                       regs: map<nat, Value>)
    requires env'.args == env.args
    ensures EnterPhis(env', phis, from, before, regs) == EnterPhis(env, phis, from, before, regs)
    decreases phis
  {
    if phis != [] {
      var o := PairFor(phis[0].pairs, from);
      var regs' := match o
        case None => regs - {phis[0].dst}
        case Some(x) => (match Eval(env, before, x) case None => regs - {phis[0].dst} case Some(v) =>
                         regs[phis[0].dst := v]);
      RefinedPhis(env, env', phis[1..], from, before, regs');
    }
  }

  /** A run that returns, returns the same when calls answer more. */
  lemma {:induction false} RefinedRun(env: Env, env': Env, f: seq<Block>, b: nat, from: nat, s: State, fuel: nat)
    requires Refines(env, env') && Run(env, f, b, from, s, fuel).Done?
    ensures Run(env', f, b, from, s, fuel) == Run(env, f, b, from, s, fuel)
    decreases fuel
  {
    hide Refines, EnterPhis, ExecBody;
    SameArgs(env, env');
    RefinedPhis(env, env', f[b].phis, from, s.regs, s.regs);
    var s1 := s.(regs := EnterPhis(env, f[b].phis, from, s.regs, s.regs));
    RefinedBody(env, env', f[b].body, s1);
    var n := RunBlock(env, f[b], from, s);
    if n.Goto? { RefinedRun(env, env', f, n.to, b, n.s, fuel - 1); }
  }

  /** More fuel changes nothing once a run has returned. */
  lemma {:induction false} MoreFuel(env: Env, f: seq<Block>, b: nat, from: nat, s: State, n: nat, m: nat)
    requires Run(env, f, b, from, s, n).Done? && n <= m
    ensures Run(env, f, b, from, s, m) == Run(env, f, b, from, s, n)
    decreases n
  {
    hide RunBlock;
    var k := RunBlock(env, f[b], from, s);
    if k.Goto? { MoreFuel(env, f, k.to, b, k.s, n - 1, m - 1); }
  }

  // ----- programs -------------------------------------------------------------------------------------------

  /** The code does what the function does, whatever functions it calls, in every run that returns. */
  ghost predicate Implements(fd: FunDecl, vars: map<string, Var>, code: seq<Block>) {
    forall env, w, n {:trigger ExecFun(env, fd, vars, w, n)} :: ExecFun(env, fd, vars, w, n).Returns? ==>
      exists m :: RunFunction(env, code, w, m) == Done(ExecFun(env, fd, vars, w, n).v, ExecFun(env, fd, vars, w, n).w)
  }

  /** Generated code implements its function. */
  lemma GeneratedImplements(fd: FunDecl, vars: map<string, Var>, names: map<string, Binding>, base: nat)
    requires GenFun(fd, names, base).Some? && GlobalsOk(vars, names) && SourceOk(fd, base)
    ensures Implements(fd, vars, BlocksOf(GenFun(fd, names, base).value))
  {
    hide ExecFun, RunFunction, GlobalsOk, SourceOk;
    forall env, w, n {:trigger ExecFun(env, fd, vars, w, n)} | ExecFun(env, fd, vars, w, n).Returns?
      ensures exists m :: RunFunction(env, BlocksOf(GenFun(fd, names, base).value), w, m)
                          == Done(ExecFun(env, fd, vars, w, n).v, ExecFun(env, fd, vars, w, n).w)
    {
      var m := CodegenPreservesMeaning(env, fd, vars, names, base, w, n);
      assert RunFunction(env, BlocksOf(GenFun(fd, names, base).value), w, m)
             == Done(ExecFun(env, fd, vars, w, n).v, ExecFun(env, fd, vars, w, n).w);
    }
  }

  /** Functions with the variables each of them sees, and code for each. They are numbered from `first` on;
      functions of other numbers are defined elsewhere. */
  datatype Program = Linked(first: nat, funs: seq<FunDecl>, vars: seq<map<string, Var>>, code: seq<seq<Block>>)

  ghost predicate ProgramOk(p: Program) {
    && |p.vars| == |p.code| == |p.funs|
    && forall k: nat {:trigger p.code[k]} :: k < |p.funs| ==> Implements(p.funs[k], p.vars[k], p.code[k])
  }

  function ValueOf(v: Option<Value>): Value {
    if v.Some? then v.value else Int(0)
  }

  /** What a function returns when it is run as written, if it returns. */
  ghost function SrcRun(env: Env, fd: FunDecl, vars: map<string, Var>, w: World): Option<(Value, World)> {
    if exists n :: ExecFun(env, fd, vars, w, n).Returns? then
      var n :| ExecFun(env, fd, vars, w, n).Returns?;
      var r := ExecFun(env, fd, vars, w, n);
      Some((ValueOf(r.v), DropFrame(r.w, env.depth)))
    else None
  }

  ghost function CodeRun(env: Env, code: seq<Block>, w: World): Option<(Value, World)> {
    if exists n :: RunFunction(env, code, w, n).Done? then
      var n :| RunFunction(env, code, w, n).Done?;
      var r := RunFunction(env, code, w, n);
      Some((ValueOf(r.v), DropFrame(r.w, env.depth)))
    else None
  }

  predicate Inside(p: Program, fn: nat) {
    p.first <= fn < p.first + |p.funs|
  }

  /** The result of a call of function `fn` as written, with calls nested at most `k` deep; functions
      defined elsewhere are left to `ext`. None when the call does not return. */
  ghost function SrcCall(p: Program, ext: Oracle, depth: nat, k: nat, fn: nat, vs: seq<Value>,
                         w: World): Option<(Value, World)>
    requires |p.vars| == |p.funs|
    decreases k, 1
  {
    if !Inside(p, fn) then ext(fn, vs, w)
    else if k == 0 then None
    else SrcRun(SrcEnv(p, ext, depth, k, vs), p.funs[fn - p.first], p.vars[fn - p.first], w)
  }

  ghost function SrcEnv(p: Program, ext: Oracle, depth: nat, k: nat, vs: seq<Value>): Env
    requires |p.vars| == |p.funs| && k > 0
    decreases k, 0
  {
    Env(vs, depth, (f: nat, a: seq<Value>, w: World) => SrcCall(p, ext, depth + 1, k - 1, f, a, w))
  }

  /** The same of the compiled code. */
  ghost function CodeCall(p: Program, ext: Oracle, depth: nat, k: nat, fn: nat, vs: seq<Value>,
                          w: World): Option<(Value, World)>
    requires |p.code| == |p.funs|
    decreases k, 1
  {
    if !Inside(p, fn) then ext(fn, vs, w)
    else if k == 0 then None
    else CodeRun(CodeEnv(p, ext, depth, k, vs), p.code[fn - p.first], w)
  }

  ghost function CodeEnv(p: Program, ext: Oracle, depth: nat, k: nat, vs: seq<Value>): Env
    requires |p.code| == |p.funs| && k > 0
    decreases k, 0
  {
    Env(vs, depth, (f: nat, a: seq<Value>, w: World) => CodeCall(p, ext, depth + 1, k - 1, f, a, w))
  }

  /** Two runs of the same code that return, return the same. */
  lemma SameResult(env: Env, f: seq<Block>, w: World, n: nat, m: nat)
    requires RunFunction(env, f, w, n).Done? && RunFunction(env, f, w, m).Done?
    ensures RunFunction(env, f, w, n) == RunFunction(env, f, w, m)
  {
    if n <= m {
      MoreFuel(env, f, 0, 0, State(map[], map[], w), n, m);
    } else {
      MoreFuel(env, f, 0, 0, State(map[], map[], w), m, n);
    }
  }

  /** Separate compilation is correct: when the code of each function implements it, a call that returns
      in the source, through any depth of calls and recursion, returns the same value and the same world
      in the compiled program. */
  lemma {:induction false} ProgramPreservesMeaning(p: Program, ext: Oracle, depth: nat, k: nat, fn: nat,
                                                   vs: seq<Value>, w: World)
    requires ProgramOk(p) && SrcCall(p, ext, depth, k, fn, vs, w).Some?
    ensures CodeCall(p, ext, depth, k, fn, vs, w) == SrcCall(p, ext, depth, k, fn, vs, w)
    decreases k, 1
  {
    hide SrcRun, CodeRun, Implements, Refines;
    if Inside(p, fn) {
      CallsRefine(p, ext, depth, k, vs);
      RunAs(SrcEnv(p, ext, depth, k, vs), CodeEnv(p, ext, depth, k, vs), p.funs[fn - p.first], p.vars[fn - p.first],
            p.code[fn - p.first], w);
    }
  }

  /** One activation, when the calls in it are answered alike. */
  lemma RunAs(src: Env, env: Env, fd: FunDecl, vars: map<string, Var>, code: seq<Block>, w: World)
    requires Implements(fd, vars, code) && Refines(src, env) && SrcRun(src, fd, vars, w).Some?
    ensures CodeRun(env, code, w) == SrcRun(src, fd, vars, w)
  {
    hide ExecFun, RunFunction;
    var n :| ExecFun(src, fd, vars, w, n).Returns?
             && (var r := ExecFun(src, fd, vars, w, n); SrcRun(src, fd, vars, w)
                                                        == Some((ValueOf(r.v), DropFrame(r.w, src.depth))));
    var r := ExecFun(src, fd, vars, w, n);
    var m :| RunFunction(src, code, w, m) == Done(r.v, r.w);
    RefinedFunction(src, env, code, w, m);
    forall j | RunFunction(env, code, w, j).Done? ensures RunFunction(env, code, w, j) == RunFunction(env, code, w, m) {
      SameResult(env, code, w, j, m);
    }
  }

  lemma RefinedFunction(env: Env, env': Env, f: seq<Block>, w: World, fuel: nat)
    requires Refines(env, env') && RunFunction(env, f, w, fuel).Done?
    ensures RunFunction(env', f, w, fuel) == RunFunction(env, f, w, fuel)
  {
    RefinedRun(env, env', f, 0, 0, State(map[], map[], w), fuel);
  }

  lemma {:induction false} CallsRefine(p: Program, ext: Oracle, depth: nat, k: nat, vs: seq<Value>)
    requires ProgramOk(p) && k > 0
    ensures Refines(SrcEnv(p, ext, depth, k, vs), CodeEnv(p, ext, depth, k, vs))
    decreases k, 0
  {
    hide SrcCall, CodeCall, Implements;
    var src, code := SrcEnv(p, ext, depth, k, vs), CodeEnv(p, ext, depth, k, vs);
    forall f, a, x | src.call(f, a, x).Some? ensures code.call(f, a, x) == src.call(f, a, x) {
      ProgramPreservesMeaning(p, ext, depth + 1, k - 1, f, a, x);
    }
  }
}

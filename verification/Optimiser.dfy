/** From source programs to optimised modules: SSA construction, dead-code removal and value numbering
    one after the other. */
module Optimiser {
  import opened IR
  import opened Cminus
  import opened Codegen
  import opened CodegenStmt
  import opened CodegenDefs
  import opened Program
  import opened FuncInfo
  import opened Purity
  import opened Types
  import opened Typing
  import opened Modules
  import D = DeadCode
  import C = PlainCode
  import T = GvnTransfer
  import N = Gvn
  import V = GvnTypes
  import L = Pipeline

  // ----- enough fuel ----------------------------------------------------------------------------------------------

  /** Source functions and the module of their code: first the functions that are only declared. */
  ghost predicate ModuleFor(p: Program, m: Module) {
    && |p.vars| == |p.code| == |p.funs| && |m| == p.first + |p.funs|
    && (forall f: nat :: f < p.first ==> m[f].blocks == [])
    && (forall f: nat {:trigger p.code[f]} :: f < |p.funs| ==> m[p.first + f].blocks == p.code[f] != [])
  }

  /** Only functions of the module are called. */
  ghost predicate ExtInside(m: Module, ext: Oracle) {
    forall fn: nat, vs, w :: ext(fn, vs, w).Some? ==> fn < |m|
  }

  /** More fuel changes no call that returns. */
  lemma {:induction false} MoreFuelCall(m: Module, ext: Oracle, depth: nat, k: nat, n: nat, n': nat, fn: nat,
                                        vs: seq<Value>, w: World)
    requires n <= n' && CallFn(m, ext, depth, k, n, fn, vs, w).Some?
    ensures CallFn(m, ext, depth, k, n', fn, vs, w) == CallFn(m, ext, depth, k, n, fn, vs, w)
    decreases k, 1
  {
    hide Refines, Run;
    if m[fn].blocks != [] {
      var env, env' := Activation(m, ext, depth, k, n, vs), Activation(m, ext, depth, k, n', vs);
      MoreFuelRefines(m, ext, depth, k, n, n', vs);
      RefinedFunction(env, env', m[fn].blocks, w, n);
      MoreFuel(env', m[fn].blocks, 0, 0, State(map[], map[], w), n, n');
    }
  }

  lemma {:induction false} MoreFuelRefines(m: Module, ext: Oracle, depth: nat, k: nat, n: nat, n': nat, vs: seq<Value>)
    requires n <= n' && k > 0
    ensures Refines(Activation(m, ext, depth, k, n, vs), Activation(m, ext, depth, k, n', vs))
    decreases k, 0
  {
    hide CallFn;
    var env, env' := Activation(m, ext, depth, k, n, vs), Activation(m, ext, depth, k, n', vs);
    forall fn, a, w | env.call(fn, a, w).Some? ensures env'.call(fn, a, w) == env.call(fn, a, w) {
      MoreFuelCall(m, ext, depth + 1, k - 1, n, n', fn, a, w);
    }
  }

  /** A call that returns when runs may be as long as they like, returns within some fuel. */
  lemma {:induction false} CallFuel(p: Program, m: Module, ext: Oracle, depth: nat, k: nat, fn: nat, vs: seq<Value>,
                                    w: World) returns (n: nat)
    requires ModuleFor(p, m) && ExtInside(m, ext) && CodeCall(p, ext, depth, k, fn, vs, w).Some?
    ensures CallFn(m, ext, depth, k, n, fn, vs, w) == CodeCall(p, ext, depth, k, fn, vs, w)
    decreases k, 2, 0
  {
    hide Refines, Run, ExtInside;
    n := 0;
    if !Inside(p, fn) {
      assert fn < |m| by { CalleeInside(m, ext, fn, vs, w); }
      assert m[fn].blocks == [];
    } else {
      var env, f := CodeEnv(p, ext, depth, k, vs), p.code[fn - p.first];
      assert m[p.first + (fn - p.first)].blocks == f != [];
      var j: nat :| RunFunction(env, f, w, j).Done?
        && CodeRun(env, f, w) == Some((ValueOf(RunFunction(env, f, w, j).v),
                                       DropFrame(RunFunction(env, f, w, j).w, depth)));
      var i := RunFuel(p, m, ext, depth, k, vs, f, 0, 0, State(map[], map[], w), j);
      n := if i < j then j else i;
      MoreFuelRefines(m, ext, depth, k, i, n, vs);
      var env' := Activation(m, ext, depth, k, n, vs);
      RefinedFunction(Activation(m, ext, depth, k, i, vs), env', f, w, j);
      MoreFuel(env', f, 0, 0, State(map[], map[], w), j, n);
      assert RunFunction(env', f, w, n) == RunFunction(env, f, w, j);
      assert m[fn].blocks == f;
      CallIsRun(m, ext, depth, k, n, fn, vs, w);
    }
  }

  lemma CallIsRun(m: Module, ext: Oracle, depth: nat, k: nat, n: nat, fn: nat, vs: seq<Value>, w: World)
    requires fn < |m| && m[fn].blocks != [] && k > 0
    requires RunFunction(Activation(m, ext, depth, k, n, vs), m[fn].blocks, w, n).Done?
    ensures var r := RunFunction(Activation(m, ext, depth, k, n, vs), m[fn].blocks, w, n);
            CallFn(m, ext, depth, k, n, fn, vs, w) == Some((ValueOf(r.v), DropFrame(r.w, depth)))
  {
    hide Run, DropFrame;
  }

  lemma CalleeInside(m: Module, ext: Oracle, fn: nat, vs: seq<Value>, w: World)
    requires ExtInside(m, ext) && ext(fn, vs, w).Some?
    ensures fn < |m|
  {}

  lemma {:induction false} RunFuel(p: Program, m: Module, ext: Oracle, depth: nat, k: nat, vs: seq<Value>,
                                   f: seq<Block>, b: nat, from: nat, s: State, j: nat) returns (n: nat)
    requires ModuleFor(p, m) && ExtInside(m, ext) && k > 0
    requires Run(CodeEnv(p, ext, depth, k, vs), f, b, from, s, j).Done?
    ensures Run(Activation(m, ext, depth, k, n, vs), f, b, from, s, j)
            == Run(CodeEnv(p, ext, depth, k, vs), f, b, from, s, j)
    decreases k, 1, j
  {
    hide ExtInside, Refines, ExecBody, EnterPhis, CallFn, CodeCall;
    var env := CodeEnv(p, ext, depth, k, vs);
    var s1 := s.(regs := EnterPhis(env, f[b].phis, from, s.regs, s.regs));
    n := BodyFuel(p, m, ext, depth, k, vs, f[b].body, s1);
    var next := RunBlock(env, f[b], from, s);
    if next.Goto? {
      var i := RunFuel(p, m, ext, depth, k, vs, f, next.to, b, next.s, j - 1);
      var l := n;
      n := if i < l then l else i;
      MoreFuelRefines(m, ext, depth, k, i, n, vs);
      MoreFuelRefines(m, ext, depth, k, l, n, vs);
      RefinedRun(Activation(m, ext, depth, k, i, vs), Activation(m, ext, depth, k, n, vs), f, next.to, b, next.s,
                 j - 1);
      RefinedBody(Activation(m, ext, depth, k, l, vs), Activation(m, ext, depth, k, n, vs), f[b].body, s1);
    }
    RefinedPhis(env, Activation(m, ext, depth, k, n, vs), f[b].phis, from, s.regs, s.regs);
  }

  lemma {:induction false} BodyFuel(p: Program, m: Module, ext: Oracle, depth: nat, k: nat, vs: seq<Value>,
                                    body: seq<Instr>, s: State) returns (n: nat)
    requires ModuleFor(p, m) && ExtInside(m, ext) && k > 0
    requires !ExecBody(CodeEnv(p, ext, depth, k, vs), body, s).Stuck?
    ensures ExecBody(Activation(m, ext, depth, k, n, vs), body, s) == ExecBody(CodeEnv(p, ext, depth, k, vs), body, s)
    decreases k, 0, |body|
  {
    hide ExtInside, Refines, Step, End, CallFn, CodeCall;
    var env := CodeEnv(p, ext, depth, k, vs);
    n := 0;
    if IsTerminator(body[0]) {
      RefinedEnd(env, Activation(m, ext, depth, k, n, vs), body[0], s);
    } else {
      var l := StepFuel(p, m, ext, depth, k, vs, body[0], s);
      var s1 := Step(env, body[0], s).value;
      var i := BodyFuel(p, m, ext, depth, k, vs, body[1..], s1);
      n := if i < l then l else i;
      MoreFuelRefines(m, ext, depth, k, i, n, vs);
      MoreFuelRefines(m, ext, depth, k, l, n, vs);
      RefinedStep(Activation(m, ext, depth, k, l, vs), Activation(m, ext, depth, k, n, vs), body[0], s);
      RefinedBody(Activation(m, ext, depth, k, i, vs), Activation(m, ext, depth, k, n, vs), body[1..], s1);
    }
  }

  lemma {:induction false} StepFuel(p: Program, m: Module, ext: Oracle, depth: nat, k: nat, vs: seq<Value>, i: Instr,
                                    s: State) returns (n: nat)
    requires ModuleFor(p, m) && ExtInside(m, ext) && k > 0 && Step(CodeEnv(p, ext, depth, k, vs), i, s).Some?
    ensures Step(Activation(m, ext, depth, k, n, vs), i, s) == Step(CodeEnv(p, ext, depth, k, vs), i, s)
    decreases k - 1, 3
  {
    hide ExtInside, CallFn, CodeCall;
    var env := CodeEnv(p, ext, depth, k, vs);
    n := 0;
    if i.Call? {
      n := CallFuel(p, m, ext, depth + 1, k - 1, i.fn, EvalAll(env, s.regs, Operands(i)).value, s.world);
    }
    RefinedEval(env, Activation(m, ext, depth, k, n, vs), s.regs, Operands(i));
  }

  // ----- compiled programs ----------------------------------------------------------------------------------------

  /** The code is the SSA form of what is generated for the function. */
  ghost predicate CompiledFrom(sigs: Sigs, fd: FunDecl, vars: map<string, Var>, fn: Function) {
    exists names, base ::
      && L.MadeFrom(fn.blocks, fd, names, base) && GlobalsOk(vars, names) && fn.params == ParamsOf(fd.params)
      && L.CallsFit(sigs, fd, names, base)
  }

  ghost predicate CompiledProgram(p: Program, m: Module) {
    ModuleFor(p, m) && forall f: nat {:trigger p.code[f]} :: f < |p.funs| ==>
      CompiledFrom(SigsOf(m), p.funs[f], p.vars[f], m[p.first + f])
  }

  lemma FunctionIsCompiled(sigs: Sigs, fd: FunDecl, vars: map<string, Var>, fn: Function)
    requires CompiledFrom(sigs, fd, vars, fn)
    ensures L.Compiled(fn) && Implements(fd, vars, fn.blocks)
    ensures FunctionTyped(sigs, fn)
  {
    hide GlobalsOk, L.CallsFit, Implements, CodeTyped, L.MadeBy, OwnSitesOf, NamesOk;
    var names, base :| L.MadeFrom(fn.blocks, fd, names, base) && GlobalsOk(vars, names)
      && fn.params == ParamsOf(fd.params) && L.CallsFit(sigs, fd, names, base);
    L.MadeImplements(fn.blocks, fd, vars, names, base);
    L.MadeIsTyped(sigs, fn.blocks, fd, names, base);
  }

  lemma DeclarationTyped(sigs: Sigs, fn: Function)
    requires fn.blocks == []
    ensures L.Compiled(fn)
    ensures FunctionTyped(sigs, fn)
  {
    assert CodeTyped(sigs, fn.params, map[], fn.blocks);
  }

  /** The module of a compiled program. */
  lemma ProgramIsCompiled(p: Program, m: Module)
    requires CompiledProgram(p, m)
    ensures ProgramOk(p) && ModuleTyped(m) && forall f: nat :: f < |m| ==> L.Compiled(m[f])
  {
    hide CompiledFrom, L.Compiled, FunctionTyped, Implements;
    forall f: nat {:trigger p.code[f]} | f < |p.funs| ensures Implements(p.funs[f], p.vars[f], p.code[f]) {
      assert m[p.first + f].blocks == p.code[f];
      FunctionIsCompiled(SigsOf(m), p.funs[f], p.vars[f], m[p.first + f]);
    }
    forall f: nat | f < |m|
      ensures L.Compiled(m[f]) && FunctionTyped(SigsOf(m), m[f])
    {
      if f < p.first {
        DeclarationTyped(SigsOf(m), m[f]);
      } else {
        assert p.code[f - p.first] == m[p.first + (f - p.first)].blocks;
        FunctionIsCompiled(SigsOf(m), p.funs[f - p.first], p.vars[f - p.first], m[f]);
      }
    }
  }

  /** Typed code calls functions of the module only. */
  lemma TypedCalls(m: Module)
    requires ModuleTyped(m)
    ensures forall f: nat, g: nat {:trigger Calls(m, f, g)} :: f < |m| && Calls(m, f, g) ==> g < |m|
  {
    hide Fitting;
    forall f: nat, g: nat {:trigger Calls(m, f, g)} | f < |m| && Calls(m, f, g) ensures g < |m| {
      assert FunctionTyped(SigsOf(m), m[f]);
      var types :| CodeTyped(SigsOf(m), m[f].params, types, m[f].blocks);
      var b :| 0 <= b < |m[f].blocks| && CallsIn(m[f].blocks[b].body, g);
      var i :| i in m[f].blocks[b].body && i.Call? && i.fn == g;
      assert BlockTyped(SigsOf(m), m[f].params, types, |m[f].blocks|, m[f].blocks[b]);
      assert InstrTyped(SigsOf(m), m[f].params, types, i);
    }
  }

  // ----- after dead-code removal ------------------------------------------------------------------------------------

  lemma {:induction false} KeptBody(body: seq<Instr>, M: set<D.Item>, i: Instr)
    requires i in D.KeepBody(body, M)
    ensures i in body
  {
    if body != [] {
      assert [] + D.KeepBody(body[1..], M) == D.KeepBody(body[1..], M);
      if i in D.KeepBody(body[1..], M) { KeptBody(body[1..], M, i); }
    }
  }

  lemma {:induction false} KeptPhis(phis: seq<Phi>, M: set<D.Item>, p: Phi)
    requires p in D.KeepPhis(phis, M)
    ensures p in phis
  {
    if phis != [] {
      assert [] + D.KeepPhis(phis[1..], M) == D.KeepPhis(phis[1..], M);
      if p in D.KeepPhis(phis[1..], M) { KeptPhis(phis[1..], M, p); }
    }
  }

  lemma SweptTyped(sigs: Sigs, params: seq<ParamType>, types: Types, f: seq<Block>, M: set<D.Item>)
    requires CodeTyped(sigs, params, types, f)
    ensures CodeTyped(sigs, params, types, D.Swept(f, M))
  {
    hide InstrTyped, PhiTyped;
    forall b | 0 <= b < |f| ensures BlockTyped(sigs, params, types, |f|, D.Swept(f, M)[b]) {
      assert BlockTyped(sigs, params, types, |f|, f[b]);
      forall p | p in D.KeepPhis(f[b].phis, M) ensures p in f[b].phis { KeptPhis(f[b].phis, M, p); }
      forall i | i in D.KeepBody(f[b].body, M) ensures i in f[b].body { KeptBody(f[b].body, M, i); }
    }
  }

  lemma SweptInside(f: seq<Block>, M: set<D.Item>)
    ensures D.Items(D.Swept(f, M)) <= D.Items(f)
  {
    D.SweptItems(f, M);
  }

  lemma SweptOnce(f: seq<Block>, M: set<D.Item>)
    requires D.UniqueDefs(f)
    ensures D.UniqueDefs(D.Swept(f, M))
  {
    SweptInside(f, M);
  }

  lemma SweptLocal(f: seq<Block>, M: set<D.Item>)
    requires LocalAddresses(f)
    ensures LocalAddresses(D.Swept(f, M))
  {
    hide D.Items;
    SweptInside(f, M);
    var L :| Confined(f, L);
    assert Confined(D.Swept(f, M), L);
  }

  lemma SweptCalls(m: Module, m': Module, pure: set<nat>, f: nat, g: nat)
    requires SweptModule(m, m', pure) && f < |m| && Calls(m', f, g)
    ensures Calls(m, f, g)
  {
    hide D.IsMarking, D.Swept;
    assert SweptFunction(m[f], m'[f], pure);
    var M :| D.IsMarking(m[f].blocks, pure, M) && m'[f].blocks == D.Swept(m[f].blocks, M);
    var b :| 0 <= b < |m'[f].blocks| && CallsIn(m'[f].blocks[b].body, g);
    var i :| i in m'[f].blocks[b].body && i.Call? && i.fn == g;
    KeptBody(m[f].blocks[b].body, M, i);
    assert CallsIn(m[f].blocks[b].body, g);
  }

  /** What the next pass may rely on survives. */
  lemma SweptModuleOk(m: Module, m': Module, pure: set<nat>)
    requires ModuleOk(m) && ModuleTyped(m) && SweptModule(m, m', pure)
    ensures ModuleOk(m') && ModuleTyped(m') && SigsOf(m') == SigsOf(m)
  {
    hide D.IsMarking, D.UniqueDefs, CodeTyped, Calls, D.Swept;
    assert SigsOf(m') == SigsOf(m);
    forall f: nat | f < |m'|
      ensures D.UniqueDefs(m'[f].blocks) && FunctionTyped(SigsOf(m), m'[f])
    {
      assert SweptFunction(m[f], m'[f], pure);
      var M :| D.IsMarking(m[f].blocks, pure, M) && m'[f].blocks == D.Swept(m[f].blocks, M);
      SweptOnce(m[f].blocks, M);
      assert FunctionTyped(SigsOf(m), m[f]);
      var types :| CodeTyped(SigsOf(m), m[f].params, types, m[f].blocks);
      SweptTyped(SigsOf(m), m[f].params, types, m[f].blocks, M);
    }
    TypedCalls(m');
  }

  lemma SweptPureSet(m: Module, m': Module, pure: set<nat>)
    requires ModuleOk(m) && PureSet(m, pure) && SweptModule(m, m', pure) && ModuleOk(m')
    ensures PureSet(m', pure)
  {
    hide ModuleOk, LocalAddresses, D.IsMarking, Calls, D.Swept;
    forall f: nat | f in pure
      ensures f < |m'| && m'[f].blocks != [] && LocalAddresses(m'[f].blocks)
    {
      assert SweptFunction(m[f], m'[f], pure);
      var M :| D.IsMarking(m[f].blocks, pure, M) && m'[f].blocks == D.Swept(m[f].blocks, M);
      SweptLocal(m[f].blocks, M);
      assert |m'[f].blocks| == |m[f].blocks|;
    }
    forall f: nat, g: nat {:trigger Calls(m', f, g)} | f in pure && f < |m'| && Calls(m', f, g) ensures g in pure {
      SweptCalls(m, m', pure, f, g);
    }
  }

  lemma SweptExt(m: Module, m': Module, pure: set<nat>, ext: Oracle)
    requires SweptModule(m, m', pure) && ExtTame(m, ext)
    ensures ExtTame(m', ext)
  {
    hide D.IsMarking, Good, Tame;
    forall fn: nat, vs: seq<Value>, w: World, depth: nat {:trigger Fits(m', fn, vs, depth), ext(fn, vs, w)} |
      Fits(m', fn, vs, depth) && m'[fn].blocks == [] && Good(w, depth) && ext(fn, vs, w).Some?
      ensures Tame(vs, w, depth, ext(fn, vs, w).value)
    {
      assert SweptFunction(m[fn], m'[fn], pure);
      assert Fits(m, fn, vs, depth);
    }
  }

  lemma SweptShaped(fn: Function, fn': Function, pure: set<nat>)
    requires L.Shaped(fn) && SweptFunction(fn, fn', pure) && fn'.params == fn.params
    ensures L.Shaped(fn')
  {
    hide D.IsMarking, D.Items, D.UniqueDefs, D.Swept;
    var M :| D.IsMarking(fn.blocks, pure, M) && fn'.blocks == D.Swept(fn.blocks, M);
    SweptOnce(fn.blocks, M);
    SweptOneBlock(fn.blocks, M);
    if PtrParam !in fn.params { SweptPlain(fn.blocks, M); }
  }

  lemma SweptOneBlock(f: seq<Block>, M: set<D.Item>)
    requires C.OneBlock(f)
    ensures C.OneBlock(D.Swept(f, M))
  {
    hide D.KeepBody;
    var f' := D.Swept(f, M);
    forall a, b, i, j {:trigger i in f'[a].body, j in f'[b].body} |
      0 <= a < |f'| && 0 <= b < |f'| && i in f'[a].body && j in f'[b].body && HasDst(i) && HasDst(j) && i.dst == j.dst
      ensures a == b
    {
      KeptBody(f[a].body, M, i);
      KeptBody(f[b].body, M, j);
    }
  }

  lemma SweptPlain(f: seq<Block>, M: set<D.Item>)
    requires D.UniqueDefs(f) && PlainAddresses(f) && D.UniqueDefs(D.Swept(f, M))
    ensures PlainAddresses(D.Swept(f, M))
  {
    hide D.UniqueDefs, D.Items;
    SweptInside(f, M);
    var f' := D.Swept(f, M);
    forall o | Plain(D.DefMap(f), o) ensures Plain(D.DefMap(f'), o) {
      if o.Reg? && o.r in D.DefMap(f') { assert D.DefMap(f')[o.r] in D.Items(f); }
    }
  }

  // ----- after value numbering -------------------------------------------------------------------------------

  lemma NumberedIsShaped(fn: Function, fn': Function, pure: set<nat>)
    requires L.Shaped(fn) && NumberedFunction(fn, fn', pure) && fn'.params == fn.params
    ensures L.Shaped(fn')
  {
    hide D.UniqueDefs, D.Items, C.OneBlock, N.Folds, N.BlockOk, N.After;
    var info, parent :| NumberedBy(fn, fn', pure, info, parent);
    NumberedOnce(info, fn.blocks, parent);
    NumberedOneBlock(info, fn.blocks, parent);
    NumberedPlain(info, fn.blocks, parent);
  }

  lemma NumberedOnce(info: T.Info, f: seq<Block>, parent: seq<nat>)
    requires N.Tree(f, parent) && N.JoinFree(info, f, parent) && D.UniqueDefs(f) && C.OneBlock(f)
    ensures D.UniqueDefs(N.After(info, f, parent))
  {
    hide N.JoinFree, D.Items, N.After, N.Replaced;
    var f' := N.After(info, f, parent);
    forall x, y | x in D.Items(f') && y in D.Items(f') && D.ItemHasDst(x) && D.ItemHasDst(y)
                  && D.ItemDst(x) == D.ItemDst(y)
      ensures x == y
    {
      var a, i := V.NumberedFrom(info, f, parent, x);
      var b, j := V.NumberedFrom(info, f, parent, y);
      assert D.ItemDst(D.InstrItem(i)) == D.ItemDst(D.InstrItem(j));
      assert i == j;
      assert a == b;
    }
  }

  lemma NumberedOneBlock(info: T.Info, f: seq<Block>, parent: seq<nat>)
    requires N.JoinFree(info, f, parent) && C.OneBlock(f)
    ensures C.OneBlock(N.After(info, f, parent))
  {
    hide N.BlockOk, N.MapBody, N.Replaced;
    var f' := N.After(info, f, parent);
    forall a, b, i, j {:trigger i in f'[a].body, j in f'[b].body} |
      0 <= a < |f'| && 0 <= b < |f'| && i in f'[a].body && j in f'[b].body && HasDst(i) && HasDst(j) && i.dst == j.dst
      ensures a == b
    {
      var x := BodyFrom(info, f, parent, a, i);
      var y := BodyFrom(info, f, parent, b, j);
    }
  }

  lemma BodyFrom(info: T.Info, f: seq<Block>, parent: seq<nat>, b: nat, i: Instr) returns (j: Instr)
    requires N.Tree(f, parent) && b < |f| && i in N.After(info, f, parent)[b].body
    ensures j in f[b].body && HasDst(j) == HasDst(i) && (HasDst(i) ==> j.dst == i.dst)
    ensures j.Call? == i.Call? && (i.Call? ==> j.fn == i.fn)
  {
    hide N.MapBody, N.Replaced;
    j := i;
    if p :| N.Out(info, f, parent, b) == Some(p) {
      j := V.MapBodyFrom(N.Replaced(p), f[b].body, i);
      V.MapDst(N.Replaced(p), j);
    }
  }

  lemma NumberedPlain(info: T.Info, f: seq<Block>, parent: seq<nat>)
    requires N.Tree(f, parent) && N.JoinFree(info, f, parent) && D.UniqueDefs(N.After(info, f, parent))
    ensures PlainAddresses(N.After(info, f, parent))
  {
    hide N.JoinFree, D.Items, N.After, D.UniqueDefs;
    var f' := N.After(info, f, parent);
    forall o ensures Plain(D.DefMap(f'), o) {
      if o.Reg? && o.r in D.DefMap(f') {
        var b, j := V.NumberedFrom(info, f, parent, D.DefMap(f')[o.r]);
      }
    }
  }

  lemma NumberedCalls(m: Module, m': Module, pure: set<nat>, f: nat, g: nat)
    requires NumberedModule(m, m', pure) && f < |m| && Calls(m', f, g)
    ensures Calls(m, f, g)
  {
    hide N.Folds, N.BlockOk, N.After;
    if m'[f].blocks != m[f].blocks {
      assert NumberedFunction(m[f], m'[f], pure);
      var info, parent :| NumberedBy(m[f], m'[f], pure, info, parent);
      var b :| 0 <= b < |m'[f].blocks| && CallsIn(m'[f].blocks[b].body, g);
      var i :| i in m'[f].blocks[b].body && i.Call? && i.fn == g;
      AfterSize(info, m[f].blocks, parent);
      var j := BodyFrom(info, m[f].blocks, parent, b, i);
      assert CallsIn(m[f].blocks[b].body, g);
    }
  }

  lemma AfterSize(info: T.Info, f: seq<Block>, parent: seq<nat>)
    requires N.Tree(f, parent)
    ensures |N.After(info, f, parent)| == |f|
  {}

  lemma NumberedFunctionTyped(sigs: Sigs, fn: Function, fn': Function, pure: set<nat>)
    requires FunctionTyped(sigs, fn) && NumberedFunction(fn, fn', pure) && fn'.params == fn.params
    ensures FunctionTyped(sigs, fn')
  {
    hide N.Folds, N.BlockOk, N.After, CodeTyped;
    var info, parent :| NumberedBy(fn, fn', pure, info, parent);
    var types :| CodeTyped(sigs, fn.params, types, fn.blocks);
    V.NumberedTyped(sigs, info, fn.params, types, fn.blocks, parent);
  }

  lemma NumberedModuleOk(m: Module, m': Module, pure: set<nat>)
    requires (forall f: nat :: f < |m| ==> L.Shaped(m[f])) && ModuleTyped(m) && NumberedModule(m, m', pure)
    ensures ModuleOk(m') && ModuleTyped(m') && SigsOf(m') == SigsOf(m)
    ensures forall f: nat :: f < |m'| ==> L.Shaped(m'[f])
  {
    hide L.Shaped, FunctionTyped, NumberedFunction, Calls;
    assert SigsOf(m') == SigsOf(m);
    forall f: nat | f < |m'|
      ensures L.Shaped(m'[f]) && FunctionTyped(SigsOf(m), m'[f])
    {
      assert L.Shaped(m[f]) && FunctionTyped(SigsOf(m), m[f]);
      if m'[f].blocks != m[f].blocks {
        NumberedIsShaped(m[f], m'[f], pure);
        NumberedFunctionTyped(SigsOf(m), m[f], m'[f], pure);
      } else {
        SameCode(SigsOf(m), m[f], m'[f]);
      }
    }
    TypedCalls(m');
    L.ShapedModule(m');
  }

  lemma SameCode(sigs: Sigs, fn: Function, fn': Function)
    requires L.Shaped(fn) && FunctionTyped(sigs, fn) && fn'.blocks == fn.blocks && fn'.params == fn.params
    ensures L.Shaped(fn') && FunctionTyped(sigs, fn')
  {}

  lemma NumberedExt(m: Module, m': Module, pure: set<nat>, ext: Oracle)
    requires NumberedModule(m, m', pure) && ExtTame(m, ext)
    ensures ExtTame(m', ext)
  {
    hide Good, Tame, NumberedFunction;
    forall fn: nat, vs: seq<Value>, w: World, depth: nat {:trigger Fits(m', fn, vs, depth), ext(fn, vs, w)} |
      Fits(m', fn, vs, depth) && m'[fn].blocks == [] && Good(w, depth) && ext(fn, vs, w).Some?
      ensures Tame(vs, w, depth, ext(fn, vs, w).value)
    {
      NumberedSize(m[fn], m'[fn], pure);
      assert Fits(m, fn, vs, depth);
    }
  }

  // ----- all of it --------------------------------------------------------------------------------------------------

  /** A round of dead-code removal that relies on the analysis of the module as it is. */
  lemma SweepRound(m: Module, m': Module, ext: Oracle, depth: nat, k: nat, fuel: nat, fn: nat, vs: seq<Value>, w: World)
    requires (forall f: nat :: f < |m| ==> L.Shaped(m[f])) && ModuleOk(m) && ModuleTyped(m) && ExtTame(m, ext)
    requires SweptModule(m, m', L.PureFuns(m))
    requires Fits(m, fn, vs, depth) && Good(w, depth) && CallFn(m, ext, depth, k, fuel, fn, vs, w).Some?
    ensures CallFn(m', ext, depth, k, fuel, fn, vs, w) == CallFn(m, ext, depth, k, fuel, fn, vs, w)
    ensures ModuleOk(m') && ModuleTyped(m') && ExtTame(m', ext) && PureSet(m', L.PureFuns(m)) && Fits(m', fn, vs, depth)
    ensures forall f: nat :: f < |m'| ==> L.Shaped(m'[f])
  {
    hide ModuleTyped, ModuleOk, ExtTame, Good, PureSet, CallFn, SweptFunction, L.PureFuns, L.Shaped;
    var pure := L.PureFuns(m);
    L.ShapedPureSet(m);
    SweptModuleMeans(m, m', ext, pure, depth, k, fuel, fn, vs, w);
    SweptModuleOk(m, m', pure);
    SweptPureSet(m, m', pure);
    SweptExt(m, m', pure, ext);
    forall f: nat | f < |m'| ensures L.Shaped(m'[f]) { SweptShaped(m[f], m'[f], pure); }
  }

  /** The modules that the passes make one after the other: SSA forms, dead-code removal, value numbering of
      functions without joins, dead-code removal again. */
  ghost predicate Optimised(p: Program, m0: Module, m1: Module, m2: Module, m3: Module) {
    && CompiledProgram(p, m0) && SweptModule(m0, m1, L.PureFuns(m0))
    && NumberedModule(m1, m2, L.PureFuns(m0)) && SweptModule(m2, m3, L.PureFuns(m2))
  }

  /** The optimising compiler is correct: a call that returns in the source, through any depth of calls and
      recursion, returns the same value and the same world in the optimised module. */
  lemma OptimisedIsCorrect(p: Program, m0: Module, m1: Module, m2: Module, m3: Module, ext: Oracle, depth: nat, k: nat,
                           fn: nat, vs: seq<Value>, w: World) returns (n: nat)
    requires Optimised(p, m0, m1, m2, m3) && ExtTame(m0, ext) && ExtInside(m0, ext)
    requires Fits(m0, fn, vs, depth) && Good(w, depth) && SrcCall(p, ext, depth, k, fn, vs, w).Some?
    ensures CallFn(m3, ext, depth, k, n, fn, vs, w) == SrcCall(p, ext, depth, k, fn, vs, w)
  {
    hide CompiledFrom, ModuleTyped, ModuleOk, ExtTame, ExtInside, Good, PureSet, SrcCall, CodeCall, CallFn, ProgramOk,
         SweptFunction, NumberedFunction, L.Compiled, L.PureFuns, L.Shaped;
    ProgramIsCompiled(p, m0);
    ProgramPreservesMeaning(p, ext, depth, k, fn, vs, w);
    n := CallFuel(p, m0, ext, depth, k, fn, vs, w);
    forall f: nat | f < |m0| ensures L.Shaped(m0[f]) { L.CompiledIsShaped(m0[f]); }
    TypedCalls(m0);
    L.ShapedModule(m0);
    SweepRound(m0, m1, ext, depth, k, n, fn, vs, w);
    NumberedModuleMeans(m1, m2, ext, L.PureFuns(m0), depth, k, n, fn, vs, w);
    NumberedModuleOk(m1, m2, L.PureFuns(m0));
    NumberedExt(m1, m2, L.PureFuns(m0), ext);
    assert Fits(m2, fn, vs, depth);
    SweepRound(m2, m3, ext, depth, k, n, fn, vs, w);
  }
}

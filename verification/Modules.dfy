/** Passes over whole modules: when every function keeps its meaning, so does every call, at any depth. */
module Modules {
  import opened IR
  import opened DeadCode
  import opened FuncInfo
  import opened Purity
  import opened Types
  import opened Typing
  import P = Program
  import T = GvnTransfer
  import N = Gvn

  /** The same functions, with other code. */
  ghost predicate SameSignature(m: Module, m': Module) {
    |m'| == |m| && forall f: nat :: f < |m| ==> m'[f].params == m[f].params
                                                && (m'[f].blocks == [] <==> m[f].blocks == [])
  }

  /** One activation of `fn` that returns, in which all calls are typed, returns the same in `m'`. */
  ghost predicate KeptAt(m: Module, m': Module, ext: Oracle, fn: nat, depth: nat, k: nat, fuel: nat, vs: seq<Value>,
                         w: World)
    requires fn < |m| && fn < |m'| && k > 0
  {
    var env := Guarded(m, Activation(m, ext, depth, k, fuel, vs));
    RunFunction(env, m[fn].blocks, w, fuel).Done? ==>
      RunFunction(env, m'[fn].blocks, w, fuel) == RunFunction(env, m[fn].blocks, w, fuel)
  }

  ghost predicate PassKeeps(m: Module, m': Module, ext: Oracle)
    requires SameSignature(m, m')
  {
    forall fn: nat, depth: nat, k: nat, fuel: nat, vs: seq<Value>, w: World
      {:trigger KeptAt(m, m', ext, fn, depth, k, fuel, vs, w)} ::
      fn < |m| && k > 0 && Fits(m, fn, vs, depth) && Good(w, depth) && m[fn].blocks != [] ==>
        KeptAt(m, m', ext, fn, depth, k, fuel, vs, w)
  }

  /** A pass that keeps each function keeps the module: a call that returns, through any depth of calls and
      recursion, returns the same value and the same world afterwards. */
  lemma {:induction false} ModulePreserved(m: Module, m': Module, ext: Oracle, depth: nat, k: nat, fuel: nat, fn: nat,
                                           vs: seq<Value>, w: World)
    requires ModuleTyped(m) && ExtTame(m, ext) && SameSignature(m, m') && PassKeeps(m, m', ext)
    requires Fits(m, fn, vs, depth) && Good(w, depth) && CallFn(m, ext, depth, k, fuel, fn, vs, w).Some?
    ensures CallFn(m', ext, depth, k, fuel, fn, vs, w) == CallFn(m, ext, depth, k, fuel, fn, vs, w)
    decreases k, 1
  {
    hide ModuleTyped, ExtTame, PassKeeps, Good, Run, DropFrame, P.Refines, Guarded;
    if m[fn].blocks != [] {
      var env, env' := Activation(m, ext, depth, k, fuel, vs), Activation(m', ext, depth, k, fuel, vs);
      ActivationRuns(m, ext, depth, k, fuel, fn, vs, w);
      assert KeptAt(m, m', ext, fn, depth, k, fuel, vs, w) by { KeepsAt(m, m', ext, fn, depth, k, fuel, vs, w); }
      CallsPreserved(m, m', ext, depth, k, fuel, vs);
      P.RefinedFunction(Guarded(m, env), env', m'[fn].blocks, w, fuel);
    }
  }

  lemma KeepsAt(m: Module, m': Module, ext: Oracle, fn: nat, depth: nat, k: nat, fuel: nat, vs: seq<Value>, w: World)
    requires SameSignature(m, m') && PassKeeps(m, m', ext)
    requires Fits(m, fn, vs, depth) && Good(w, depth) && m[fn].blocks != [] && k > 0
    ensures KeptAt(m, m', ext, fn, depth, k, fuel, vs, w)
  {}

  lemma {:induction false} CallsPreserved(m: Module, m': Module, ext: Oracle, depth: nat, k: nat, fuel: nat,
                                          vs: seq<Value>)
    requires ModuleTyped(m) && ExtTame(m, ext) && SameSignature(m, m') && PassKeeps(m, m', ext) && k > 0
    ensures P.Refines(Guarded(m, Activation(m, ext, depth, k, fuel, vs)), Activation(m', ext, depth, k, fuel, vs))
    decreases k, 0
  {
    hide ModuleTyped, ExtTame, SameSignature, PassKeeps, Fits, Good, CallFn;
    var env, env' := Guarded(m, Activation(m, ext, depth, k, fuel, vs)), Activation(m', ext, depth, k, fuel, vs);
    forall f, a, x | env.call(f, a, x).Some? ensures env'.call(f, a, x) == env.call(f, a, x) {
      ModulePreserved(m, m', ext, depth + 1, k - 1, fuel, f, a, x);
    }
  }

  // ----- dead code ------------------------------------------------------------------------------------------------

  /** Each function without what is not marked. */
  ghost predicate SweptModule(m: Module, m': Module, pure: set<nat>) {
    |m'| == |m| && forall f: nat :: f < |m| ==> m'[f].params == m[f].params && SweptFunction(m[f], m'[f], pure)
  }

  ghost predicate SweptFunction(fn: Function, fn': Function, pure: set<nat>) {
    exists M :: IsMarking(fn.blocks, pure, M) && fn'.blocks == Swept(fn.blocks, M)
  }

  /** A typed call gets at nothing of its caller's that it is not given. */
  lemma TameKeepsOut(m: Module, env: Env, D: set<nat>)
    requires CallsTame(m, env.call, env.depth + 1)
    ensures CallsKeepOut(Guarded(m, env), D)
  {
    var env' := Guarded(m, env);
    forall fn, vs, w | env'.call(fn, vs, w).Some? && WorldKeepsOut(D, env.depth, w)
                       && (forall v :: v in vs ==> KeepsOut(D, env.depth, v))
      ensures KeepsOut(D, env.depth, env'.call(fn, vs, w).value.0)
              && WorldKeepsOut(D, env.depth, env'.call(fn, vs, w).value.1)
    {
      TameWorld(D, env.depth, vs, w, env'.call(fn, vs, w).value);
    }
  }

  lemma TameWorld(D: set<nat>, depth: nat, vs: seq<Value>, w: World, r: (Value, World))
    requires Tame(vs, w, depth + 1, r) && WorldKeepsOut(D, depth, w) && (forall v :: v in vs ==> KeepsOut(D, depth, v))
    ensures KeepsOut(D, depth, r.0) && WorldKeepsOut(D, depth, r.1)
  {
    forall k | k in r.1.mem
      ensures KeepsOut(D, depth, Ptr(k.0, k.1)) && KeepsOut(D, depth, r.1.mem[k])
    {
      if Given(vs, k.0) && k.0.LocalArray? {
        var v :| v in vs && v.Ptr? && v.region == k.0;
        assert KeepsOut(D, depth, v);
      } else if k.0.LocalArray? {
        assert k in w.mem;
      }
    }
  }

  lemma GuardedPure(m: Module, env: Env, pure: set<nat>)
    requires CallsPure(env, pure)
    ensures CallsPure(Guarded(m, env), pure)
  {}

  lemma FitsFresh(m: Module, fn: nat, env: Env, w: World)
    requires Fits(m, fn, env.args, env.depth) && Good(w, env.depth)
    ensures FreshFrame(env, w)
  {
    forall v | v in env.args
      ensures !v.SlotPtr? && (v.Ptr? && v.region.LocalArray? ==> v.region.depth < env.depth)
    {
      var k :| 0 <= k < |env.args| && env.args[k] == v;
      assert ArgFits(env.depth, m[fn].params[k], env.args[k]);
    }
  }

  lemma SweepKeepsAt(m: Module, m': Module, ext: Oracle, pure: set<nat>, fn: nat, depth: nat, k: nat, fuel: nat,
                     vs: seq<Value>, w: World)
    requires ModuleOk(m) && PureSet(m, pure) && ModuleTyped(m) && ExtTame(m, ext) && SweptModule(m, m', pure)
    requires Fits(m, fn, vs, depth) && Good(w, depth) && k > 0
    ensures KeptAt(m, m', ext, fn, depth, k, fuel, vs, w)
  {
    hide ModuleOk, PureSet, ModuleTyped, ExtTame, Fits, Good, RunFunction, CallsTame, CallsPure, CallsKeepOut,
         FreshFrame, Closed, Critical, Swept, CallFn;
    assert fn < |m| by { FitsInside(m, fn, vs, depth); }
    assert SweptFunction(m[fn], m'[fn], pure);
    var M :| IsMarking(m[fn].blocks, pure, M) && m'[fn].blocks == Swept(m[fn].blocks, M);
    var env := Activation(m, ext, depth, k, fuel, vs);
    ActivationTame(m, ext, depth, k, fuel, vs);
    TameKeepsOut(m, env, DeadRegs(m[fn].blocks, M));
    PureCallsMayGo(m, ext, pure, depth, k, fuel, vs);
    GuardedPure(m, env, pure);
    FitsFresh(m, fn, env, w);
    assert FreshFrame(Guarded(m, env), w) by { FreshGuarded(m, env, w); }
    if RunFunction(Guarded(m, env), m[fn].blocks, w, fuel).Done? {
      SweepPreservesMeaning(Guarded(m, env), m[fn].blocks, pure, M, w, fuel);
    }
  }

  lemma FreshGuarded(m: Module, env: Env, w: World)
    requires FreshFrame(env, w)
    ensures FreshFrame(Guarded(m, env), w)
  {}

  lemma FitsInside(m: Module, fn: nat, vs: seq<Value>, depth: nat)
    requires Fits(m, fn, vs, depth)
    ensures fn < |m| && |vs| == |m[fn].params|
  {}

  /** Dead-code removal on a module: every call that returns, returns the same afterwards. */
  lemma SweptModuleMeans(m: Module, m': Module, ext: Oracle, pure: set<nat>, depth: nat, k: nat, fuel: nat, fn: nat,
                         vs: seq<Value>, w: World)
    requires ModuleOk(m) && PureSet(m, pure) && ModuleTyped(m) && ExtTame(m, ext) && SweptModule(m, m', pure)
    requires Fits(m, fn, vs, depth) && Good(w, depth) && CallFn(m, ext, depth, k, fuel, fn, vs, w).Some?
    ensures CallFn(m', ext, depth, k, fuel, fn, vs, w) == CallFn(m, ext, depth, k, fuel, fn, vs, w)
  {
    hide ModuleOk, PureSet, ModuleTyped, ExtTame, Fits, Good, CallFn, KeptAt, IsMarking;
    forall f: nat | f < |m| ensures m'[f].blocks == [] <==> m[f].blocks == [] {
      assert SweptFunction(m[f], m'[f], pure);
    }
    forall f: nat, d: nat, j: nat, n: nat, a: seq<Value>, x: World {:trigger KeptAt(m, m', ext, f, d, j, n, a, x)} |
      f < |m| && j > 0 && Fits(m, f, a, d) && Good(x, d) && m[f].blocks != []
      ensures KeptAt(m, m', ext, f, d, j, n, a, x)
    {
      SweepKeepsAt(m, m', ext, pure, f, d, j, n, a, x);
    }
    ModulePreserved(m, m', ext, depth, k, fuel, fn, vs, w);
  }

  // ----- value numbering --------------------------------------------------------------------------------------------

  /** Functions without joins may have been through value numbering. */
  ghost predicate NumberedModule(m: Module, m': Module, pure: set<nat>) {
    |m'| == |m| && forall f: nat :: f < |m| ==>
      m'[f].params == m[f].params && (m'[f].blocks == m[f].blocks || NumberedFunction(m[f], m'[f], pure))
  }

  ghost predicate NumberedFunction(fn: Function, fn': Function, pure: set<nat>) {
    exists info, parent :: NumberedBy(fn, fn', pure, info, parent)
  }

  ghost predicate NumberedBy(fn: Function, fn': Function, pure: set<nat>, info: T.Info, parent: seq<nat>) {
    && info.pure == pure && info.nArgs == |fn.params|
    && N.JoinFree(info, fn.blocks, parent) && N.Folds(info, fn.blocks, parent)
    && fn'.blocks == N.After(info, fn.blocks, parent)
  }

  ghost predicate Answers(m: Module, ext: Oracle, depth: nat, k: nat, fuel: nat, fn: nat, vs: seq<Value>, w: World) {
    NoFrames(w, depth) && CallFn(m, ext, depth, k, fuel, fn, vs, w).Some?
  }

  /** What a pure function returns, in whatever world. */
  ghost function PureValue(m: Module, ext: Oracle, depth: nat, k: nat, fuel: nat, fn: nat, vs: seq<Value>): Value {
    if exists w :: Answers(m, ext, depth, k, fuel, fn, vs, w) then
      var w :| Answers(m, ext, depth, k, fuel, fn, vs, w);
      CallFn(m, ext, depth, k, fuel, fn, vs, w).value.0
    else Int(0)
  }

  lemma PureValueIs(m: Module, ext: Oracle, pure: set<nat>, depth: nat, k: nat, fuel: nat, fn: nat, vs: seq<Value>,
                    w: World)
    requires ModuleOk(m) && PureSet(m, pure) && fn in pure && NoFrames(w, depth)
    requires CallFn(m, ext, depth, k, fuel, fn, vs, w).Some?
    ensures CallFn(m, ext, depth, k, fuel, fn, vs, w).value.0 == PureValue(m, ext, depth, k, fuel, fn, vs)
  {
    hide ModuleOk, PureSet, CallFn;
    assert Answers(m, ext, depth, k, fuel, fn, vs, w);
    var x :| Answers(m, ext, depth, k, fuel, fn, vs, x)
             && PureValue(m, ext, depth, k, fuel, fn, vs) == CallFn(m, ext, depth, k, fuel, fn, vs, x).value.0;
    assert Answers(m, ext, depth, k, fuel, fn, vs, x);
    PureCall(m, ext, pure, depth, k, fuel, fn, vs, w, x);
  }

  lemma GuardedAnswers(m: Module, env: Env, fn: nat, a: seq<Value>, w: World)
    requires Guarded(m, env).call(fn, a, w).Some?
    ensures NoFrames(w, env.depth + 1) && env.call(fn, a, w) == Guarded(m, env).call(fn, a, w)
  {
    assert Guarded(m, env).call(fn, a, w) ==
           (if Fits(m, fn, a, env.depth + 1) && Good(w, env.depth + 1) then env.call(fn, a, w) else None);
    assert Good(w, env.depth + 1);
  }

  /** In a module the calls of pure functions compute a function of their arguments. */
  lemma GuardedResults(m: Module, ext: Oracle, pure: set<nat>, depth: nat, k: nat, fuel: nat, vs: seq<Value>,
                       info: T.Info)
    requires ModuleOk(m) && PureSet(m, pure) && k > 0 && info.pure == pure
    ensures T.PureResults(Guarded(m, Activation(m, ext, depth, k, fuel, vs)), info,
                          (f: nat, a: seq<Value>) => PureValue(m, ext, depth + 1, k - 1, fuel, f, a))
  {
    hide ModuleOk, PureSet, Fits, CallFn, NoFrames;
    var act := Activation(m, ext, depth, k, fuel, vs);
    var env := Guarded(m, act);
    forall fn, a, w | fn in pure && env.call(fn, a, w).Some?
      ensures env.call(fn, a, w).value.0 == PureValue(m, ext, depth + 1, k - 1, fuel, fn, a)
    {
      GuardedAnswers(m, act, fn, a, w);
      assert act.call(fn, a, w) == CallFn(m, ext, depth + 1, k - 1, fuel, fn, a, w);
      PureValueIs(m, ext, pure, depth + 1, k - 1, fuel, fn, a, w);
    }
  }

  lemma NumberingKeepsAt(m: Module, m': Module, ext: Oracle, pure: set<nat>, fn: nat, depth: nat, k: nat, fuel: nat,
                         vs: seq<Value>, w: World)
    requires ModuleOk(m) && PureSet(m, pure) && NumberedModule(m, m', pure) && Fits(m, fn, vs, depth) && k > 0
    ensures KeptAt(m, m', ext, fn, depth, k, fuel, vs, w)
  {
    hide ModuleOk, PureSet, Fits, RunFunction, CallFn, N.JoinFree, N.Folds, N.After, T.PureResults;
    FitsInside(m, fn, vs, depth);
    var env := Guarded(m, Activation(m, ext, depth, k, fuel, vs));
    if m'[fn].blocks != m[fn].blocks && RunFunction(env, m[fn].blocks, w, fuel).Done? {
      assert NumberedFunction(m[fn], m'[fn], pure);
      var info, parent :| NumberedBy(m[fn], m'[fn], pure, info, parent);
      GuardedResults(m, ext, pure, depth, k, fuel, vs, info);
      N.GvnPreservesMeaning(env, (f: nat, a: seq<Value>) => PureValue(m, ext, depth + 1, k - 1, fuel, f, a), info,
                            m[fn].blocks, parent, w, fuel);
    }
  }

  /** Value numbering on a module: every call that returns, returns the same afterwards. */
  lemma NumberedModuleMeans(m: Module, m': Module, ext: Oracle, pure: set<nat>, depth: nat, k: nat, fuel: nat, fn: nat,
                            vs: seq<Value>, w: World)
    requires ModuleOk(m) && PureSet(m, pure) && ModuleTyped(m) && ExtTame(m, ext) && NumberedModule(m, m', pure)
    requires Fits(m, fn, vs, depth) && Good(w, depth) && CallFn(m, ext, depth, k, fuel, fn, vs, w).Some?
    ensures CallFn(m', ext, depth, k, fuel, fn, vs, w) == CallFn(m, ext, depth, k, fuel, fn, vs, w)
  {
    hide ModuleOk, PureSet, ModuleTyped, ExtTame, Fits, Good, CallFn, KeptAt, NumberedBy;
    forall f: nat | f < |m| ensures m'[f].blocks == [] <==> m[f].blocks == [] {
      NumberedSize(m[f], m'[f], pure);
    }
    forall f: nat, d: nat, j: nat, n: nat, a: seq<Value>, x: World {:trigger KeptAt(m, m', ext, f, d, j, n, a, x)} |
      f < |m| && j > 0 && Fits(m, f, a, d) && Good(x, d) && m[f].blocks != []
      ensures KeptAt(m, m', ext, f, d, j, n, a, x)
    {
      NumberingKeepsAt(m, m', ext, pure, f, d, j, n, a, x);
    }
    ModulePreserved(m, m', ext, depth, k, fuel, fn, vs, w);
  }

  lemma NumberedSize(fn: Function, fn': Function, pure: set<nat>)
    requires fn'.blocks == fn.blocks || NumberedFunction(fn, fn', pure)
    ensures |fn'.blocks| == |fn.blocks|
  {
    hide N.Folds, N.BlockOk;
  }
}

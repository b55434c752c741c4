/** Typed code, and what a call can get at: global variables, and the arrays that it is given. */
module Typing {
  import opened IR
  import opened FuncInfo
  import opened Types
  import opened Purity

  // ----- worlds and calls ---------------------------------------------------------------------------------------

  predicate Number(v: Value) {
    v.Int? || v.Flt?
  }

  /** Memory holds numbers, and knows of no activation at `depth` or deeper. */
  ghost predicate Good(w: World, depth: nat) {
    NoFrames(w, depth) && forall k :: k in w.mem ==> Number(w.mem[k])
  }

  /** An argument for a call at `depth`. */
  predicate ArgFits(depth: nat, p: ParamType, v: Value) {
    if p.PtrParam? then v.Ptr? && (v.region.LocalArray? ==> v.region.depth < depth) else Number(v)
  }

  predicate Fits(m: Module, fn: nat, vs: seq<Value>, depth: nat) {
    fn < |m| && |vs| == |m[fn].params| && forall k :: 0 <= k < |vs| ==> ArgFits(depth, m[fn].params[k], vs[k])
  }

  /** A global variable, or an array whose address is among `vs`. */
  predicate Given(vs: seq<Value>, g: Region) {
    g.GlobalVar? || exists v :: v in vs && v.Ptr? && v.region == g
  }

  /** Only the given cells differ. */
  ghost predicate OnlyGiven(vs: seq<Value>, w: World, w': World) {
    forall k: (Region, int) {:trigger k in w.mem} {:trigger k in w'.mem} :: !Given(vs, k.0) ==>
      (k in w.mem <==> k in w'.mem) && (k in w.mem ==> w'.mem[k] == w.mem[k])
  }

  /** The call returns a number, and changes nothing that it is not given. */
  ghost predicate Tame(vs: seq<Value>, w: World, depth: nat, r: (Value, World)) {
    Number(r.0) && Good(r.1, depth) && OnlyGiven(vs, w, r.1)
  }

  ghost predicate CallsTame(m: Module, call: Oracle, depth: nat) {
    forall fn: nat, vs: seq<Value>, w: World {:trigger call(fn, vs, w)} ::
             Fits(m, fn, vs, depth) && Good(w, depth) && call(fn, vs, w).Some? ==>
      Tame(vs, w, depth, call(fn, vs, w).value)
  }

  /** Functions that are only declared are tame at every depth. */
  ghost predicate ExtTame(m: Module, ext: Oracle) {
    forall fn: nat, vs: seq<Value>, w: World, depth: nat {:trigger Fits(m, fn, vs, depth), ext(fn, vs, w)} ::
      Fits(m, fn, vs, depth) && m[fn].blocks == [] && Good(w, depth) && ext(fn, vs, w).Some? ==>
        Tame(vs, w, depth, ext(fn, vs, w).value)
  }

  /** The same activation, whose calls are only answered when they are typed. */
  ghost function Guarded(m: Module, env: Env): Env {
    env.(call := (fn: nat, vs: seq<Value>, w: World) =>
           if Fits(m, fn, vs, env.depth + 1) && Good(w, env.depth + 1) then env.call(fn, vs, w) else None)
  }

  // ----- one activation -----------------------------------------------------------------------------------------

  /** A region that the activation can get at. */
  predicate Within(env: Env, g: Region) {
    Given(env.args, g) || (g.LocalArray? && g.depth == env.depth)
  }

  predicate ValueTyped(env: Env, types: Types, v: Value, t: Type) {
    match t
    case NumT => Number(v)
    case AddrT => v.Ptr? && Within(env, v.region)
    case SlotT(s) => v == SlotPtr(if v.SlotPtr? then v.r else 0, s) && v.r in types && types[v.r] == t
  }

  ghost predicate RegsTyped(env: Env, types: Types, regs: map<nat, Value>) {
    forall r :: r in regs ==> r in types && ValueTyped(env, types, regs[r], types[r])
  }

  ghost predicate SlotsTyped(env: Env, types: Types, slots: map<nat, Value>) {
    forall r :: r in slots ==> r in types && types[r].SlotT? && ValueTyped(env, types, slots[r], Content(types[r].slot))
  }

  ghost predicate OnlyWithin(env: Env, w0: World, w: World) {
    forall k: (Region, int) {:trigger k in w.mem} {:trigger k in w0.mem} :: !Within(env, k.0) ==>
      (k in w.mem <==> k in w0.mem) && (k in w.mem ==> w.mem[k] == w0.mem[k])
  }

  /** The activation, which started in world `w0`, has kept to its types and to what it can get at. */
  ghost predicate StateTyped(env: Env, types: Types, w0: World, s: State) {
    && RegsTyped(env, types, s.regs) && SlotsTyped(env, types, s.slots)
    && Good(s.world, env.depth + 1) && OnlyWithin(env, w0, s.world)
  }

  ghost predicate EnvTyped(m: Module, fn: Function, env: Env) {
    && |env.args| == |fn.params| && (forall k :: 0 <= k < |env.args| ==> ArgFits(env.depth, fn.params[k], env.args[k]))
    && CallsTame(m, env.call, env.depth + 1)
  }

  lemma OperandTyped(m: Module, fn: Function, env: Env, types: Types, regs: map<nat, Value>, o: Operand)
    requires EnvTyped(m, fn, env) && RegsTyped(env, types, regs)
    requires TypeOf(fn.params, types, o).Some? && Eval(env, regs, o).Some?
    ensures ValueTyped(env, types, Eval(env, regs, o).value, TypeOf(fn.params, types, o).value)
  {
    hide CallsTame;
    if o.Arg? {
      assert ArgFits(env.depth, fn.params[o.i], env.args[o.i]);
    }
  }

  lemma {:induction false} OperandsTyped(m: Module, fn: Function, env: Env, types: Types, regs: map<nat, Value>,
                                         os: seq<Operand>)
    requires EnvTyped(m, fn, env) && RegsTyped(env, types, regs)
    requires (forall o :: o in os ==> TypeOf(fn.params, types, o).Some?) && EvalAll(env, regs, os).Some?
    ensures |EvalAll(env, regs, os).value| == |os|
    ensures forall k :: 0 <= k < |os| ==>
              ValueTyped(env, types, EvalAll(env, regs, os).value[k], TypeOf(fn.params, types, os[k]).value)
  {
    hide EnvTyped, RegsTyped, ValueTyped, TypeOf;
    if os != [] {
      OperandTyped(m, fn, env, types, regs, os[0]);
      OperandsTyped(m, fn, env, types, regs, os[1..]);
    }
  }

  lemma SetTyped(env: Env, types: Types, w0: World, s: State, d: nat, v: Value)
    requires StateTyped(env, types, w0, s) && d in types && ValueTyped(env, types, v, types[d])
    ensures StateTyped(env, types, w0, s.(regs := s.regs[d := v]))
  {
    hide Good, OnlyWithin, ValueTyped;
  }

  lemma WriteTyped(env: Env, types: Types, w0: World, s: State, g: Region, k: int, v: Value)
    requires StateTyped(env, types, w0, s) && Within(env, g) && Number(v)
    requires forall x :: x in env.args && x.Ptr? && x.region.LocalArray? ==> x.region.depth < env.depth
    ensures StateTyped(env, types, w0, s.(world := s.world.(mem := s.world.mem[(g, k) := v])))
  {
    hide RegsTyped, SlotsTyped;
  }

  lemma ClearTyped(env: Env, types: Types, w0: World, s: State, g: Region)
    requires StateTyped(env, types, w0, s) && Within(env, g)
    ensures StateTyped(env, types, w0, s.(world := s.world.(mem := ClearRegion(s.world.mem, g))))
  {
    hide RegsTyped, SlotsTyped;
  }

  lemma StepAlloca(env: Env, types: Types, w0: World, s: State, i: Instr)
    requires StateTyped(env, types, w0, s) && i.Alloca? && i.dst in types
    requires types[i.dst] == if i.ty.ArraySlot? then AddrT else SlotT(i.ty)
    ensures Step(env, i, s).Some? && StateTyped(env, types, w0, Step(env, i, s).value)
  {
    hide RegsTyped, SlotsTyped, Good, OnlyWithin;
    assert Operands(i) == [];
    var g := LocalArray(env.depth, i.dst);
    if i.ty.ArraySlot? {
      ClearTyped(env, types, w0, s, g);
      SetTyped(env, types, w0, s.(world := s.world.(mem := ClearRegion(s.world.mem, g))), i.dst, Ptr(g, 0));
    } else {
      var s1 := s.(slots := s.slots - {i.dst});
      assert SlotsTyped(env, types, s1.slots) by { SlotsLess(env, types, s.slots, i.dst); }
      SetTyped(env, types, w0, s1, i.dst, SlotPtr(i.dst, i.ty));
    }
  }

  lemma SlotsLess(env: Env, types: Types, slots: map<nat, Value>, d: nat)
    requires SlotsTyped(env, types, slots)
    ensures SlotsTyped(env, types, slots - {d})
  {}

  lemma StepLoad(m: Module, fn: Function, env: Env, types: Types, w0: World, s: State, i: Instr)
    requires EnvTyped(m, fn, env) && StateTyped(env, types, w0, s) && i.Load?
             && InstrTyped(SigsOf(m), fn.params, types, i)
    requires Step(env, i, s).Some?
    ensures StateTyped(env, types, w0, Step(env, i, s).value)
  {
    hide EnvTyped, OnlyWithin, TypeOf;
    EvalOne(env, s.regs, i.ptr);
    assert i.ptr in Operands(i);
    OperandTyped(m, fn, env, types, s.regs, i.ptr);
    var v := Step(env, i, s).value.regs[i.dst];
    SetTyped(env, types, w0, s, i.dst, v);
  }

  lemma StepStore(m: Module, fn: Function, env: Env, types: Types, w0: World, s: State, i: Instr)
    requires EnvTyped(m, fn, env) && StateTyped(env, types, w0, s) && i.Store?
             && InstrTyped(SigsOf(m), fn.params, types, i)
    requires Step(env, i, s).Some?
    ensures StateTyped(env, types, w0, Step(env, i, s).value)
  {
    hide CallsTame, OnlyWithin, TypeOf, Good, Within;
    EvalTwo(env, s.regs, i.val, i.ptr);
    assert Operands(i) == [i.val, i.ptr] && i.val in Operands(i) && i.ptr in Operands(i);
    OperandTyped(m, fn, env, types, s.regs, i.ptr);
    OperandTyped(m, fn, env, types, s.regs, i.val);
    var v, p := Eval(env, s.regs, i.val).value, Eval(env, s.regs, i.ptr).value;
    if p.Ptr? { WriteTyped(env, types, w0, s, p.region, p.off, v); }
  }

  /** A typed call is one that the guard lets through. */
  lemma CallFits(m: Module, fn: Function, env: Env, types: Types, w0: World, s: State, i: Instr, vs: seq<Value>)
    requires EnvTyped(m, fn, env) && StateTyped(env, types, w0, s) && i.Call?
             && InstrTyped(SigsOf(m), fn.params, types, i)
    requires EvalAll(env, s.regs, Operands(i)) == Some(vs)
    ensures Fits(m, i.fn, vs, env.depth + 1) && Good(s.world, env.depth + 1)
    ensures forall g :: Given(vs, g) ==> Within(env, g)
  {
    hide CallsTame, OnlyWithin, Good, RegsTyped, SlotsTyped, TypeOf, EvalAll;
    OperandsTyped(m, fn, env, types, s.regs, i.args);
    forall k | 0 <= k < |vs| ensures ArgFits(env.depth + 1, m[i.fn].params[k], vs[k]) {
      assert ValueTyped(env, types, vs[k], TypeOf(fn.params, types, i.args[k]).value);
      assert TypeOf(fn.params, types, i.args[k]) == Some(TypeOfParam(m[i.fn].params[k]));
    }
    forall g | Given(vs, g) && !g.GlobalVar? ensures Within(env, g) {
      var v :| v in vs && v.Ptr? && v.region == g;
      var k :| 0 <= k < |vs| && vs[k] == v;
      assert ValueTyped(env, types, vs[k], TypeOf(fn.params, types, i.args[k]).value);
      assert TypeOf(fn.params, types, i.args[k]) == Some(TypeOfParam(m[i.fn].params[k]));
    }
  }

  lemma StepCall(m: Module, fn: Function, env: Env, types: Types, w0: World, s: State, i: Instr)
    requires EnvTyped(m, fn, env) && StateTyped(env, types, w0, s) && i.Call?
             && InstrTyped(SigsOf(m), fn.params, types, i)
    requires Step(env, i, s).Some?
    ensures StateTyped(env, types, w0, Step(env, i, s).value) && Step(Guarded(m, env), i, s) == Step(env, i, s)
  {
    hide RegsTyped, SlotsTyped, Fits, Good, Given, Within, TypeOf;
    var vs := EvalAll(env, s.regs, Operands(i)).value;
    CallFits(m, fn, env, types, w0, s, i, vs);
    GuardedEval(m, env, s.regs, Operands(i));
    var r := env.call(i.fn, vs, s.world).value;
    assert Tame(vs, s.world, env.depth + 1, r);
    SetTyped(env, types, w0, s.(world := r.1), i.dst, r.0);
  }

  lemma {:induction false} GuardedEval(m: Module, env: Env, regs: map<nat, Value>, os: seq<Operand>)
    ensures EvalAll(Guarded(m, env), regs, os) == EvalAll(env, regs, os)
  {
    if os != [] { GuardedEval(m, env, regs, os[1..]); }
  }

  lemma StepOther(m: Module, fn: Function, env: Env, types: Types, w0: World, s: State, i: Instr)
    requires EnvTyped(m, fn, env) && StateTyped(env, types, w0, s) && InstrTyped(SigsOf(m), fn.params, types, i)
    requires Computes(i) && !i.Call? && Step(env, i, s).Some?
    ensures StateTyped(env, types, w0, Step(env, i, s).value)
  {
    hide OnlyWithin, TypeOf, Good, EnvTyped, RegsTyped, SlotsTyped;
    StepComputes(env, i, s);
    var vs := EvalAll(env, s.regs, Operands(i)).value;
    if i.Gep? {
      OperandsTyped(m, fn, env, types, s.regs, Operands(i));
      assert Operands(i)[0] == i.base;
      assert ValueTyped(env, types, vs[0], TypeOf(fn.params, types, Operands(i)[0]).value);
    }
    SetTyped(env, types, w0, s, i.dst, PureSem(i, vs).value);
  }

  lemma StepTyped(m: Module, fn: Function, env: Env, types: Types, w0: World, s: State, i: Instr)
    requires EnvTyped(m, fn, env) && StateTyped(env, types, w0, s) && InstrTyped(SigsOf(m), fn.params, types, i)
    requires Step(env, i, s).Some?
    ensures StateTyped(env, types, w0, Step(env, i, s).value) && Step(Guarded(m, env), i, s) == Step(env, i, s)
  {
    hide EnvTyped, StateTyped, InstrTyped, Fits, Good;
    GuardedEval(m, env, s.regs, Operands(i));
    if i.Alloca? {
      assert i.dst in types && types[i.dst] == if i.ty.ArraySlot? then AddrT else SlotT(i.ty) by {
        AllocaIs(m, fn, types, i);
      }
      StepAlloca(env, types, w0, s, i);
    } else if i.Load? {
      StepLoad(m, fn, env, types, w0, s, i);
    } else if i.Store? {
      StepStore(m, fn, env, types, w0, s, i);
    } else if i.Call? {
      StepCall(m, fn, env, types, w0, s, i);
    } else {
      StepOther(m, fn, env, types, w0, s, i);
    }
  }

  lemma AllocaIs(m: Module, fn: Function, types: Types, i: Instr)
    requires InstrTyped(SigsOf(m), fn.params, types, i) && i.Alloca?
    ensures i.dst in types && types[i.dst] == if i.ty.ArraySlot? then AddrT else SlotT(i.ty)
  {}

  // ----- runs ---------------------------------------------------------------------------------------------------

  lemma {:induction false} PhisTyped(m: Module, fn: Function, env: Env, types: Types, phis: seq<Phi>, from: nat,
                                     before: map<nat, Value>, regs: map<nat, Value>)
    requires EnvTyped(m, fn, env) && RegsTyped(env, types, before) && RegsTyped(env, types, regs)
    requires from < |fn.blocks| && forall p :: p in phis ==> PhiTyped(fn.params, types, |fn.blocks|, p)
    ensures RegsTyped(env, types, EnterPhis(env, phis, from, before, regs))
    ensures EnterPhis(Guarded(m, env), phis, from, before, regs) == EnterPhis(env, phis, from, before, regs)
    decreases phis
  {
    hide EnvTyped, TypeOf;
    if phis != [] {
      var p := phis[0];
      assert PhiTyped(fn.params, types, |fn.blocks|, p);
      var o := PairFor(p.pairs, from);
      if o.Some? && Eval(env, before, o.value).Some? { OperandTyped(m, fn, env, types, before, o.value); }
      assert o.Some? ==> Eval(Guarded(m, env), before, o.value) == Eval(env, before, o.value);
      var regs' := if o.Some? && Eval(env, before, o.value).Some? then regs[p.dst := Eval(env, before, o.value).value]
          else regs - {p.dst};
      PhisTyped(m, fn, env, types, phis[1..], from, before, regs');
    }
  }

  ghost predicate NextTyped(env: Env, types: Types, w0: World, n: Next) {
    match n
    case Goto(_, s) => StateTyped(env, types, w0, s)
    case Return(v, w) => (v.Some? ==> Number(v.value)) && Good(w, env.depth + 1) && OnlyWithin(env, w0, w)
    case Stuck => true
  }

  lemma EndTyped(m: Module, fn: Function, env: Env, types: Types, w0: World, s: State, i: Instr)
    requires EnvTyped(m, fn, env) && StateTyped(env, types, w0, s) && InstrTyped(SigsOf(m), fn.params, types, i)
             && IsTerminator(i)
    ensures NextTyped(env, types, w0, End(env, i, s)) && End(Guarded(m, env), i, s) == End(env, i, s)
  {
    hide OnlyWithin, Good, EnvTyped, SlotsTyped, TypeOf;
    if i.Ret? && i.ret.Some? && Eval(env, s.regs, i.ret.value).Some? {
      OperandTyped(m, fn, env, types, s.regs, i.ret.value);
    }
  }

  lemma {:induction false} BodyTyped(m: Module, fn: Function, env: Env, types: Types, w0: World, s: State,
                                     body: seq<Instr>)
    requires EnvTyped(m, fn, env) && StateTyped(env, types, w0, s)
    requires forall i :: i in body ==> InstrTyped(SigsOf(m), fn.params, types, i)
    ensures NextTyped(env, types, w0, ExecBody(env, body, s))
    ensures !ExecBody(env, body, s).Stuck? ==> ExecBody(Guarded(m, env), body, s) == ExecBody(env, body, s)
    decreases body
  {
    hide EnvTyped, StateTyped, InstrTyped, Step, End;
    if body != [] {
      if IsTerminator(body[0]) {
        EndTyped(m, fn, env, types, w0, s, body[0]);
      } else if Step(env, body[0], s).Some? {
        StepTyped(m, fn, env, types, w0, s, body[0]);
        BodyTyped(m, fn, env, types, w0, Step(env, body[0], s).value, body[1..]);
      }
    }
  }

  lemma {:induction false} RunTyped(m: Module, fn: Function, env: Env, types: Types, w0: World, s: State, b: nat,
                                    from: nat, fuel: nat)
    requires EnvTyped(m, fn, env) && StateTyped(env, types, w0, s)
             && CodeTyped(SigsOf(m), fn.params, types, fn.blocks) && from < |fn.blocks|
    requires Run(env, fn.blocks, b, from, s, fuel).Done?
    ensures var r := Run(env, fn.blocks, b, from, s, fuel);
            Run(Guarded(m, env), fn.blocks, b, from, s, fuel) == r && NextTyped(env, types, w0, Return(r.v, r.w))
    decreases fuel
  {
    hide EnvTyped, InstrTyped, PhiTyped, EnterPhis, ExecBody, Good, OnlyWithin, SlotsTyped, Guarded;
    assert BlockTyped(SigsOf(m), fn.params, types, |fn.blocks|, fn.blocks[b]);
    PhisTyped(m, fn, env, types, fn.blocks[b].phis, from, s.regs, s.regs);
    BodyTyped(m, fn, env, types, w0, s.(regs := EnterPhis(env, fn.blocks[b].phis, from, s.regs, s.regs)),
              fn.blocks[b].body);
    var n := RunBlock(env, fn.blocks[b], from, s);
    assert RunBlock(Guarded(m, env), fn.blocks[b], from, s) == n;
    if n.Goto? { RunTyped(m, fn, env, types, w0, n.s, n.to, b, fuel - 1); }
  }

  // ----- calls --------------------------------------------------------------------------------------------------

  /** What a call of a function of the module can get at. */
  lemma {:induction false} CallTame(m: Module, ext: Oracle, depth: nat, k: nat, fuel: nat, fn: nat, vs: seq<Value>,
                                    w: World)
    requires ModuleTyped(m) && ExtTame(m, ext) && Fits(m, fn, vs, depth) && Good(w, depth)
    requires CallFn(m, ext, depth, k, fuel, fn, vs, w).Some?
    ensures Tame(vs, w, depth, CallFn(m, ext, depth, k, fuel, fn, vs, w).value)
    decreases k, 1
  {
    hide ModuleTyped, ExtTame, Fits, Good, Run, DropFrame, Tame;
    if m[fn].blocks == [] {
      ExtIsTame(m, ext, fn, vs, w, depth);
    } else {
      var env := Activation(m, ext, depth, k, fuel, vs);
      ActivationRuns(m, ext, depth, k, fuel, fn, vs, w);
      var r := RunFunction(env, m[fn].blocks, w, fuel);
      ReturnTame(env, w, r.v, r.w);
    }
  }

  lemma ExtIsTame(m: Module, ext: Oracle, fn: nat, vs: seq<Value>, w: World, depth: nat)
    requires ExtTame(m, ext) && Fits(m, fn, vs, depth) && m[fn].blocks == [] && Good(w, depth) && ext(fn, vs, w).Some?
    ensures Tame(vs, w, depth, ext(fn, vs, w).value)
  {}

  lemma ReturnTame(env: Env, w: World, v: Option<Value>, w': World)
    requires (v.Some? ==> Number(v.value)) && Good(w', env.depth + 1) && OnlyWithin(env, w, w') && Good(w, env.depth)
    ensures Tame(env.args, w, env.depth, (if v.Some? then v.value else Int(0), DropFrame(w', env.depth)))
  {}

  /** The activation of a typed function keeps to its types, and needs no call that the guard refuses. */
  lemma {:induction false} ActivationRuns(m: Module, ext: Oracle, depth: nat, k: nat, fuel: nat, fn: nat,
                                          vs: seq<Value>, w: World)
    requires ModuleTyped(m) && ExtTame(m, ext) && Fits(m, fn, vs, depth) && Good(w, depth) && k > 0
             && m[fn].blocks != []
    requires RunFunction(Activation(m, ext, depth, k, fuel, vs), m[fn].blocks, w, fuel).Done?
    ensures var env := Activation(m, ext, depth, k, fuel, vs);
            var r := RunFunction(env, m[fn].blocks, w, fuel);
            && RunFunction(Guarded(m, env), m[fn].blocks, w, fuel) == r
            && (r.v.Some? ==> Number(r.v.value)) && Good(r.w, depth + 1) && OnlyWithin(env, w, r.w)
    decreases k, 0
  {
    hide ExtTame, Run, CallFn, CallsTame, Guarded, CodeTyped;
    var env := Activation(m, ext, depth, k, fuel, vs);
    assert FunctionTyped(SigsOf(m), m[fn]);
    var types :| CodeTyped(SigsOf(m), m[fn].params, types, m[fn].blocks);
    ActivationTame(m, ext, depth, k, fuel, vs);
    RunTyped(m, m[fn], env, types, w, State(map[], map[], w), 0, 0, fuel);
  }

  lemma {:induction false} ActivationTame(m: Module, ext: Oracle, depth: nat, k: nat, fuel: nat, vs: seq<Value>)
    requires ModuleTyped(m) && ExtTame(m, ext) && k > 0
    ensures CallsTame(m, Activation(m, ext, depth, k, fuel, vs).call, depth + 1)
    decreases k - 1, 2
  {
    hide ModuleTyped, ExtTame, Fits, Good, CallFn, Tame;
    var call := Activation(m, ext, depth, k, fuel, vs).call;
    forall fn, args, w {:trigger call(fn, args, w)} | Fits(m, fn, args, depth + 1) && Good(w, depth + 1)
                                                     && call(fn, args, w).Some?
      ensures Tame(args, w, depth + 1, call(fn, args, w).value)
    {
      CallTame(m, ext, depth + 1, k - 1, fuel, fn, args, w);
    }
  }
}

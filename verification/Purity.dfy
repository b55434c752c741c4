/** What a pure function does to the world: nothing, and its result depends only on its arguments. */
module Purity {
  import opened IR
  import opened DeadCode
  import opened FuncInfo

  // ----- calls between the functions of a module -------------------------------------------------------

  /** The local arrays of an activation are gone when it returns. */
  function DropFrame(w: World, depth: nat): World {
    w.(mem := map k | k in w.mem && !(k.0.LocalArray? && k.0.depth == depth) :: w.mem[k])
  }

  /** The activation at `depth` of a function called with `args`; it can nest `k` more calls. */
  function Activation(m: Module, ext: Oracle, depth: nat, k: nat, fuel: nat, args: seq<Value>): Env
    requires k > 0
    decreases k, 0
  {
    Env(args, depth, (fn: nat, vs: seq<Value>, w: World) => CallFn(m, ext, depth + 1, k - 1, fuel, fn, vs, w))
  }

  /** A call: declarations are left to `ext`; None when the callee does not return within the bounds. */
  function CallFn(m: Module, ext: Oracle, depth: nat, k: nat, fuel: nat, fn: nat, vs: seq<Value>,
                  w: World): Option<(Value, World)>
    decreases k, 1
  {
    if fn >= |m| then None
    else if m[fn].blocks == [] then ext(fn, vs, w)
    else if k == 0 then None
    else match RunFunction(Activation(m, ext, depth, k, fuel, vs), m[fn].blocks, w, fuel)
      case Done(v, w') => Some((if v.Some? then v.value else Int(0), DropFrame(w', depth)))
      case _ => None
  }

  predicate InSet(L: set<nat>, o: Operand) {
    o.Reg? && o.r in L
  }

  /** Set by an alloca, by a getelementptr on a register of `L`, or by a phi with operands of `L` only. */
  predicate SetLocally(L: set<nat>, x: Item) {
    match x
    case PhiItem(p) => forall k :: 0 <= k < |p.pairs| ==> InSet(L, p.pairs[k].0)
    case InstrItem(i) => i.Alloca? || (i.Gep? && InSet(L, i.base))
  }

  /** The registers of `L` hold local addresses only, and all loads and stores go through them. */
  ghost predicate Confined(f: seq<Block>, L: set<nat>) {
    && (forall x :: x in Items(f) && ItemHasDst(x) && ItemDst(x) in L ==> SetLocally(L, x))
    && (forall x :: x in Items(f) && x.InstrItem? && (x.i.Load? || x.i.Store?) ==> InSet(L, x.i.ptr))
  }

  ghost predicate LocalAddresses(f: seq<Block>) {
    exists L :: Confined(f, L)
  }

  /** Functions that get at nothing but their own frame and call only each other. */
  ghost predicate PureSet(m: Module, P: set<nat>)
    requires ModuleOk(m)
  {
    && (forall f: nat :: f in P ==> f < |m| && m[f].blocks != [] && LocalAddresses(m[f].blocks))
    && (forall f: nat, g: nat {:trigger Calls(m, f, g)} :: f in P && f < |m| && Calls(m, f, g) ==> g in P)
  }

  /** The world knows of no activation at `depth` or deeper. */
  ghost predicate NoFrames(w: World, depth: nat) {
    forall k :: k in w.mem && k.0.LocalArray? ==> k.0.depth < depth
  }

  /** Calls of the functions in `P` leave the world alone and do not look at it. */
  ghost predicate Blind(call: Oracle, P: set<nat>, depth: nat) {
    forall fn, vs, w1, w2 {:trigger call(fn, vs, w1), call(fn, vs, w2)} ::
      fn in P && NoFrames(w1, depth) && NoFrames(w2, depth) && call(fn, vs, w1).Some? ==>
        call(fn, vs, w1) == Some((call(fn, vs, w1).value.0, w1)) && call(fn, vs, w2)
        == Some((call(fn, vs, w1).value.0, w2))
  }

  // ----- two runs of one pure function -------------------------------------------------------------------

  predicate Own(depth: nat, k: (Region, int)) {
    k.0.LocalArray? && k.0.depth == depth
  }

  predicate LocalVal(depth: nat, v: Value) {
    v.SlotPtr? || (v.Ptr? && v.region.LocalArray? && v.region.depth == depth)
  }

  /** The registers of `L` hold addresses of this activation. */
  ghost predicate LocalRegs(L: set<nat>, depth: nat, regs: map<nat, Value>) {
    forall r :: r in regs && r in L ==> LocalVal(depth, regs[r])
  }

  /** `w` is `w0` with other contents in the local arrays of this activation, which both runs share. */
  ghost predicate OnlyOwn(depth: nat, w0: World, w: World, own: map<(Region, int), Value>) {
    && w.trace == w0.trace
    && (forall k {:trigger k in w.mem} :: !Own(depth, k) ==> (k in w.mem <==> k in w0.mem)
                                                             && (k in w.mem ==> w.mem[k] == w0.mem[k]))
    && (forall k {:trigger k in own} {:trigger k in w.mem} :: Own(depth, k) ==>
          (k in own <==> k in w.mem) && (k in w.mem ==> w.mem[k] == own[k]))
  }

  ghost predicate Twin(L: set<nat>, depth: nat, w1: World, w2: World, s1: State, s2: State) {
    && s1.regs == s2.regs && s1.slots == s2.slots && LocalRegs(L, depth, s1.regs)
    && NoFrames(w1, depth) && NoFrames(w2, depth)
    && OnlyOwn(depth, w1, s1.world, s1.world.mem) && OnlyOwn(depth, w2, s2.world, s1.world.mem)
  }

  lemma LocalOperand(env: Env, L: set<nat>, regs: map<nat, Value>, o: Operand)
    requires LocalRegs(L, env.depth, regs) && InSet(L, o) && Eval(env, regs, o).Some?
    ensures LocalVal(env.depth, Eval(env, regs, o).value)
  {}

  lemma TwinWrite(L: set<nat>, depth: nat, w1: World, w2: World, s1: State, s2: State, d: nat, v: Value)
    requires Twin(L, depth, w1, w2, s1, s2)
    requires d in L ==> LocalVal(depth, v)
    ensures Twin(L, depth, w1, w2, s1.(regs := s1.regs[d := v]), s2.(regs := s2.regs[d := v]))
  {}

  lemma TwinStep(env: Env, f: seq<Block>, P: set<nat>, L: set<nat>, w1: World, w2: World, s1: State, s2: State,
                 i: Instr)
    requires Confined(f, L) && InstrItem(i) in Items(f)
    requires Blind(env.call, P, env.depth + 1) && (i.Call? ==> i.fn in P)
    requires Twin(L, env.depth, w1, w2, s1, s2) && Step(env, i, s1).Some?
    ensures Step(env, i, s2).Some? && Twin(L, env.depth, w1, w2, Step(env, i, s1).value, Step(env, i, s2).value)
  {
    hide Blind, Confined;
    var vs := EvalAll(env, s1.regs, Operands(i)).value;
    if i.Load? {
      TwinLoad(env, f, L, w1, w2, s1, s2, i);
    } else if i.Store? {
      TwinStore(env, f, L, w1, w2, s1, s2, i);
    } else if i.Alloca? {
      TwinAlloca(env, L, w1, w2, s1, s2, i);
    } else if i.Call? {
      TwinCall(env, f, P, L, w1, w2, s1, s2, i, vs);
    } else {
      TwinPure(env, f, L, w1, w2, s1, s2, i, vs);
    }
  }

  /** What sets a register of `L`. */
  lemma GepOnLocal(f: seq<Block>, L: set<nat>, i: Instr)
    requires Confined(f, L) && InstrItem(i) in Items(f) && HasDst(i) && i.dst in L
    ensures i.Alloca? || (i.Gep? && InSet(L, i.base))
  {
    assert ItemDst(InstrItem(i)) == i.dst;
  }

  lemma NotLocal(f: seq<Block>, L: set<nat>, i: Instr)
    requires Confined(f, L) && InstrItem(i) in Items(f) && (i.Load? || i.Call?)
    ensures i.dst !in L
  {
    if i.dst in L { GepOnLocal(f, L, i); }
  }

  lemma AddressLocal(env: Env, f: seq<Block>, L: set<nat>, regs: map<nat, Value>, i: Instr)
    requires Confined(f, L) && InstrItem(i) in Items(f)
    requires (i.Load? || i.Store?) && LocalRegs(L, env.depth, regs) && Eval(env, regs, i.ptr).Some?
    ensures LocalVal(env.depth, Eval(env, regs, i.ptr).value)
  {
    LocalOperand(env, L, regs, i.ptr);
  }

  lemma TwinLoad(env: Env, f: seq<Block>, L: set<nat>, w1: World, w2: World, s1: State, s2: State, i: Instr)
    requires Confined(f, L) && InstrItem(i) in Items(f) && i.Load?
    requires Twin(L, env.depth, w1, w2, s1, s2) && Step(env, i, s1).Some?
    ensures Step(env, i, s2).Some? && Twin(L, env.depth, w1, w2, Step(env, i, s1).value, Step(env, i, s2).value)
  {
    hide Confined;
    EvalOne(env, s1.regs, i.ptr);
    AddressLocal(env, f, L, s1.regs, i);
    var v := Step(env, i, s1).value.regs[i.dst];
    NotLocal(f, L, i);
    TwinWrite(L, env.depth, w1, w2, s1, s2, i.dst, v);
  }

  lemma TwinStore(env: Env, f: seq<Block>, L: set<nat>, w1: World, w2: World, s1: State, s2: State, i: Instr)
    requires Confined(f, L) && InstrItem(i) in Items(f) && i.Store?
    requires Twin(L, env.depth, w1, w2, s1, s2) && Step(env, i, s1).Some?
    ensures Step(env, i, s2).Some? && Twin(L, env.depth, w1, w2, Step(env, i, s1).value, Step(env, i, s2).value)
  {
    hide Confined, LocalRegs, OnlyOwn, NoFrames;
    EvalTwo(env, s1.regs, i.val, i.ptr);
    AddressLocal(env, f, L, s1.regs, i);
    var v, p := Eval(env, s1.regs, i.val).value, Eval(env, s1.regs, i.ptr).value;
    if p.Ptr? {
      OwnWrite(env.depth, w1, s1.world, s1.world.mem, (p.region, p.off), v);
      OwnWrite(env.depth, w2, s2.world, s1.world.mem, (p.region, p.off), v);
    }
  }

  lemma OwnWrite(depth: nat, w0: World, w: World, own: map<(Region, int), Value>, k: (Region, int), v: Value)
    requires OnlyOwn(depth, w0, w, own) && Own(depth, k)
    ensures OnlyOwn(depth, w0, w.(mem := w.mem[k := v]), own[k := v])
  {}

  lemma TwinAlloca(env: Env, L: set<nat>, w1: World, w2: World, s1: State, s2: State, i: Instr)
    requires i.Alloca? && Twin(L, env.depth, w1, w2, s1, s2)
    ensures Step(env, i, s1).Some? && Step(env, i, s2).Some? && Twin(L, env.depth, w1, w2, Step(env, i, s1).value,
                                                                     Step(env, i, s2).value)
  {
    assert Operands(i) == [];
    if i.ty.ArraySlot? {
      var g := LocalArray(env.depth, i.dst);
      var t1, t2 := s1.(world := s1.world.(mem := ClearRegion(s1.world.mem, g))),
          s2.(world := s2.world.(mem := ClearRegion(s2.world.mem, g)));
      TwinWrite(L, env.depth, w1, w2, t1, t2, i.dst, Ptr(g, 0));
    } else {
      TwinWrite(L, env.depth, w1, w2, s1.(slots := s1.slots - {i.dst}), s2.(slots := s2.slots - {i.dst}), i.dst,
                SlotPtr(i.dst, i.ty));
    }
  }

  lemma TwinCall(env: Env, f: seq<Block>, P: set<nat>, L: set<nat>, w1: World, w2: World, s1: State, s2: State,
                 i: Instr, vs: seq<Value>)
    requires Confined(f, L) && InstrItem(i) in Items(f) && i.Call? && i.fn in P && Blind(env.call, P, env.depth + 1)
    requires Twin(L, env.depth, w1, w2, s1, s2) && Step(env, i, s1).Some?
             && EvalAll(env, s1.regs, Operands(i)) == Some(vs)
    ensures Step(env, i, s2).Some? && Twin(L, env.depth, w1, w2, Step(env, i, s1).value, Step(env, i, s2).value)
  {
    NoFramesInside(env.depth, w1, s1.world, s1.world.mem);
    NoFramesInside(env.depth, w2, s2.world, s1.world.mem);
    var v := env.call(i.fn, vs, s1.world).value.0;
    assert env.call(i.fn, vs, s2.world) == Some((v, s2.world));
    assert s1.(world := s1.world) == s1;
    NotLocal(f, L, i);
    TwinWrite(L, env.depth, w1, w2, s1, s2, i.dst, v);
  }

  lemma NoFramesInside(depth: nat, w0: World, w: World, own: map<(Region, int), Value>)
    requires NoFrames(w0, depth) && OnlyOwn(depth, w0, w, own)
    ensures NoFrames(w, depth + 1)
  {}

  lemma TwinPure(env: Env, f: seq<Block>, L: set<nat>, w1: World, w2: World, s1: State, s2: State, i: Instr,
                 vs: seq<Value>)
    requires Confined(f, L) && InstrItem(i) in Items(f) && Computes(i) && !i.Call?
    requires Twin(L, env.depth, w1, w2, s1, s2) && Step(env, i, s1).Some?
             && EvalAll(env, s1.regs, Operands(i)) == Some(vs)
    ensures Step(env, i, s2).Some? && Twin(L, env.depth, w1, w2, Step(env, i, s1).value, Step(env, i, s2).value)
  {
    hide Confined;
    StepComputes(env, i, s1);
    StepComputes(env, i, s2);
    var v := PureSem(i, vs).value;
    if i.dst in L {
      GepOnLocal(f, L, i);
      GepValueLocal(env, f, L, s1.regs, i, vs);
    }
    TwinWrite(L, env.depth, w1, w2, s1, s2, i.dst, v);
  }

  lemma GepValueLocal(env: Env, f: seq<Block>, L: set<nat>, regs: map<nat, Value>, i: Instr, vs: seq<Value>)
    requires Confined(f, L) && InstrItem(i) in Items(f) && i.Gep? && InSet(L, i.base)
    requires LocalRegs(L, env.depth, regs) && EvalAll(env, regs, Operands(i)) == Some(vs)
             && PureSem(i, vs).Some?
    ensures LocalVal(env.depth, PureSem(i, vs).value)
  {
    assert Operands(i)[0] == i.base;
    LocalOperand(env, L, regs, i.base);
    assert vs[0] == Eval(env, regs, i.base).value;
  }

  // ----- phis, blocks and runs ----------------------------------------------------------------------------

  lemma {:induction false} PairLocal(L: set<nat>, pairs: seq<(Operand, nat)>, from: nat)
    requires forall k :: 0 <= k < |pairs| ==> InSet(L, pairs[k].0)
    ensures PairFor(pairs, from).Some? ==> InSet(L, PairFor(pairs, from).value)
  {
    if pairs != [] { PairLocal(L, pairs[1..], from); }
  }

  lemma {:induction false} PhisKeepLocal(env: Env, L: set<nat>, phis: seq<Phi>, from: nat, before: map<nat, Value>,
                                         regs: map<nat, Value>)
    requires LocalRegs(L, env.depth, before) && LocalRegs(L, env.depth, regs)
    requires forall p :: p in phis && p.dst in L ==> SetLocally(L, PhiItem(p))
    ensures LocalRegs(L, env.depth, EnterPhis(env, phis, from, before, regs))
    decreases phis
  {
    if phis != [] {
      var p := phis[0];
      assert p in phis;
      var o := PairFor(p.pairs, from);
      if p.dst in L {
        PairLocal(L, p.pairs, from);
        if o.Some? && Eval(env, before, o.value).Some? { LocalOperand(env, L, before, o.value); }
      }
      var regs' := if o.Some? && Eval(env, before, o.value).Some? then regs[p.dst := Eval(env, before, o.value).value]
          else regs - {p.dst};
      PhisKeepLocal(env, L, phis[1..], from, before, regs');
    }
  }

  ghost predicate TwinNext(L: set<nat>, depth: nat, w1: World, w2: World, n1: Next, n2: Next) {
    match n1
    case Goto(b, s) => n2.Goto? && n2.to == b && Twin(L, depth, w1, w2, s, n2.s)
    case Return(v, w) => n2.Return? && n2.v == v && OnlyOwn(depth, w1, w, w.mem) && OnlyOwn(depth, w2, n2.w, w.mem)
    case Stuck => true
  }

  /** The function gets at nothing but its own frame, and calls only functions of `P`. */
  ghost predicate PureBody(f: seq<Block>, P: set<nat>, L: set<nat>)
  {
    Confined(f, L) && forall x :: x in Items(f) && x.InstrItem? && x.i.Call? ==> x.i.fn in P
  }

  lemma TwinEnd(env: Env, L: set<nat>, w1: World, w2: World, s1: State, s2: State, i: Instr)
    requires Twin(L, env.depth, w1, w2, s1, s2)
    ensures TwinNext(L, env.depth, w1, w2, End(env, i, s1), End(env, i, s2))
  {}

  lemma {:induction false} TwinBody(env: Env, f: seq<Block>, P: set<nat>, L: set<nat>, w1: World, w2: World,
                                    s1: State, s2: State, body: seq<Instr>)
    requires PureBody(f, P, L) && Blind(env.call, P, env.depth + 1)
    requires forall i :: i in body ==> InstrItem(i) in Items(f)
    requires Twin(L, env.depth, w1, w2, s1, s2)
    ensures TwinNext(L, env.depth, w1, w2, ExecBody(env, body, s1), ExecBody(env, body, s2))
    decreases body
  {
    hide Confined, Blind, Twin, Step, End, SideEffect, OnlyOwn;
    if body != [] {
      if IsTerminator(body[0]) {
        TwinEnd(env, L, w1, w2, s1, s2, body[0]);
      } else if Step(env, body[0], s1).Some? {
        assert InstrItem(body[0]) in Items(f);
        TwinStep(env, f, P, L, w1, w2, s1, s2, body[0]);
        TwinBody(env, f, P, L, w1, w2, Step(env, body[0], s1).value, Step(env, body[0], s2).value, body[1..]);
      }
    }
  }

  lemma PhisLocal(f: seq<Block>, P: set<nat>, L: set<nat>, b: nat)
    requires PureBody(f, P, L) && b < |f|
    ensures forall p :: p in f[b].phis && p.dst in L ==> SetLocally(L, PhiItem(p))
  {
    forall p | p in f[b].phis && p.dst in L
      ensures SetLocally(L, PhiItem(p))
    {
      assert PhiItem(p) in BlockItems(f[b]);
      assert ItemDst(PhiItem(p)) == p.dst;
    }
  }

  lemma TwinBlock(env: Env, f: seq<Block>, P: set<nat>, L: set<nat>, w1: World, w2: World, s1: State, s2: State,
                  b: nat, from: nat)
    requires PureBody(f, P, L) && Blind(env.call, P, env.depth + 1) && b < |f|
    requires Twin(L, env.depth, w1, w2, s1, s2)
    ensures TwinNext(L, env.depth, w1, w2, RunBlock(env, f[b], from, s1), RunBlock(env, f[b], from, s2))
  {
    hide PureBody, Blind, LocalRegs, OnlyOwn, NoFrames, ExecBody, TwinNext;
    PhisLocal(f, P, L, b);
    forall i | i in f[b].body ensures InstrItem(i) in Items(f) { assert InstrItem(i) in BlockItems(f[b]); }
    PhisKeepLocal(env, L, f[b].phis, from, s1.regs, s1.regs);
    var regs := EnterPhis(env, f[b].phis, from, s1.regs, s1.regs);
    TwinBody(env, f, P, L, w1, w2, s1.(regs := regs), s2.(regs := regs), f[b].body);
  }

  lemma {:induction false} TwinRun(env: Env, f: seq<Block>, P: set<nat>, L: set<nat>, w1: World, w2: World, s1: State,
                                   s2: State, b: nat, from: nat, fuel: nat)
    requires PureBody(f, P, L) && Blind(env.call, P, env.depth + 1)
    requires Twin(L, env.depth, w1, w2, s1, s2) && Run(env, f, b, from, s1, fuel).Done?
    ensures var r1, r2 := Run(env, f, b, from, s1, fuel), Run(env, f, b, from, s2, fuel);
            r2.Done? && r2.v == r1.v && OnlyOwn(env.depth, w1, r1.w, r1.w.mem) && OnlyOwn(env.depth, w2, r2.w, r1.w.mem)
    decreases fuel
  {
    hide PureBody, Blind, Twin, OnlyOwn, RunBlock;
    TwinBlock(env, f, P, L, w1, w2, s1, s2, b, from);
    var n1, n2 := RunBlock(env, f[b], from, s1), RunBlock(env, f[b], from, s2);
    if n1.Goto? { TwinRun(env, f, P, L, w1, w2, n1.s, n2.s, n1.to, b, fuel - 1); }
  }

  lemma DropsOwn(depth: nat, w0: World, w: World, own: map<(Region, int), Value>)
    requires NoFrames(w0, depth) && OnlyOwn(depth, w0, w, own)
    ensures DropFrame(w, depth) == w0
  {
    var d := DropFrame(w, depth);
    assert d.mem == w0.mem by {
      forall k ensures k in d.mem <==> k in w0.mem { assert k in w.mem <==> k in w.mem; }
    }
  }

  lemma PureSetBody(m: Module, P: set<nat>, f: nat) returns (L: set<nat>)
    requires ModuleOk(m) && PureSet(m, P) && f in P
    ensures f < |m| && m[f].blocks != [] && PureBody(m[f].blocks, P, L)
  {
    hide Confined;
    var bs := m[f].blocks;
    L :| Confined(bs, L);
    forall x | x in Items(bs) && x.InstrItem? && x.i.Call? ensures x.i.fn in P {
      var b :| 0 <= b < |bs| && x in BlockItems(bs[b]);
      assert x.i in bs[b].body;
      assert CallsIn(bs[b].body, x.i.fn);
      assert Calls(m, f, x.i.fn);
    }
  }

  /** Purity is semantic: a call of a function of `P` that returns leaves every cell and the trace as
      they were, and returns the same value in every other world. */
  lemma {:induction false} PureCall(m: Module, ext: Oracle, P: set<nat>, depth: nat, k: nat, fuel: nat, fn: nat,
                                    vs: seq<Value>, w1: World, w2: World)
    requires ModuleOk(m) && PureSet(m, P) && fn in P && NoFrames(w1, depth) && NoFrames(w2, depth)
    requires CallFn(m, ext, depth, k, fuel, fn, vs, w1).Some?
    ensures var v := CallFn(m, ext, depth, k, fuel, fn, vs, w1).value.0;
            CallFn(m, ext, depth, k, fuel, fn, vs, w1) == Some((v, w1))
            && CallFn(m, ext, depth, k, fuel, fn, vs, w2) == Some((v, w2))
    decreases k
  {
    hide ModuleOk, PureSet, PureBody, OnlyOwn, NoFrames, Run, DropFrame;
    var L := PureSetBody(m, P, fn);
    var f, env := m[fn].blocks, Activation(m, ext, depth, k, fuel, vs);
    CallsBlind(m, ext, P, depth, k, fuel, vs);
    var s1, s2 := State(map[], map[], w1), State(map[], map[], w2);
    TwinStart(L, depth, w1, w2);
    TwinRun(env, f, P, L, w1, w2, s1, s2, 0, 0, fuel);
    var r1, r2 := RunFunction(env, f, w1, fuel), RunFunction(env, f, w2, fuel);
    DropsOwn(depth, w1, r1.w, r1.w.mem);
    DropsOwn(depth, w2, r2.w, r1.w.mem);
  }

  lemma TwinStart(L: set<nat>, depth: nat, w1: World, w2: World)
    requires NoFrames(w1, depth) && NoFrames(w2, depth)
    ensures Twin(L, depth, w1, w2, State(map[], map[], w1), State(map[], map[], w2))
  {}

  lemma {:induction false} CallsBlind(m: Module, ext: Oracle, P: set<nat>, depth: nat, k: nat, fuel: nat,
                                      vs: seq<Value>)
    requires ModuleOk(m) && PureSet(m, P) && k > 0
    ensures Blind(Activation(m, ext, depth, k, fuel, vs).call, P, depth + 1)
    decreases k, 0
  {
    hide ModuleOk, PureSet, NoFrames, CallFn;
    var call := Activation(m, ext, depth, k, fuel, vs).call;
    forall fn, args, w1, w2 {:trigger call(fn, args, w1), call(fn, args, w2)} |
      fn in P && NoFrames(w1, depth + 1) && NoFrames(w2, depth + 1) && call(fn, args, w1).Some?
      ensures call(fn, args, w1) == Some((call(fn, args, w1).value.0, w1))
              && call(fn, args, w2) == Some((call(fn, args, w1).value.0, w2))
    {
      PureCall(m, ext, P, depth + 1, k - 1, fuel, fn, args, w1, w2);
    }
  }

  /** The functions that the analysis leaves pure. */
  function PureOf(m: Module, isPure: map<nat, bool>): set<nat> {
    set f | f in isPure && f < |m| && isPure[f]
  }

  lemma AnalysisIsPureSet(m: Module, isPure: map<nat, bool>)
    requires ModuleOk(m) && forall f: nat :: f < |m| ==> f in isPure && (isPure[f] <==> !Impure(m, f))
    requires forall f: nat :: f in PureOf(m, isPure) ==> LocalAddresses(m[f].blocks)
    ensures PureSet(m, PureOf(m, isPure)) && forall f :: f in PureOf(m, isPure) ==> !TrivialImpure(m, f)
  {
    forall f: nat | f in PureOf(m, isPure) ensures !TrivialImpure(m, f) {
      if TrivialImpure(m, f) { TrivialIsImpure(m, f); }
    }
    forall f: nat, g: nat {:trigger Calls(m, f, g)} | f in PureOf(m, isPure) && Calls(m, f, g)
      ensures g in PureOf(m, isPure)
    {
      if Impure(m, g) { ImpureCaller(m, f, g); }
    }
  }

  /** What dead-code removal asks of the calls it drops holds of every activation in the module. */
  lemma PureCallsMayGo(m: Module, ext: Oracle, P: set<nat>, depth: nat, k: nat, fuel: nat, vs: seq<Value>)
    requires ModuleOk(m) && PureSet(m, P) && k > 0
    ensures CallsPure(Activation(m, ext, depth, k, fuel, vs), P)
  {
    var env := Activation(m, ext, depth, k, fuel, vs);
    forall fn: nat, args: seq<Value>, w: World | fn in P && (forall c :: c in w.mem ==> !Deeper(depth, c.0))
                                                 && env.call(fn, args, w).Some?
      ensures env.call(fn, args, w).value.1 == w
    {
      PureCall(m, ext, P, depth + 1, k - 1, fuel, fn, args, w, w);
    }
  }

  // ----- what the analysis sees ------------------------------------------------------------------------------------

  /** No address is computed by a phi. */
  ghost predicate PlainAddresses(f: seq<Block>)
    requires UniqueDefs(f)
  {
    forall x {:trigger x in Items(f)} :: x in Items(f) && x.InstrItem? ==>
      && (x.i.Load? || x.i.Store? ==> Plain(DefMap(f), x.i.ptr))
      && (x.i.Gep? ==> Plain(DefMap(f), x.i.base))
  }

  predicate Plain(defs: map<nat, Item>, o: Operand) {
    o.Reg? && o.r in defs ==> defs[o.r].InstrItem?
  }

  lemma {:induction false} FirstAddrMore(defs: map<nat, Item>, o: Operand, n: nat)
    requires FirstAddr(defs, o, n).Some?
    ensures FirstAddr(defs, o, n + 1) == FirstAddr(defs, o, n)
    decreases n
  {
    if o.Reg? && o.r in defs && n > 0 {
      match defs[o.r]
      case InstrItem(Gep(_, base, _)) => FirstAddrMore(defs, base, n - 1);
      case PhiItem(p) => if p.pairs != [] { FirstAddrMore(defs, p.pairs[0].0, n - 1); }
      case _ =>
    }
  }

  /** An address computed by getelementptr is local when its base is. */
  lemma GepLocal(defs: map<nat, Item>, r: nat)
    requires r in defs && defs[r].InstrItem? && IsLocal(defs, Reg(r))
    ensures defs[r].i.Alloca? || (defs[r].i.Gep? && IsLocal(defs, defs[r].i.base))
  {
    if defs[r].i.Gep? { FirstAddrMore(defs, defs[r].i.base, |defs| - 1); }
  }

  /** Without phis in addresses the analysis sees through all of them: a function without side effects has
      local addresses only. */
  lemma PlainIsLocal(f: seq<Block>)
    requires UniqueDefs(f) && PlainAddresses(f) && !SideEffects(DefMap(f), f)
    ensures LocalAddresses(f)
  {
    hide UniqueDefs;
    var defs := DefMap(f);
    var L := set r | r in defs && defs[r].InstrItem? && IsLocal(defs, Reg(r));
    forall x | x in Items(f) && ItemHasDst(x) && ItemDst(x) in L ensures SetLocally(L, x) {
      GepLocal(defs, ItemDst(x));
    }
    forall x | x in Items(f) && x.InstrItem? && (x.i.Load? || x.i.Store?) ensures InSet(L, x.i.ptr) {
      var b :| 0 <= b < |f| && x in BlockItems(f[b]);
      assert x.i in f[b].body && !SideEffect(defs, x.i);
    }
    assert Confined(f, L);
  }

  // ----- an address that is computed by a phi ---------------------------------------------------------------

  /** Stores to a local array or to a global variable, depending on the branch taken. */
  const MixedPhi := Phi(1, 0, [(Reg(0), 1), (GlobalAddr(0), 2)])

  const Mixed: seq<Block> := [
    Block([], [Alloca(0, ArraySlot(1)), CondBr(Arg(0), 1, 2)]),
    Block([], [Br(3)]),
    Block([], [Br(3)]),
    Block([MixedPhi], [Store(ConstInt(7), Reg(1)), Ret(None)])]

  lemma MixedItems()
    ensures UniqueDefs(Mixed)
    ensures InstrItem(Alloca(0, ArraySlot(1))) in Items(Mixed) && PhiItem(MixedPhi) in Items(Mixed)
    ensures forall x :: x in Items(Mixed) && ItemHasDst(x) ==> x == InstrItem(Alloca(0, ArraySlot(1)))
                                                               || x == PhiItem(MixedPhi)
    ensures forall b, i :: 0 <= b < 4 && i in Mixed[b].body && (i.Load? || i.Store?) ==> i == Store(ConstInt(7), Reg(1))
  {
    assert Mixed[0].body[0] == Alloca(0, ArraySlot(1)) && Mixed[3].phis[0] == MixedPhi;
    assert InstrItem(Alloca(0, ArraySlot(1))) in BlockItems(Mixed[0]) && PhiItem(MixedPhi) in BlockItems(Mixed[3]);
  }

  /** Only the first operand of the phi is looked at: the function passes for one without side effects,
      and changes a global variable when its argument is 0. So the theorem needs `LocalAddresses`. */
  lemma PhiAddressMisjudged(ext: Oracle, w: World)
    ensures UniqueDefs(Mixed) && !SideEffects(DefMap(Mixed), Mixed)
    ensures !LocalAddresses(Mixed)
    ensures RunFunction(Env([Int(0)], 0, ext), Mixed, w, 3).Done?
    ensures RunFunction(Env([Int(0)], 0, ext), Mixed, w, 3).w.mem == ClearRegion(w.mem,
                                                                                 LocalArray(0, 0))[(GlobalVar(0),
                                                                                     0) := Int(7)]
  {
    hide RunFunction, ClearRegion;
    MixedItems();
    MixedStatic();
    MixedRun(ext, w);
  }

  lemma MixedStatic()
    ensures UniqueDefs(Mixed) && !SideEffects(DefMap(Mixed), Mixed) && !LocalAddresses(Mixed)
  {
    hide UniqueDefs;
    MixedItems();
    var defs, x, st := DefMap(Mixed), InstrItem(Alloca(0, ArraySlot(1))), Store(ConstInt(7), Reg(1));
    assert ItemDst(x) == 0 && ItemDst(PhiItem(MixedPhi)) == 1;
    assert 0 in defs && |defs| > 0;
    assert FirstAddr(defs, Reg(1), |defs|) == FirstAddr(defs, Reg(0), |defs| - 1) == Some(Reg(0));
    assert st == Mixed[3].body[0] && InstrItem(st) in BlockItems(Mixed[3]);
    assert InstrItem(st) in Items(Mixed);
    forall L ensures !Confined(Mixed, L) {
      assert MixedPhi.pairs[1].0 == GlobalAddr(0);
      assert Confined(Mixed, L) ==> SetLocally(L, PhiItem(MixedPhi));
    }
  }

  lemma TwoInstrs(env: Env, a: Instr, b: Instr, s: State, s': State)
    requires !IsTerminator(a) && IsTerminator(b) && Step(env, a, s) == Some(s')
    ensures ExecBody(env, [a, b], s) == End(env, b, s')
  {
    assert [a, b][1..] == [b];
  }

  lemma MixedRun(ext: Oracle, w: World)
    ensures RunFunction(Env([Int(0)], 0, ext), Mixed, w, 3).Done?
    ensures RunFunction(Env([Int(0)], 0, ext), Mixed, w, 3).w.mem == ClearRegion(w.mem,
                                                                                 LocalArray(0, 0))[(GlobalVar(0),
                                                                                     0) := Int(7)]
  {
    var env, g := Env([Int(0)], 0, ext), LocalArray(0, 0);
    var s0 := State(map[], map[], w);
    var s1 := State(map[0 := Ptr(g, 0)], map[], w.(mem := ClearRegion(w.mem, g)));
    assert s0.regs[0 := Ptr(g, 0)] == s1.regs;
    assert Step(env, Mixed[0].body[0], s0) == Some(s1);
    TwoInstrs(env, Mixed[0].body[0], CondBr(Arg(0), 1, 2), s0, s1);
    assert s0.(regs := EnterPhis(env, Mixed[0].phis, 0, s0.regs, s0.regs)) == s0;
    assert RunBlock(env, Mixed[0], 0, s0) == Goto(2, s1);
    assert RunBlock(env, Mixed[2], 0, s1) == Goto(3, s1);
    var k := Mixed[3];
    var regs := EnterPhis(env, k.phis, 2, s1.regs, s1.regs);
    assert k.phis[1..] == [] && MixedPhi.pairs[1..] == [(GlobalAddr(0), 2)];
    assert PairFor(MixedPhi.pairs, 2) == Some(GlobalAddr(0));
    assert regs == s1.regs[1 := Ptr(GlobalVar(0), 0)] by {
      assert EnterPhis(env, [], 2, s1.regs, s1.regs[1 := Ptr(GlobalVar(0), 0)]) == s1.regs[1 := Ptr(GlobalVar(0), 0)];
    }
    var s2 := s1.(regs := regs);
    EvalTwo(env, regs, ConstInt(7), Reg(1));
    var s3 := s2.(world := s2.world.(mem := s2.world.mem[(GlobalVar(0), 0) := Int(7)]));
    assert Step(env, k.body[0], s2) == Some(s3);
    TwoInstrs(env, k.body[0], Ret(None), s2, s3);
    assert RunBlock(env, k, 2, s1) == Return(None, s3.world);
    assert Run(env, Mixed, 3, 2, s1, 1) == Done(None, s3.world);
    assert Run(env, Mixed, 2, 0, s1, 2) == Run(env, Mixed, 3, 2, s1, 1);
  }
}

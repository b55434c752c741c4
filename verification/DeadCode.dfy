/** Dead-code removal: mark what critical instructions need, sweep the rest. */
module DeadCode {
  import opened IR

  /** An instruction of either kind. Instructions that share a value are critical, so marking one of
      them is marking all of them. */
  datatype Item = PhiItem(p: Phi) | InstrItem(i: Instr)

  predicate ItemHasDst(x: Item) {
    x.PhiItem? || HasDst(x.i)
  }

  function ItemDst(x: Item): nat
    requires ItemHasDst(x)
  {
    if x.PhiItem? then x.p.dst else x.i.dst
  }

  function PairValues(pairs: seq<(Operand, nat)>): (os: seq<Operand>)
    ensures |os| == |pairs| && forall k :: 0 <= k < |pairs| ==> os[k] == pairs[k].0
  {
    if pairs == [] then [] else [pairs[0].0] + PairValues(pairs[1..])
  }

  function ItemOperands(x: Item): seq<Operand> {
    if x.PhiItem? then PairValues(x.p.pairs) else Operands(x.i)
  }

  function BlockItems(k: Block): set<Item> {
    (set p | p in k.phis :: PhiItem(p)) + (set i | i in k.body :: InstrItem(i))
  }

  function Items(f: seq<Block>): set<Item> {
    set b, x | 0 <= b < |f| && x in BlockItems(f[b]) :: x
  }

  /** Calls of impure functions, branches, returns and stores are needed for their effect. */
  predicate Critical(pure: set<nat>, x: Item) {
    x.InstrItem? && ((x.i.Call? && x.i.fn !in pure) || IsTerminator(x.i) || x.i.Store?)
  }

  predicate Needs(x: Item, y: Item) {
    ItemHasDst(y) && Reg(ItemDst(y)) in ItemOperands(x)
  }

  /** Holds the critical instructions, and the definitions of all operands of what it holds. */
  ghost predicate Closed(f: seq<Block>, pure: set<nat>, T: set<Item>) {
    && (forall x :: x in Items(f) && Critical(pure, x) ==> x in T)
    && (forall x, y :: x in T && y in Items(f) && Needs(x, y) ==> y in T)
  }

  ghost predicate IsMarking(f: seq<Block>, pure: set<nat>, M: set<Item>) {
    Closed(f, pure, M) && M <= Items(f) && forall T: set<Item> :: Closed(f, pure, T) ==> M <= T
  }

  function KeepPhis(phis: seq<Phi>, M: set<Item>): (r: seq<Phi>)
    ensures forall p :: p in r <==> p in phis && PhiItem(p) in M
  {
    if phis == [] then [] else (if PhiItem(phis[0]) in M then [phis[0]] else []) + KeepPhis(phis[1..], M)
  }

  function KeepBody(body: seq<Instr>, M: set<Item>): (r: seq<Instr>)
    ensures forall i :: i in r <==> i in body && InstrItem(i) in M
  {
    if body == [] then [] else (if InstrItem(body[0]) in M then [body[0]] else []) + KeepBody(body[1..], M)
  }

  function KeepBlock(k: Block, M: set<Item>): Block {
    Block(KeepPhis(k.phis, M), KeepBody(k.body, M))
  }

  function Swept(f: seq<Block>, M: set<Item>): (r: seq<Block>)
    ensures |r| == |f| && forall b :: 0 <= b < |f| ==> r[b] == KeepBlock(f[b], M)
  {
    if f == [] then [] else [KeepBlock(f[0], M)] + Swept(f[1..], M)
  }

  lemma SweptItems(f: seq<Block>, M: set<Item>)
    ensures Items(Swept(f, M)) == Items(f) * M
  {
    forall b, x | 0 <= b < |f| ensures x in BlockItems(Swept(f, M)[b]) <==> x in BlockItems(f[b]) && x in M {}
  }

  lemma {:induction false} KeepAll(k: Block, M: set<Item>)
    requires BlockItems(k) <= M
    ensures KeepBlock(k, M) == k
    decreases |k.phis| + |k.body|
  {
    if k.phis != [] {
      var k' := Block(k.phis[1..], k.body);
      assert PhiItem(k.phis[0]) in BlockItems(k);
      assert BlockItems(k') <= BlockItems(k);
      KeepAll(k', M);
    } else if k.body != [] {
      var k' := Block([], k.body[1..]);
      assert InstrItem(k.body[0]) in BlockItems(k);
      assert BlockItems(k') <= BlockItems(k);
      KeepAll(k', M);
    }
  }

  /** After one round everything that is left is needed: the marking of the swept function is all of it. */
  lemma SecondRoundKeepsAll(f: seq<Block>, pure: set<nat>, M: set<Item>, M': set<Item>)
    requires IsMarking(f, pure, M) && IsMarking(Swept(f, M), pure, M')
    ensures M' == M == Items(Swept(f, M)) && Swept(Swept(f, M), M') == Swept(f, M)
  {
    var f' := Swept(f, M);
    SweptItems(f, M);
    assert Closed(f', pure, M);
    assert Closed(f, pure, M');
    forall b | 0 <= b < |f'| ensures KeepBlock(f'[b], M') == f'[b] {
      assert BlockItems(f'[b]) <= Items(f');
      KeepAll(f'[b], M');
    }
  }

  // ----- what is left -----------------------------------------------------------------------------------

  /** A store, a branch, a return, or a call of a function that is not pure. */
  predicate Acts(pure: set<nat>, x: Item) {
    match x
    case PhiItem(_) => false
    case InstrItem(Store(_, _)) => true
    case InstrItem(Br(_)) => true
    case InstrItem(CondBr(_, _, _)) => true
    case InstrItem(Ret(_)) => true
    case InstrItem(Call(_, fn, _)) => fn !in pure
    case _ => false
  }

  /** `x` sets a register that `y` reads. */
  predicate ReadBy(x: Item, y: Item) {
    ItemHasDst(x) && Reg(ItemDst(x)) in ItemOperands(y)
  }

  /** Each item of `p` is read by the next, and the last one acts. */
  ghost predicate Way(f: seq<Block>, pure: set<nat>, p: seq<Item>) {
    && p != [] && (forall k :: 0 <= k < |p| ==> p[k] in Items(f)) && Acts(pure, p[|p| - 1])
    && forall k :: 0 <= k < |p| - 1 ==> ReadBy(p[k], p[k + 1])
  }

  ghost predicate LeadsOn(f: seq<Block>, pure: set<nat>, x: Item) {
    exists p :: Way(f, pure, p) && p[0] == x
  }

  lemma CriticalActs(pure: set<nat>, x: Item)
    ensures Critical(pure, x) <==> Acts(pure, x)
  {}

  lemma WayBack(f: seq<Block>, pure: set<nat>, x: Item, y: Item)
    requires LeadsOn(f, pure, x) && y in Items(f) && ReadBy(y, x)
    ensures LeadsOn(f, pure, y)
  {
    hide Items, ReadBy;
    var p :| Way(f, pure, p) && p[0] == x;
    var q := [y] + p;
    forall k | 0 <= k < |q| - 1 ensures ReadBy(q[k], q[k + 1]) { assert k > 0 ==> q[k] == p[k - 1]; }
    forall k | 0 <= k < |q| ensures q[k] in Items(f) { assert k > 0 ==> q[k] == p[k - 1]; }
    assert Way(f, pure, q) && q[0] == y;
  }

  lemma {:induction false} WayInside(f: seq<Block>, pure: set<nat>, M: set<Item>, p: seq<Item>)
    requires Closed(f, pure, M) && Way(f, pure, p)
    ensures p[0] in M
    decreases |p|
  {
    hide Items, ReadBy;
    if |p| == 1 {
      CriticalActs(pure, p[0]);
    } else {
      forall k | 0 <= k < |p[1..]| - 1 ensures ReadBy(p[1..][k], p[1..][k + 1]) { assert ReadBy(p[k + 1], p[k + 2]); }
      WayInside(f, pure, M, p[1..]);
      assert ReadBy(p[0], p[0 + 1]);
      assert Needs(p[1], p[0]) by { ReadIsNeed(p[0], p[1]); }
    }
  }

  lemma ReadIsNeed(x: Item, y: Item)
    ensures Needs(y, x) <==> ReadBy(x, y)
  {}

  /** What is marked is exactly what leads on, by one item reading another, to an item that acts. */
  lemma MarkingIs(f: seq<Block>, pure: set<nat>, M: set<Item>)
    requires IsMarking(f, pure, M)
    ensures forall x :: x in M <==> x in Items(f) && LeadsOn(f, pure, x)
  {
    hide Items, LeadsOn, Needs, Critical;
    var T := set x | x in M && LeadsOn(f, pure, x);
    forall x | x in Items(f) && Critical(pure, x) ensures x in T {
      CriticalActs(pure, x);
      assert LeadsOn(f, pure, x) by { ActsLeads(f, pure, x); }
    }
    forall x, y | x in T && y in Items(f) && Needs(x, y) ensures y in T {
      ReadIsNeed(y, x);
      WayBack(f, pure, x, y);
    }
    assert Closed(f, pure, T);
    forall x | x in Items(f) && LeadsOn(f, pure, x) ensures x in M { LedInside(f, pure, M, x); }
  }

  lemma ActsLeads(f: seq<Block>, pure: set<nat>, x: Item)
    requires x in Items(f) && Acts(pure, x)
    ensures LeadsOn(f, pure, x)
  {
    assert Way(f, pure, [x]);
  }

  lemma LedInside(f: seq<Block>, pure: set<nat>, M: set<Item>, x: Item)
    requires Closed(f, pure, M) && LeadsOn(f, pure, x)
    ensures x in M
  {
    var p :| Way(f, pure, p) && p[0] == x;
    WayInside(f, pure, M, p);
  }

  /** An item that leads on and does not act is read by another one. */
  lemma {:induction false} ReadElsewhere(f: seq<Block>, pure: set<nat>, p: seq<Item>) returns (y: Item)
    requires Way(f, pure, p) && !Acts(pure, p[0])
    ensures y in Items(f) && y != p[0] && ReadBy(p[0], y)
    decreases |p|
  {
    hide Items, ReadBy;
    y := p[1];
    assert ReadBy(p[0], p[0 + 1]);
    if y == p[0] {
      forall k | 0 <= k < |p[1..]| - 1 ensures ReadBy(p[1..][k], p[1..][k + 1]) { assert ReadBy(p[k + 1], p[k + 2]); }
      y := ReadElsewhere(f, pure, p[1..]);
    }
  }

  lemma SweptMarking(f: seq<Block>, pure: set<nat>, M: set<Item>)
    requires IsMarking(f, pure, M)
    ensures IsMarking(Swept(f, M), pure, M)
  {
    hide Items, Needs, Critical, Swept;
    SweptItems(f, M);
    forall T: set<Item> | Closed(Swept(f, M), pure, T)
      ensures M <= T
    {
      assert Closed(f, pure, T * M);
    }
  }

  /** After the sweep everything that is left leads on to what acts, within what is left. */
  lemma LeftIsNeeded(f: seq<Block>, pure: set<nat>, M: set<Item>)
    requires IsMarking(f, pure, M)
    ensures forall x :: x in Items(Swept(f, M)) <==> x in Items(f) && LeadsOn(f, pure, x)
    ensures forall x :: x in Items(Swept(f, M)) ==> LeadsOn(Swept(f, M), pure, x)
    ensures forall x :: x in Items(Swept(f, M)) && !Acts(pure, x) ==>
              exists y :: y in Items(Swept(f, M)) && y != x && ReadBy(x, y)
  {
    hide Items, ReadBy, Needs, Critical, Acts, Swept;
    MarkingIs(f, pure, M);
    SweptItems(f, M);
    var f' := Swept(f, M);
    assert IsMarking(f', pure, M) by { SweptMarking(f, pure, M); }
    MarkingIs(f', pure, M);
    forall x | x in Items(f') && !Acts(pure, x) ensures exists y :: y in Items(f') && y != x && ReadBy(x, y) {
      var p :| Way(f', pure, p) && p[0] == x;
      var y := ReadElsewhere(f', pure, p);
    }
  }

  // ----- meaning ---------------------------------------------------------------------------------------

  /** Registers that an instruction defines that is not kept. */
  function DeadRegs(f: seq<Block>, M: set<Item>): set<nat> {
    set x | x in Items(f) && x !in M && ItemHasDst(x) :: ItemDst(x)
  }

  /** The value is not the address of something that a dropped alloca of this activation reserves, nor
      of anything in a deeper activation. */
  predicate KeepsOut(D: set<nat>, depth: nat, v: Value) {
    && (v.SlotPtr? ==> v.r !in D)
    && (v.Ptr? && v.region.LocalArray? ==> v.region.depth <= depth && (v.region.depth == depth ==> v.region.r !in D))
  }

  ghost predicate WorldKeepsOut(D: set<nat>, depth: nat, w: World) {
    forall k :: k in w.mem ==> KeepsOut(D, depth, Ptr(k.0, k.1)) && KeepsOut(D, depth, w.mem[k])
  }

  /** The region belongs to an activation below depth `depth`. */
  predicate Deeper(depth: nat, g: Region) {
    g.LocalArray? && g.depth > depth
  }

  /** A call gets at no address of the caller's frame that it is not given. */
  ghost predicate CallsKeepOut(env: Env, D: set<nat>) {
    forall fn, vs, w :: env.call(fn, vs, w).Some? && WorldKeepsOut(D, env.depth, w)
                        && (forall v :: v in vs ==> KeepsOut(D, env.depth, v)) ==>
      KeepsOut(D, env.depth, env.call(fn, vs, w).value.0) && WorldKeepsOut(D, env.depth, env.call(fn, vs, w).value.1)
  }

  /** Calls of pure functions leave the world as it is. */
  ghost predicate CallsPure(env: Env, pure: set<nat>) {
    forall fn: nat, vs: seq<Value>, w: World :: fn in pure && (forall k :: k in w.mem ==> !Deeper(env.depth, k.0))
                                                && env.call(fn, vs, w).Some? ==>
      env.call(fn, vs, w).value.1 == w
  }

  /** What the callers and callees of the activation must respect. */
  ghost predicate Frame(env: Env, pure: set<nat>, D: set<nat>) {
    && CallsKeepOut(env, D) && CallsPure(env, pure)
    && (forall v :: v in env.args ==> KeepsOut(D, env.depth, v))
  }

  /** Both runs agree on all registers that are still defined; no kept register, slot or cell gives
      access to something that a dropped alloca reserves. */
  ghost predicate Related(env: Env, D: set<nat>, s: State, s': State) {
    && s.world == s'.world && s.slots == s'.slots
    && (forall r {:trigger r in s.regs} {:trigger r in s'.regs} :: r !in D ==> (r in s.regs <==> r in s'.regs))
    && (forall r :: r !in D && r in s.regs ==> s'.regs[r] == s.regs[r] && KeepsOut(D, env.depth, s.regs[r]))
    && (forall r :: r in s.slots ==> r !in D && KeepsOut(D, env.depth, s.slots[r]))
    && WorldKeepsOut(D, env.depth, s.world)
  }

  /** The operands are still defined. */
  predicate LiveOps(D: set<nat>, os: seq<Operand>) {
    forall o :: o in os && o.Reg? ==> o.r !in D
  }

  lemma KeptOpsLive(f: seq<Block>, pure: set<nat>, M: set<Item>, x: Item)
    requires Closed(f, pure, M) && x in M
    ensures LiveOps(DeadRegs(f, M), ItemOperands(x))
  {
    forall o | o in ItemOperands(x) && o.Reg? ensures o.r !in DeadRegs(f, M) {
      if o.r in DeadRegs(f, M) {
        var y :| y in Items(f) && y !in M && ItemHasDst(y) && ItemDst(y) == o.r;
        assert Needs(x, y);
      }
    }
  }

  lemma LiveEval(env: Env, D: set<nat>, s: State, s': State, o: Operand)
    requires Related(env, D, s, s') && (o.Reg? ==> o.r !in D) && (forall v :: v in env.args ==>
                                                                    KeepsOut(D, env.depth, v))
    ensures Eval(env, s'.regs, o) == Eval(env, s.regs, o)
    ensures Eval(env, s.regs, o).Some? ==> KeepsOut(D, env.depth, Eval(env, s.regs, o).value)
  {}

  lemma {:induction false} LiveEvalAll(env: Env, D: set<nat>, s: State, s': State, os: seq<Operand>)
    requires Related(env, D, s, s') && LiveOps(D, os) && (forall v :: v in env.args ==> KeepsOut(D, env.depth, v))
    ensures EvalAll(env, s'.regs, os) == EvalAll(env, s.regs, os)
    ensures EvalAll(env, s.regs, os).Some? ==> forall v :: v in EvalAll(env, s.regs, os).value ==>
              KeepsOut(D, env.depth, v)
  {
    if os != [] {
      LiveEval(env, D, s, s', os[0]);
      LiveEvalAll(env, D, s, s', os[1..]);
    }
  }

  lemma WriteRelated(env: Env, D: set<nat>, s: State, s': State, d: nat, v: Value)
    requires Related(env, D, s, s') && (d !in D ==> KeepsOut(D, env.depth, v))
    ensures Related(env, D, s.(regs := s.regs[d := v]), s'.(regs := s'.regs[d := v]))
  {}

  lemma WriteDead(env: Env, D: set<nat>, s: State, s': State, d: nat, v: Value)
    requires Related(env, D, s, s') && d in D
    ensures Related(env, D, s.(regs := s.regs[d := v]), s')
  {}

  /** A kept instruction does the same in both runs. */
  lemma KeptStep(env: Env, pure: set<nat>, D: set<nat>, s: State, s': State, i: Instr)
    requires Frame(env, pure, D) && Related(env, D, s, s') && LiveOps(D, Operands(i)) && Step(env, i, s).Some?
    ensures Step(env, i, s').Some? && Related(env, D, Step(env, i, s).value, Step(env, i, s').value)
  {
    LiveEvalAll(env, D, s, s', Operands(i));
    var vs := EvalAll(env, s.regs, Operands(i)).value;
    if Computes(i) {
      KeptCompute(env, pure, D, s, s', i, vs);
    } else if i.Load? {
      WriteRelated(env, D, s, s', i.dst, StepOn(env, i, vs, s).value.regs[i.dst]);
    } else if i.Alloca? {
      KeptAlloca(env, D, s, s', i);
    } else {
      KeptStore(env, D, s, s', i, vs);
    }
  }

  lemma KeptStore(env: Env, D: set<nat>, s: State, s': State, i: Instr, vs: seq<Value>)
    requires Related(env, D, s, s') && i.Store? && Step(env, i, s).Some?
    requires EvalAll(env, s.regs, Operands(i)) == EvalAll(env, s'.regs, Operands(i)) == Some(vs)
    requires forall v :: v in vs ==> KeepsOut(D, env.depth, v)
    ensures Step(env, i, s').Some? && Related(env, D, Step(env, i, s).value, Step(env, i, s').value)
  {
    assert vs[0] in vs && vs[1] in vs;
  }

  lemma KeptCompute(env: Env, pure: set<nat>, D: set<nat>, s: State, s': State, i: Instr, vs: seq<Value>)
    requires Frame(env, pure, D) && Related(env, D, s, s') && Computes(i) && Step(env, i, s).Some?
    requires EvalAll(env, s.regs, Operands(i)) == EvalAll(env, s'.regs, Operands(i)) == Some(vs)
    requires forall v :: v in vs ==> KeepsOut(D, env.depth, v)
    ensures Step(env, i, s').Some? && Related(env, D, Step(env, i, s).value, Step(env, i, s').value)
  {
    StepComputes(env, i, s);
    StepComputes(env, i, s');
    var (v, w) := ComputeSem(env, i, vs, s.world).value;
    if i.Gep? { assert vs[0] in vs; }
    if i.Conv? { assert vs[0] in vs; }
    assert KeepsOut(D, env.depth, v) && WorldKeepsOut(D, env.depth, w) by {
      if i.Call? { assert env.call(i.fn, vs, s.world).Some?; }
    }
    WriteRelated(env, D, s.(world := w), s'.(world := w), i.dst, v);
  }

  lemma KeptAlloca(env: Env, D: set<nat>, s: State, s': State, i: Instr)
    requires Related(env, D, s, s') && i.Alloca?
    ensures Step(env, i, s).Some? && Step(env, i, s').Some? && Related(env, D, Step(env, i, s).value,
                                                                       Step(env, i, s').value)
  {
    assert Operands(i) == [];
    var w := s.world.(mem := ClearRegion(s.world.mem, LocalArray(env.depth, i.dst)));
    if i.ty.ArraySlot? {
      WriteRelated(env, D, s.(world := w), s'.(world := w), i.dst, Ptr(LocalArray(env.depth, i.dst), 0));
    } else {
      WriteRelated(env, D, s.(slots := s.slots - {i.dst}), s'.(slots := s'.slots - {i.dst}), i.dst,
                   SlotPtr(i.dst, i.ty));
    }
  }

  /** A dropped instruction only set a register that nothing reads any more. */
  lemma DroppedStep(env: Env, pure: set<nat>, D: set<nat>, s: State, s': State, i: Instr)
    requires Frame(env, pure, D) && Related(env, D, s, s') && Step(env, i, s).Some?
    requires HasDst(i) && i.dst in D && !Critical(pure, InstrItem(i))
    ensures Related(env, D, Step(env, i, s).value, s')
  {
    var s1 := Step(env, i, s).value;
    if i.Alloca? {
      assert s.slots - {i.dst} == s.slots;
      assert ClearRegion(s.world.mem, LocalArray(env.depth, i.dst)) == s.world.mem by {
        forall k | k in s.world.mem
          ensures k.0 != LocalArray(env.depth, i.dst)
        {
          assert KeepsOut(D, env.depth, Ptr(k.0, k.1));
        }
      }
    }
    if Computes(i) { StepComputes(env, i, s); }
    assert s1 == s.(regs := s.regs[i.dst := s1.regs[i.dst]]);
    WriteDead(env, D, s, s', i.dst, s1.regs[i.dst]);
  }

  ghost predicate NextRelated(env: Env, D: set<nat>, n: Next, n': Next) {
    match n
    case Goto(b, s) => n'.Goto? && n'.to == b && Related(env, D, s, n'.s)
    case Return(v, w) => n' == n
    case Stuck => true
  }

  lemma KeptEnd(env: Env, pure: set<nat>, D: set<nat>, s: State, s': State, i: Instr)
    requires Frame(env, pure, D) && Related(env, D, s, s') && LiveOps(D, Operands(i)) && IsTerminator(i)
    ensures NextRelated(env, D, End(env, i, s), End(env, i, s'))
  {
    match i
    case CondBr(c, _, _) => assert c in Operands(i); LiveEval(env, D, s, s', c);
    case Ret(Some(o)) => assert o in Operands(i); LiveEval(env, D, s, s', o);
    case _ =>
  }

  lemma {:induction false} SweptBody(env: Env, f: seq<Block>, pure: set<nat>, M: set<Item>, s: State, s': State,
                                     body: seq<Instr>)
    requires Closed(f, pure, M) && Frame(env, pure, DeadRegs(f, M)) && Related(env, DeadRegs(f, M), s, s')
    requires forall i :: i in body ==> InstrItem(i) in Items(f)
    ensures NextRelated(env, DeadRegs(f, M), ExecBody(env, body, s), ExecBody(env, KeepBody(body, M), s'))
    decreases body
  {
    hide Related, Frame, Closed, Step, End, Items, Critical, DeadRegs;
    if body != [] {
      var i, D := body[0], DeadRegs(f, M);
      assert [] + KeepBody(body[1..], M) == KeepBody(body[1..], M);
      KeptOrDead(f, pure, M, i);
      if IsTerminator(i) {
        KeptEnd(env, pure, D, s, s', i);
      } else if Step(env, i, s).Some? {
        var s1 := Step(env, i, s).value;
        if InstrItem(i) in M {
          KeptStep(env, pure, D, s, s', i);
          SweptBody(env, f, pure, M, s1, Step(env, i, s').value, body[1..]);
          assert KeepBody(body, M)[1..] == KeepBody(body[1..], M);
        } else {
          DroppedStep(env, pure, D, s, s', i);
          SweptBody(env, f, pure, M, s1, s', body[1..]);
        }
      }
    }
  }

  lemma KeptOrDead(f: seq<Block>, pure: set<nat>, M: set<Item>, i: Instr)
    requires Closed(f, pure, M) && InstrItem(i) in Items(f)
    ensures InstrItem(i) in M ==> LiveOps(DeadRegs(f, M), Operands(i))
    ensures InstrItem(i) !in M ==> HasDst(i) && i.dst in DeadRegs(f, M) && !Critical(pure, InstrItem(i))
  {
    if InstrItem(i) in M { KeptOpsLive(f, pure, M, InstrItem(i)); }
    if InstrItem(i) !in M {
      assert !Critical(pure, InstrItem(i));
      assert ItemDst(InstrItem(i)) in DeadRegs(f, M);
    }
  }

  lemma {:induction false} PairForIn(pairs: seq<(Operand, nat)>, from: nat)
    ensures PairFor(pairs, from).Some? ==> PairFor(pairs, from).value in PairValues(pairs)
  {
    if pairs != [] && pairs[0].1 != from {
      PairForIn(pairs[1..], from);
      assert PairValues(pairs)[1..] == PairValues(pairs[1..]);
    }
  }

  lemma {:induction false} SweptPhis(env: Env, f: seq<Block>, pure: set<nat>, M: set<Item>, phis: seq<Phi>, from: nat,
                                     s: State, s': State,
                                     regs: map<nat, Value>, regs': map<nat, Value>)
    requires Closed(f, pure, M) && Frame(env, pure, DeadRegs(f, M)) && Related(env, DeadRegs(f, M), s, s')
    requires Related(env, DeadRegs(f, M), s.(regs := regs), s'.(regs := regs'))
    requires forall p :: p in phis ==> PhiItem(p) in Items(f)
    ensures Related(env, DeadRegs(f, M), s.(regs := EnterPhis(env, phis, from, s.regs, regs)),
                    s'.(regs := EnterPhis(env, KeepPhis(phis, M), from, s'.regs, regs')))
    decreases phis
  {
    hide Frame, Closed, Items, DeadRegs, Related;
    if phis != [] {
      var p := phis[0];
      var one := EnterPhis(env, [p], from, s.regs, regs);
      var one' := if PhiItem(p) in M then EnterPhis(env, [p], from, s'.regs, regs') else regs';
      SweptPhi(env, f, pure, M, p, from, s, s', regs, regs');
      assert EnterPhis(env, phis, from, s.regs, regs) == EnterPhis(env, phis[1..], from, s.regs, one);
      SweptPhis(env, f, pure, M, phis[1..], from, s, s', one, one');
      assert [] + KeepPhis(phis[1..], M) == KeepPhis(phis[1..], M);
      if PhiItem(p) in M { assert KeepPhis(phis, M)[1..] == KeepPhis(phis[1..], M); }
    }
  }

  lemma FrameArgs(env: Env, pure: set<nat>, D: set<nat>)
    requires Frame(env, pure, D)
    ensures forall v :: v in env.args ==> KeepsOut(D, env.depth, v)
  {}

  lemma EraseRelated(env: Env, D: set<nat>, s: State, s': State, d: nat)
    requires Related(env, D, s, s')
    ensures Related(env, D, s.(regs := s.regs - {d}), s'.(regs := s'.regs - {d}))
    ensures d in D ==> Related(env, D, s.(regs := s.regs - {d}), s')
  {}

  lemma SweptPhi(env: Env, f: seq<Block>, pure: set<nat>, M: set<Item>, p: Phi, from: nat, s: State, s': State,
                 regs: map<nat, Value>, regs': map<nat, Value>)
    requires Closed(f, pure, M) && Frame(env, pure, DeadRegs(f, M)) && Related(env, DeadRegs(f, M), s, s')
    requires Related(env, DeadRegs(f, M), s.(regs := regs), s'.(regs := regs')) && PhiItem(p) in Items(f)
    ensures Related(env, DeadRegs(f, M), s.(regs := EnterPhis(env, [p], from, s.regs, regs)),
                    s'.(regs := if PhiItem(p) in M then EnterPhis(env, [p], from, s'.regs, regs') else regs'))
  {
    hide Closed, Items, Frame, KeepsOut, Related, DeadRegs, Eval, PairFor;
    var D, t, t' := DeadRegs(f, M), s.(regs := regs), s'.(regs := regs');
    assert [p][1..] == [];
    FrameArgs(env, pure, D);
    EraseRelated(env, D, t, t', p.dst);
    if PhiItem(p) in M {
      KeptOpsLive(f, pure, M, PhiItem(p));
      PairForIn(p.pairs, from);
      if o :| PairFor(p.pairs, from) == Some(o) {
        LiveEval(env, D, s, s', o);
        if v :| Eval(env, s.regs, o) == Some(v) { WriteRelated(env, D, t, t', p.dst, v); }
      }
    } else {
      DroppedDst(f, M, PhiItem(p));
      if o :| PairFor(p.pairs, from) == Some(o) {
        if v :| Eval(env, s.regs, o) == Some(v) { WriteDead(env, D, t, t', p.dst, v); }
      }
    }
  }

  lemma DroppedDst(f: seq<Block>, M: set<Item>, x: Item)
    requires x in Items(f) && x !in M && ItemHasDst(x)
    ensures ItemDst(x) in DeadRegs(f, M)
  {}

  lemma SweptBlock(env: Env, f: seq<Block>, pure: set<nat>, M: set<Item>, b: nat, from: nat, s: State, s': State)
    requires Closed(f, pure, M) && Frame(env, pure, DeadRegs(f, M)) && Related(env, DeadRegs(f, M), s, s') && b < |f|
    ensures NextRelated(env, DeadRegs(f, M), RunBlock(env, f[b], from, s), RunBlock(env, Swept(f, M)[b], from, s'))
  {
    hide Closed, Frame, Related, DeadRegs;
    forall p | p in f[b].phis ensures PhiItem(p) in Items(f) { assert PhiItem(p) in BlockItems(f[b]); }
    forall i | i in f[b].body ensures InstrItem(i) in Items(f) { assert InstrItem(i) in BlockItems(f[b]); }
    assert s.(regs := s.regs) == s && s'.(regs := s'.regs) == s';
    SweptPhis(env, f, pure, M, f[b].phis, from, s, s', s.regs, s'.regs);
    SweptBody(env, f, pure, M, s.(regs := EnterPhis(env, f[b].phis, from, s.regs, s.regs)),
              s'.(regs := EnterPhis(env, KeepPhis(f[b].phis, M), from, s'.regs, s'.regs)), f[b].body);
  }

  /** The frame of an activation that is about to start: nothing knows of it yet. */
  ghost predicate FreshFrame(env: Env, w: World) {
    && (forall v :: v in env.args ==> !v.SlotPtr? && (v.Ptr? && v.region.LocalArray? ==> v.region.depth < env.depth))
    && (forall k :: k in w.mem ==> !w.mem[k].SlotPtr? && (k.0.LocalArray? ==> k.0.depth < env.depth)
                                   && (w.mem[k].Ptr? && w.mem[k].region.LocalArray? ==>
                                         w.mem[k].region.depth < env.depth))
  }

  /** Dead-code removal preserves meaning: every activation that returns still returns, with the same
      value, the same memory and the same trace. */
  lemma SweepPreservesMeaning(env: Env, f: seq<Block>, pure: set<nat>, M: set<Item>, w: World, fuel: nat)
    requires Closed(f, pure, M) && FreshFrame(env, w)
    requires CallsKeepOut(env, DeadRegs(f, M)) && CallsPure(env, pure)
    requires RunFunction(env, f, w, fuel).Done?
    ensures RunFunction(env, Swept(f, M), w, fuel) == RunFunction(env, f, w, fuel)
  {
    var D, f' := DeadRegs(f, M), Swept(f, M);
    assert Frame(env, pure, D);
    var R: Relation := (b: nat, from: nat, s, s') => Related(env, D, s, s');
    forall b: nat, from: nat, s: State, s': State | R(b, from, s, s') ensures Agree(env, f, f', R, b, from, s, s') {
      if b < |f| { SweptBlock(env, f, pure, M, b, from, s, s'); }
    }
    var s0 := State(map[], map[], w);
    assert Related(env, D, s0, s0);
    Lockstep(env, f, f', R, 0, 0, s0, s0, fuel);
  }

  // ----- the pass --------------------------------------------------------------------------------------

  /** Instructions that set the same register are the same. */
  ghost predicate UniqueDefs(f: seq<Block>) {
    forall x, y :: x in Items(f) && y in Items(f) && ItemHasDst(x) && ItemHasDst(y) && ItemDst(x) == ItemDst(y) ==>
             x == y
  }

  /** What defines each register. */
  function DefMap(f: seq<Block>): (defs: map<nat, Item>)
    requires UniqueDefs(f)
    ensures forall x :: x in Items(f) && ItemHasDst(x) ==> ItemDst(x) in defs && defs[ItemDst(x)] == x
    ensures forall r :: r in defs ==> defs[r] in Items(f) && ItemHasDst(defs[r]) && ItemDst(defs[r]) == r
  {
    map x | x in Items(f) && ItemHasDst(x) :: ItemDst(x) := x
  }

  function Size(f: seq<Block>): nat {
    if f == [] then 0 else |f[0].phis| + |f[0].body| + Size(f[1..])
  }

  lemma {:induction false} FewerPhis(phis: seq<Phi>, M: set<Item>)
    ensures |KeepPhis(phis, M)| <= |phis| && (|KeepPhis(phis, M)| == |phis| ==> KeepPhis(phis, M) == phis)
  {
    if phis != [] { FewerPhis(phis[1..], M); }
  }

  lemma {:induction false} FewerInstrs(body: seq<Instr>, M: set<Item>)
    ensures |KeepBody(body, M)| <= |body| && (|KeepBody(body, M)| == |body| ==> KeepBody(body, M) == body)
  {
    if body != [] { FewerInstrs(body[1..], M); }
  }

  lemma KeepFewer(k: Block, M: set<Item>)
    ensures |KeepPhis(k.phis, M)| <= |k.phis| && |KeepBody(k.body, M)| <= |k.body|
    ensures |KeepPhis(k.phis, M)| == |k.phis| && |KeepBody(k.body, M)| == |k.body| ==> KeepBlock(k, M) == k
  {
    FewerPhis(k.phis, M);
    FewerInstrs(k.body, M);
  }

  lemma {:induction false} SweptSmaller(f: seq<Block>, M: set<Item>)
    ensures Size(Swept(f, M)) <= Size(f)
    ensures Size(Swept(f, M)) == Size(f) ==> Swept(f, M) == f
  {
    if f != [] {
      KeepFewer(f[0], M);
      SweptSmaller(f[1..], M);
      assert Swept(f, M)[1..] == Swept(f[1..], M);
    }
  }

  /** What a marked item needs belongs to every closed set. */
  lemma MarkOne(f: seq<Block>, pure: set<nat>, now: Item, marked: set<Item>, def: Item)
    requires def in Items(f) && Needs(now, def) && now in marked && marked <= Items(f)
    requires forall T: set<Item> :: Closed(f, pure, T) ==> marked <= T
    ensures marked + {def} <= Items(f) && forall T: set<Item> :: Closed(f, pure, T) ==> marked + {def} <= T
  {
    forall T: set<Item> | Closed(f, pure, T)
      ensures marked + {def} <= T
    {
      assert now in T;
    }
  }

  class Pass {
    const pure: set<nat>
    var f: seq<Block>
    var marked: set<Item>
    var workList: seq<Item>
    var insCount: nat

    constructor (f: seq<Block>, pure: set<nat>)
      ensures this.f == f && this.pure == pure && insCount == 0
    {
      this.f, this.pure, marked, workList, insCount := f, pure, {}, [], 0;
    }

    /** What has been marked is needed, and only what is on the worklist may need something unmarked. */
    ghost predicate Marking(g: seq<Block>)
      reads this
    {
      && f == g && marked <= Items(f)
      && (forall x :: x in workList ==> x in marked)
      && (forall x :: x in Items(f) && Critical(pure, x) ==> x in marked)
      && (forall x, y :: x in marked && x !in workList && y in Items(f) && Needs(x, y) ==> y in marked)
      && (forall T: set<Item> :: Closed(f, pure, T) ==> marked <= T)
    }

    method MarkCritical()
      modifies this`marked, this`workList
      ensures Marking(old(f))
      ensures forall x :: x in marked <==> x in Items(f) && Acts(pure, x)
      ensures forall x :: x in workList <==> x in marked
    {
      forall x ensures Critical(pure, x) <==> Acts(pure, x) { CriticalActs(pure, x); }
      marked, workList := {}, [];
      var b := 0;
      while b < |f|
        invariant 0 <= b <= |f|
        invariant forall x :: x in marked <==> x in workList
        invariant forall x :: x in marked <==> Critical(pure, x) && exists a {:trigger f[a]} ::
                    0 <= a < b && x in BlockItems(f[a])
      {
        ghost var before := marked;
        var i := 0;
        while i < |f[b].body|
          invariant 0 <= i <= |f[b].body|
          invariant forall x :: x in marked <==> x in workList
          invariant forall x :: x in marked <==> x in before || (Critical(pure, x) && x.i in f[b].body[..i])
        {
          var x := InstrItem(f[b].body[i]);
          assert f[b].body[..i + 1] == f[b].body[..i] + [f[b].body[i]];
          if Critical(pure, x) {
            marked, workList := marked + {x}, workList + [x];
          }
          i := i + 1;
        }
        assert f[b].body[..i] == f[b].body;
        b := b + 1;
      }
    }

    /** Marks the definitions of the operands of `now`, which has left the worklist. */
    method MarkOperands(now: Item, defs: map<nat, Item>)
      requires UniqueDefs(f) && now in Items(f) && now in marked && marked <= Items(f)
      requires forall x :: x in Items(f) && ItemHasDst(x) ==> ItemDst(x) in defs && defs[ItemDst(x)] == x
      requires forall r :: r in defs ==> defs[r] in Items(f) && ItemHasDst(defs[r]) && ItemDst(defs[r]) == r
      requires forall T: set<Item> :: Closed(f, pure, T) ==> marked <= T
      requires forall x :: x in workList ==> x in marked
      modifies this`marked, this`workList
      ensures old(marked) <= marked <= Items(f) && forall T: set<Item> :: Closed(f, pure, T) ==> marked <= T
      ensures forall x :: x in workList <==> x in old(workList) || (x in marked && x !in old(marked))
      ensures forall y :: y in Items(f) && Needs(now, y) ==> y in marked
      ensures marked == old(marked) ==> workList == old(workList)
    {
      hide Closed, UniqueDefs, Items, ItemOperands;
      var ops := ItemOperands(now);
      var k := 0;
      while k < |ops|
        invariant 0 <= k <= |ops|
        invariant old(marked) <= marked <= Items(f) && forall T: set<Item> :: Closed(f, pure, T) ==> marked <= T
        invariant forall x :: x in workList <==> x in old(workList) || (x in marked && x !in old(marked))
        invariant forall y :: y in Items(f) && ItemHasDst(y) && Reg(ItemDst(y)) in ops[..k] ==> y in marked
        invariant marked == old(marked) ==> workList == old(workList)
      {
        var op := ops[k];
        assert ops[..k + 1] == ops[..k] + [op] && op in ops;
        if op.Reg? && op.r in defs && defs[op.r] !in marked {
          var def := defs[op.r];
          MarkOne(f, pure, now, marked, def);
          marked, workList := marked + {def}, workList + [def];
        }
        k := k + 1;
      }
      assert ops[..k] == ops;
    }

    /** Marks what critical instructions need, directly or not. */
    method Mark()
      requires UniqueDefs(f)
      modifies this`marked, this`workList
      ensures IsMarking(f, pure, marked)
      ensures forall x :: x in marked <==> x in Items(f) && LeadsOn(f, pure, x)
    {
      hide LeadsOn, Acts, Items, Needs, Critical, UniqueDefs;
      var defs := DefMap(f);
      MarkCritical();
      while workList != []
        invariant Marking(old(f))
        decreases Items(f) - marked, |workList|
      {
        var now := workList[0];
        ghost var work0, marked0 := workList, marked;
        workList := workList[1..];
        assert forall x :: x in work0 <==> x == now || x in workList;
        MarkOperands(now, defs);
        if marked != marked0 {
          var y :| y in marked && y !in marked0;
          assert y in Items(f) - marked0 && y !in Items(f) - marked;
        }
      }
      MarkingIs(f, pure, marked);
    }

    /** Erases everything unmarked. */
    method Sweep() returns (changed: bool)
      modifies this`f, this`insCount
      ensures f == Swept(old(f), marked) && (changed <==> f != old(f))
      ensures insCount + Size(f) == old(insCount) + Size(old(f))
    {
      ghost var f0 := f;
      var b := 0;
      var erased: nat := 0;
      while b < |f|
        invariant 0 <= b <= |f| == |f0|
        invariant forall a :: 0 <= a < |f0| ==> f[a] == if a < b then KeepBlock(f0[a], marked) else f0[a]
        invariant erased + Size(f) == Size(f0) && insCount == old(insCount)
      {
        var k := KeepBlock(f[b], marked);
        SizeAt(f, b, k);
        KeepFewer(f[b], marked);
        erased := erased + (|f[b].phis| - |k.phis|) + (|f[b].body| - |k.body|);
        f := f[b := k];
        b := b + 1;
      }
      assert f == Swept(f0, marked);
      SweptSmaller(f0, marked);
      insCount := insCount + erased;
      changed := erased != 0;
    }

    /** Rounds of marking and sweeping until nothing changes: the second round never changes anything. */
    method Run() returns (ghost M: set<Item>, ghost rounds: nat)
      requires UniqueDefs(f)
      modifies this
      ensures IsMarking(old(f), pure, M) && f == Swept(old(f), M) && rounds <= 2
      ensures forall x :: x in Items(f) <==> x in Items(old(f)) && LeadsOn(old(f), pure, x)
      ensures forall x :: x in Items(f) && !Acts(pure, x) ==> exists y :: y in Items(f) && y != x && ReadBy(x, y)
      ensures insCount + Size(f) == old(insCount) + Size(old(f))
    {
        hide LeadsOn, Acts, ReadBy;
      ghost var f0 := f;
      var changed := true;
      M, rounds := {}, 0;
      while changed
        invariant if rounds == 0 then changed && f == f0 else IsMarking(f0, pure, M) && f == Swept(f0, M)
        invariant rounds <= 2 && (rounds == 2 ==> !changed) && UniqueDefs(f)
        invariant insCount + Size(f) == old(insCount) + Size(f0)
        decreases 2 - rounds
      {
        Mark();
        if rounds == 0 { M := marked; } else { SecondRoundKeepsAll(f0, pure, M, marked); }
        SweptItems(f, marked);
        changed := Sweep();
        rounds := rounds + 1;
      }
      LeftIsNeeded(f0, pure, M);
    }
  }

  lemma {:induction false} SizeAt(f: seq<Block>, b: nat, k: Block)
    requires b < |f|
    ensures Size(f[b := k]) + |f[b].phis| + |f[b].body| == Size(f) + |k.phis| + |k.body|
  {
    if b > 0 {
      assert f[b := k][1..] == f[1..][b - 1 := k];
      SizeAt(f[1..], b - 1, k);
    } else {
      assert f[b := k][1..] == f[1..];
    }
  }
}

/** What promoting scalar slots to registers makes of one block, and why it keeps the meaning. */
module Renaming {
  import opened IR

  /** `geps`: results of getelementptr; `scalars`: results of allocas of a number or a pointer;
      all registers of the input are below `limit`. */
  datatype Ctx = Ctx(geps: set<nat>, scalars: set<nat>, limit: nat)

  type Tops = map<nat, Operand>

  /** The pointer is neither a global variable nor the result of a getelementptr. */
  predicate Promoted(c: Ctx, ptr: Operand) {
    ptr.Reg? && ptr.r !in c.geps
  }

  predicate PromotedLoad(c: Ctx, i: Instr) {
    i.Load? && Promoted(c, i.ptr)
  }

  predicate PromotedStore(c: Ctx, i: Instr) {
    i.Store? && Promoted(c, i.ptr)
  }

  // ----- replacing uses --------------------------------------------------------------------------

  function Subst(S: Tops, o: Operand): Operand {
    if o.Reg? && o.r in S then S[o.r] else o
  }

  function SubstAll(S: Tops, os: seq<Operand>): (r: seq<Operand>)
    ensures |r| == |os| && forall k :: 0 <= k < |os| ==> r[k] == Subst(S, os[k])
  {
    if os == [] then [] else [Subst(S, os[0])] + SubstAll(S, os[1..])
  }

  function SubstInstr(S: Tops, i: Instr): Instr {
    match i
    case Alloca(_, _) => i
    case Load(d, p) => Load(d, Subst(S, p))
    case Store(v, p) => Store(Subst(S, v), Subst(S, p))
    case Gep(d, b, xs) => Gep(d, Subst(S, b), SubstAll(S, xs))
    case Bin(d, op, l, r) => Bin(d, op, Subst(S, l), Subst(S, r))
    case Cmp(d, op, l, r) => Cmp(d, op, Subst(S, l), Subst(S, r))
    case Conv(d, op, v) => Conv(d, op, Subst(S, v))
    case Call(d, f, xs) => Call(d, f, SubstAll(S, xs))
    case Br(_) => i
    case CondBr(x, t, f) => CondBr(Subst(S, x), t, f)
    case Ret(None) => i
    case Ret(Some(v)) => Ret(Some(Subst(S, v)))
  }

  lemma OperandsOfSubst(S: Tops, i: Instr)
    ensures Operands(SubstInstr(S, i)) == SubstAll(S, Operands(i))
  {
    match i
    case Gep(d, b, xs) =>
      assert ([b] + xs)[1..] == xs;
    case Store(v, p) =>
      assert [v, p][1..] == [p] && [p][1..] == [];
    case Bin(_, _, l, r) =>
      assert [l, r][1..] == [r] && [r][1..] == [];
    case Cmp(_, _, l, r) =>
      assert [l, r][1..] == [r] && [r][1..] == [];
    case _ =>
  }

  // ----- values on top of the stacks -------------------------------------------------------------

  /** The newest value of each variable after instruction `i`. */
  function TopsStep(c: Ctx, S: Tops, t: Tops, i: Instr): Tops {
    if PromotedStore(c, i) then t[i.ptr.r := Subst(S, i.val)] else t
  }

  function TopsAfter(c: Ctx, S: Tops, t: Tops, body: seq<Instr>): Tops
    decreases body
  {
    if body == [] then t else TopsAfter(c, S, TopsStep(c, S, t, body[0]), body[1..])
  }

  /** A load of a variable that has a value is replaced by it; other loads stay. */
  ghost predicate LoadOk(c: Ctx, S: Tops, t: Tops, i: Instr) {
    if PromotedLoad(c, i) then
      if i.ptr.r in t then i.dst in S && S[i.dst] == t[i.ptr.r] else i.dst !in S
    else HasDst(i) ==> i.dst !in S
  }

  ghost predicate LoadsOk(c: Ctx, S: Tops, t: Tops, body: seq<Instr>)
    decreases body
  {
    body == [] || (LoadOk(c, S, t, body[0]) && LoadsOk(c, S, TopsStep(c, S, t, body[0]), body[1..]))
  }

  /** What is left of an instruction list: replaced loads, promoted stores and allocas of numbers are gone. */
  function Renamed(c: Ctx, S: Tops, body: seq<Instr>): seq<Instr> {
    if body == [] then []
    else if Erased(c, S, body[0]) then Renamed(c, S, body[1..])
    else [SubstInstr(S, body[0])] + Renamed(c, S, body[1..])
  }

  function SubstBody(S: Tops, body: seq<Instr>): (r: seq<Instr>)
    ensures |r| == |body| && forall i :: 0 <= i < |body| ==> r[i] == SubstInstr(S, body[i])
  {
    if body == [] then [] else [SubstInstr(S, body[0])] + SubstBody(S, body[1..])
  }

  function DropAllocas(body: seq<Instr>): seq<Instr> {
    if body == [] then []
    else if body[0].Alloca? && IsNumSlot(body[0].ty) then DropAllocas(body[1..])
    else [body[0]] + DropAllocas(body[1..])
  }

  /** A load of a variable, and a store to one: not through a global variable or a getelementptr. */
  predicate VarLoad(c: Ctx, i: Instr) {
    i.Load? && i.ptr.Reg? && i.ptr.r !in c.geps
  }

  predicate VarStore(c: Ctx, i: Instr) {
    i.Store? && i.ptr.Reg? && i.ptr.r !in c.geps
  }

  /** Exactly the allocas of ints and floats go. */
  lemma {:induction false} DropAllocasIs(body: seq<Instr>)
    ensures forall i :: i in DropAllocas(body) <==> i in body && !(i.Alloca? && (i.ty.IntSlot? || i.ty.FloatSlot?))
  {
    if body != [] { DropAllocasIs(body[1..]); }
  }

  /** What is left of a block: all but allocas of ints and floats, loads that were replaced, and stores to
      variables. */
  lemma {:induction false} RenamedIs(c: Ctx, S: Tops, body: seq<Instr>, i: Instr)
    ensures i in Renamed(c, S, body) <==>
            exists k :: 0 <= k < |body| && i == SubstInstr(S, body[k]) && !(VarLoad(c, body[k]) && body[k].dst in S)
                        && !VarStore(c, body[k])
                        && !(body[k].Alloca? && (body[k].ty.IntSlot? || body[k].ty.FloatSlot?))
    decreases body
  {
    if body != [] {
      RenamedIs(c, S, body[1..], i);
      assert forall k :: 0 <= k < |body[1..]| ==> body[1..][k] == body[k + 1];
      if k :| 0 <= k < |body| && i == SubstInstr(S, body[k]) && !(VarLoad(c, body[k]) && body[k].dst in S)
              && !VarStore(c, body[k]) && !(body[k].Alloca? && (body[k].ty.IntSlot? || body[k].ty.FloatSlot?)) {
        assert k > 0 ==> body[1..][k - 1] == body[k];
      }
    }
  }

  predicate Erased(c: Ctx, S: Tops, i: Instr) {
    (PromotedLoad(c, i) && i.dst in S) || PromotedStore(c, i) || (i.Alloca? && IsNumSlot(i.ty))
  }

  // ----- what the input must satisfy -------------------------------------------------------------

  /** Operands are defined before; addresses of scalar slots only serve loads and stores. */
  ghost predicate InstrOk(c: Ctx, avail: set<nat>, i: Instr) {
    && (forall r {:trigger Uses(i, r)} :: Uses(i, r) ==> r in avail)
    && (HasDst(i) ==> i.dst !in avail && i.dst < c.limit && (i.dst in c.geps <==> i.Gep?)
                      && (i.dst in c.scalars <==> i.Alloca? && !i.ty.ArraySlot?))
    && (i.Load? ==> PtrOk(c, i.ptr))
    && (i.Store? ==> PtrOk(c, i.ptr) && !(i.val.Reg? && i.val.r in c.scalars))
    && (!i.Load? && !i.Store? ==> forall r {:trigger Uses(i, r)} :: Uses(i, r) ==> r !in c.scalars)
  }

  ghost predicate PtrOk(c: Ctx, p: Operand) {
    p.GlobalAddr? || (p.Reg? && (p.r in c.geps <==> p.r !in c.scalars))
  }

  function Plus(avail: set<nat>, i: Instr): set<nat> {
    if HasDst(i) then avail + {i.dst} else avail
  }

  ghost predicate BodyOk(c: Ctx, avail: set<nat>, body: seq<Instr>)
    decreases body
  {
    body == [] || ((IsTerminator(body[0]) ==> |body| == 1) && InstrOk(c, avail, body[0])
                   && BodyOk(c, Plus(avail, body[0]), body[1..]))
  }

  function Defs(body: seq<Instr>): set<nat> {
    if body == [] then {} else Plus({}, body[0]) + Defs(body[1..])
  }

  // ----- the simulation relation -------------------------------------------------------------------

  /** The operand names only registers of `avail` that survive. */
  ghost predicate ClosedOp(c: Ctx, S: Tops, avail: set<nat>, o: Operand) {
    o.Reg? ==> o.r in avail && o.r !in S && o.r !in c.scalars
  }

  ghost predicate Closed(c: Ctx, S: Tops, avail: set<nat>, t: Tops) {
    && (forall v :: v in t ==> ClosedOp(c, S, avail, t[v]))
    && (forall r :: r in avail && r in S ==> ClosedOp(c, S, avail, S[r]))
  }

  /** A register of the original run has the value of the operand that stands for it, and the
      slot of a variable holds the value on top of the variable's stack. */
  ghost predicate Rel(c: Ctx, S: Tops, env: Env, avail: set<nat>, t: Tops, s: State, s': State) {
    && s.world == s'.world
    && (forall r {:trigger r in s.regs} :: r in s.regs && r in avail && r !in c.scalars ==>
          Eval(env, s'.regs, Subst(S, Reg(r))) == Some(s.regs[r]))
    && (forall v :: v in s.slots ==> v in t && Eval(env, s'.regs, t[v]) == Some(s.slots[v]))
    && (forall r :: r in s.regs && r in c.scalars ==> s.regs[r].SlotPtr? && s.regs[r].r == r)
    && (forall r :: r in s.regs && r in c.geps ==> s.regs[r].Ptr?)
    && (forall r :: r in s.regs ==> r < c.limit)
  }

  lemma EvalSubst(c: Ctx, S: Tops, env: Env, avail: set<nat>, t: Tops, s: State, s': State, o: Operand)
    requires Rel(c, S, env, avail, t, s, s')
    requires o.Reg? ==> o.r in avail && o.r !in c.scalars
    requires Eval(env, s.regs, o).Some?
    ensures Eval(env, s'.regs, Subst(S, o)) == Eval(env, s.regs, o)
  {}

  lemma {:induction false} EvalAllSubst(c: Ctx, S: Tops, env: Env, avail: set<nat>, t: Tops, s: State, s': State,
                                        os: seq<Operand>)
    requires Rel(c, S, env, avail, t, s, s')
    requires forall o :: o in os && o.Reg? ==> o.r in avail && o.r !in c.scalars
    requires EvalAll(env, s.regs, os).Some?
    ensures EvalAll(env, s'.regs, SubstAll(S, os)) == EvalAll(env, s.regs, os)
  {
    if os != [] {
      EvalSubst(c, S, env, avail, t, s, s', os[0]);
      EvalAllSubst(c, S, env, avail, t, s, s', os[1..]);
    }
  }

  /** Writing a register that nothing in scope names does not disturb the relation. */
  lemma RelWrite(c: Ctx, S: Tops, env: Env, avail: set<nat>, t: Tops, s: State, s': State, d: nat, v: Value)
    requires Rel(c, S, env, avail, t, s, s') && Closed(c, S, avail, t)
    requires d < c.limit && d !in avail && d !in S && d !in c.scalars && (d in c.geps ==> v.Ptr?)
    ensures Rel(c, S, env, avail + {d}, t, s.(regs := s.regs[d := v]), s'.(regs := s'.regs[d := v]))
    ensures Closed(c, S, avail + {d}, t)
  {}

  lemma SimOther(c: Ctx, S: Tops, env: Env, avail: set<nat>, t: Tops, s: State, s': State, i: Instr)
    returns (s1: State, s1': State)
    requires InstrOk(c, avail, i) && LoadOk(c, S, t, i) && Closed(c, S, avail, t)
    requires Rel(c, S, env, avail, t, s, s') && Step(env, i, s).Some? && Computes(i)
    ensures Step(env, i, s) == Some(s1) && Step(env, SubstInstr(S, i), s') == Some(s1')
    ensures Rel(c, S, env, Plus(avail, i), t, s1, s1') && Closed(c, S, Plus(avail, i), t)
  {
    forall o | o in Operands(i) && o.Reg? ensures o.r in avail && o.r !in c.scalars { assert Uses(i, o.r); }
    StepComputes(env, i, s);
    StepComputes(env, SubstInstr(S, i), s');
    EvalAllSubst(c, S, env, avail, t, s, s', Operands(i));
    OperandsOfSubst(S, i);
    s1 := Step(env, i, s).value;
    var vs := EvalAll(env, s.regs, Operands(i)).value;
    assert ComputeSem(env, SubstInstr(S, i), vs, s.world) == ComputeSem(env, i, vs, s.world);
    var v := s1.regs[i.dst];
    s1' := State(s'.regs[i.dst := v], s'.slots, s1.world);
    RelWrite(c, S, env, avail, t, s.(world := s1.world), s'.(world := s1.world), i.dst, v);
  }

  lemma SimLoad(c: Ctx, S: Tops, env: Env, avail: set<nat>, t: Tops, s: State, s': State, i: Instr) returns (s1: State)
    requires InstrOk(c, avail, i) && LoadOk(c, S, t, i) && Closed(c, S, avail, t)
    requires Rel(c, S, env, avail, t, s, s') && i.Load? && Step(env, i, s).Some?
    ensures Step(env, i, s) == Some(s1)
    ensures PromotedLoad(c, i) ==> i.dst in S && Rel(c, S, env, Plus(avail, i), t, s1, s')
    ensures !PromotedLoad(c, i) ==> Step(env, SubstInstr(S, i), s').Some?
                                    && Rel(c, S, env, Plus(avail, i), t, s1, Step(env, SubstInstr(S, i), s').value)
    ensures Closed(c, S, Plus(avail, i), t)
  {
    s1 := Step(env, i, s).value;
    assert EvalAll(env, s.regs, [i.ptr]).Some? && EvalAll(env, s.regs, [i.ptr]).value
           == [Eval(env, s.regs, i.ptr).value];
    if PromotedLoad(c, i) {
      var v := i.ptr.r;
      assert Uses(i, v);
      assert s1.regs == s.regs[i.dst := s.slots[v]];
    } else {
      if i.ptr.Reg? { assert Uses(i, i.ptr.r); }
      EvalSubst(c, S, env, avail, t, s, s', i.ptr);
      assert Operands(SubstInstr(S, i)) == [Subst(S, i.ptr)];
      assert EvalAll(env, s'.regs, [Subst(S, i.ptr)]) == EvalAll(env, s.regs, [i.ptr]);
      RelWrite(c, S, env, avail, t, s, s', i.dst, s1.regs[i.dst]);
    }
  }

  lemma SimStore(c: Ctx, S: Tops, env: Env, avail: set<nat>, t: Tops, s: State, s': State, i: Instr) returns (s1: State)
    requires InstrOk(c, avail, i) && Closed(c, S, avail, t)
    requires Rel(c, S, env, avail, t, s, s') && i.Store? && Step(env, i, s).Some?
    ensures Step(env, i, s) == Some(s1)
    ensures PromotedStore(c, i) ==> Rel(c, S, env, avail, TopsStep(c, S, t, i), s1, s')
    ensures !PromotedStore(c, i) ==> Step(env, SubstInstr(S, i), s').Some?
                                     && Rel(c, S, env, avail, t, s1, Step(env, SubstInstr(S, i), s').value)
    ensures Closed(c, S, avail, TopsStep(c, S, t, i))
  {
    hide Closed;
    s1 := Step(env, i, s).value;
    assert Operands(i)[0] == i.val && Operands(i)[1] == i.ptr;
    if i.val.Reg? { assert Uses(i, i.val.r); }
    if i.ptr.Reg? { assert Uses(i, i.ptr.r); }
    EvalTwo(env, s.regs, i.val, i.ptr);
    EvalSubst(c, S, env, avail, t, s, s', i.val);
    var v := Eval(env, s.regs, i.val).value;
    if PromotedStore(c, i) {
      StoreSlot(c, S, env, avail, t, s, s', i.ptr.r, i.val, v);
    } else {
      StoreElsewhere(c, S, env, avail, t, s, s', i);
    }
  }

  /** A store through any other pointer does the same to memory in both runs. */
  lemma StoreElsewhere(c: Ctx, S: Tops, env: Env, avail: set<nat>, t: Tops, s: State, s': State, i: Instr)
    requires InstrOk(c, avail, i) && Rel(c, S, env, avail, t, s, s') && i.Store? && !PromotedStore(c, i)
    requires Step(env, i, s).Some?
    ensures Step(env, i, s).value == s.(world := Step(env, i, s).value.world)
    ensures Step(env, SubstInstr(S, i), s') == Some(s'.(world := Step(env, i, s).value.world))
  {
    assert Operands(i)[0] == i.val && Operands(i)[1] == i.ptr;
    if i.val.Reg? { assert Uses(i, i.val.r); }
    if i.ptr.Reg? { assert Uses(i, i.ptr.r); }
    EvalTwo(env, s.regs, i.val, i.ptr);
    EvalSubst(c, S, env, avail, t, s, s', i.val);
    EvalSubst(c, S, env, avail, t, s, s', i.ptr);
    EvalTwo(env, s'.regs, Subst(S, i.val), Subst(S, i.ptr));
  }

  lemma StoreSlot(c: Ctx, S: Tops, env: Env, avail: set<nat>, t: Tops, s: State, s': State, r: nat, o: Operand,
                  v: Value)
    requires Rel(c, S, env, avail, t, s, s') && Closed(c, S, avail, t)
    requires Eval(env, s'.regs, Subst(S, o)) == Some(v) && (o.Reg? ==> o.r in avail && o.r !in c.scalars)
    ensures Rel(c, S, env, avail, t[r := Subst(S, o)], s.(slots := s.slots[r := v]), s')
    ensures Closed(c, S, avail, t[r := Subst(S, o)])
  {}

  lemma SimAlloca(c: Ctx, S: Tops, env: Env, avail: set<nat>, t: Tops, s: State, s': State, i: Instr)
    returns (s1: State)
    requires InstrOk(c, avail, i) && LoadOk(c, S, t, i) && Closed(c, S, avail, t)
    requires Rel(c, S, env, avail, t, s, s') && i.Alloca?
    ensures Step(env, i, s) == Some(s1)
    ensures IsNumSlot(i.ty) ==> Rel(c, S, env, Plus(avail, i), t, s1, s')
    ensures !IsNumSlot(i.ty) ==> Step(env, i, s').Some? && Rel(c, S, env, Plus(avail, i), t, s1, Step(env, i, s').value)
    ensures Closed(c, S, Plus(avail, i), t)
  {
    assert Operands(i) == [];
    s1 := Step(env, i, s).value;
    if i.ty.ArraySlot? {
      RelWrite(c, S, env, avail, t, s.(world := s1.world), s'.(world := s1.world), i.dst, s1.regs[i.dst]);
    } else {
      ScalarWrite(c, S, env, avail, t, s.(slots := s1.slots), s', i.dst, i.ty,
                  if IsNumSlot(i.ty) then s' else Step(env, i, s').value);
    }
  }

  /** The original run sets the address of a scalar slot; the renamed run may or may not. */
  lemma ScalarWrite(c: Ctx, S: Tops, env: Env, avail: set<nat>, t: Tops, s: State, s': State, d: nat, ty: SlotType,
                    s1': State)
    requires Rel(c, S, env, avail, t, s, s') && Closed(c, S, avail, t)
    requires d < c.limit && d !in avail && d !in S && d in c.scalars && d !in c.geps
    requires s1'.world == s'.world && (s1'.regs == s'.regs || s1'.regs == s'.regs[d := SlotPtr(d, ty)])
    ensures Rel(c, S, env, avail + {d}, t, s.(regs := s.regs[d := SlotPtr(d, ty)]), s1')
    ensures Closed(c, S, avail + {d}, t)
  {}

  // ----- a whole block ---------------------------------------------------------------------------

  /** Ends of the original and of the renamed block that agree. */
  ghost predicate NextRel(c: Ctx, S: Tops, env: Env, avail: set<nat>, t: Tops, n: Next, n': Next) {
    match n
    case Goto(b, s) => n'.Goto? && n'.to == b && Rel(c, S, env, avail, t, s, n'.s)
    case Return(v, w) => n' == n
    case Stuck => true
  }

  lemma SimEnd(c: Ctx, S: Tops, env: Env, avail: set<nat>, t: Tops, s: State, s': State, i: Instr)
    requires InstrOk(c, avail, i) && Rel(c, S, env, avail, t, s, s') && IsTerminator(i)
    ensures NextRel(c, S, env, avail, t, End(env, i, s), End(env, SubstInstr(S, i), s'))
  {
    match i
    case CondBr(o, _, _) =>
      if o.Reg? { assert Uses(i, o.r); }
      if Eval(env, s.regs, o).Some? { EvalSubst(c, S, env, avail, t, s, s', o); }
    case Ret(Some(o)) =>
      if o.Reg? { assert Uses(i, o.r); }
      if Eval(env, s.regs, o).Some? { EvalSubst(c, S, env, avail, t, s, s', o); }
    case _ =>
  }

  lemma SimStep(c: Ctx, S: Tops, env: Env, avail: set<nat>, t: Tops, s: State, s': State, i: Instr)
    returns (s1: State, s1': State)
    requires InstrOk(c, avail, i) && LoadOk(c, S, t, i) && Closed(c, S, avail, t)
    requires Rel(c, S, env, avail, t, s, s') && !IsTerminator(i) && Step(env, i, s).Some?
    ensures Step(env, i, s) == Some(s1)
    ensures if Erased(c, S, i) then s1' == s' else Step(env, SubstInstr(S, i), s') == Some(s1')
    ensures Rel(c, S, env, Plus(avail, i), TopsStep(c, S, t, i), s1, s1')
    ensures Closed(c, S, Plus(avail, i), TopsStep(c, S, t, i))
  {
    if i.Load? {
      s1 := SimLoad(c, S, env, avail, t, s, s', i);
      s1' := if PromotedLoad(c, i) then s' else Step(env, SubstInstr(S, i), s').value;
    } else if i.Store? {
      s1 := SimStore(c, S, env, avail, t, s, s', i);
      s1' := if PromotedStore(c, i) then s' else Step(env, SubstInstr(S, i), s').value;
    } else if i.Alloca? {
      s1 := SimAlloca(c, S, env, avail, t, s, s', i);
      s1' := if IsNumSlot(i.ty) then s' else Step(env, i, s').value;
    } else {
      s1, s1' := SimOther(c, S, env, avail, t, s, s', i);
    }
  }

  /** A terminator is the last instruction; it defines nothing and is kept. */
  lemma TerminatorAlone(c: Ctx, S: Tops, t: Tops, avail: set<nat>, body: seq<Instr>)
    requires BodyOk(c, avail, body) && body != [] && IsTerminator(body[0])
    ensures avail + Defs(body) == avail && TopsAfter(c, S, t, body) == t
    ensures Renamed(c, S, body) == [SubstInstr(S, body[0])] && IsTerminator(SubstInstr(S, body[0]))
  {
    assert body[1..] == [] && Defs(body) == {};
    assert TopsAfter(c, S, t, []) == t;
  }

  lemma KindKept(S: Tops, i: Instr)
    ensures IsTerminator(SubstInstr(S, i)) <==> IsTerminator(i)
  {}

  lemma {:induction false} SimBody(c: Ctx, S: Tops, env: Env, avail: set<nat>, t: Tops, s: State, s': State,
                                   body: seq<Instr>)
    requires BodyOk(c, avail, body) && LoadsOk(c, S, t, body) && Closed(c, S, avail, t)
    requires Rel(c, S, env, avail, t, s, s')
    ensures NextRel(c, S, env, avail + Defs(body), TopsAfter(c, S, t, body),
                    ExecBody(env, body, s), ExecBody(env, Renamed(c, S, body), s'))
    decreases body
  {
    hide Rel, Closed, InstrOk, LoadOk, Step, End, TopsStep, SubstInstr;
    if body == [] {
      assert avail + Defs(body) == avail;
    } else if IsTerminator(body[0]) {
      SimEnd(c, S, env, avail, t, s, s', body[0]);
      TerminatorAlone(c, S, t, avail, body);
    } else if Step(env, body[0], s).Some? {
      var s1, s1' := SimStep(c, S, env, avail, t, s, s', body[0]);
      SimBody(c, S, env, Plus(avail, body[0]), TopsStep(c, S, t, body[0]), s1, s1', body[1..]);
      assert Plus(avail, body[0]) + Defs(body[1..]) == avail + Defs(body);
      KindKept(S, body[0]);
      if !Erased(c, S, body[0]) {
        assert Renamed(c, S, body)[1..] == Renamed(c, S, body[1..]);
      }
    }
  }

  /** Closedness needs no run: it follows from the text of the block. */
  lemma {:induction false} ClosedAfter(c: Ctx, S: Tops, avail: set<nat>, t: Tops, body: seq<Instr>)
    requires BodyOk(c, avail, body) && LoadsOk(c, S, t, body) && Closed(c, S, avail, t)
    ensures Closed(c, S, avail + Defs(body), TopsAfter(c, S, t, body))
    decreases body
  {
    if body != [] {
      var i := body[0];
      if i.Store? && i.val.Reg? { assert Uses(i, i.val.r); }
      ClosedAfter(c, S, Plus(avail, i), TopsStep(c, S, t, i), body[1..]);
      assert Plus(avail, i) + Defs(body[1..]) == avail + Defs(body);
    } else {
      assert avail + Defs(body) == avail;
    }
  }
}

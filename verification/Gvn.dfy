/** Global value numbering of functions without joins: what it replaces, and why runs stay the same. */
module Gvn {
  import opened IR
  import opened GvnExpr
  import opened GvnTransfer

  // ----- the partitions of a function --------------------------------------------------------------------------

  function TransferAll(info: Info, p: Partition, body: seq<Instr>): Option<Partition>
    decreases body
  {
    if body == [] then Some(p)
    else match Transfer(info, p, body[0], 0) case None => None case Some(q) => TransferAll(info, q, body[1..])
  }

  /** Global variables, then arguments, each in a class of its own. */
  function InitialClass(info: Info, k: nat): Class {
    var v := if k < info.nGlobals then GlobalAddr(k) else Arg(k - info.nGlobals);
    Class(0, v, Single(v), {v})
  }

  function Initial(info: Info): (p: Partition)
    ensures |p| == info.nGlobals + info.nArgs && forall k :: 0 <= k < |p| ==> p[k] == InitialClass(info, k)
  {
    seq(info.nGlobals + info.nArgs, k requires 0 <= k => InitialClass(info, k))
  }

  /** `parent[b]` is the one predecessor of block `b`, and comes before it; the entry block has none. */
  predicate Tree(f: seq<Block>, parent: seq<nat>) {
    |parent| == |f| && f != [] && forall b :: 0 < b < |f| ==> parent[b] < b
  }

  function In(info: Info, f: seq<Block>, parent: seq<nat>, b: nat): Option<Partition>
    requires Tree(f, parent) && b < |f|
    decreases b, 0
  {
    if b == 0 then Some(Initial(info)) else Out(info, f, parent, parent[b])
  }

  function Out(info: Info, f: seq<Block>, parent: seq<nat>, b: nat): Option<Partition>
    requires Tree(f, parent) && b < |f|
    decreases b, 1
  {
    match In(info, f, parent, b) case None => None case Some(p) => TransferAll(info, p, f[b].body)
  }

  // ----- replacing members by leaders --------------------------------------------------------------------------

  function MapOps(h: Operand -> Operand, i: Instr): Instr {
    match i
    case Alloca(_, _) => i
    case Load(d, p) => Load(d, h(p))
    case Store(v, p) => Store(h(v), h(p))
    case Gep(d, b, xs) => Gep(d, h(b), MapAll(h, xs))
    case Bin(d, op, l, r) => Bin(d, op, h(l), h(r))
    case Cmp(d, op, l, r) => Cmp(d, op, h(l), h(r))
    case Conv(d, op, v) => Conv(d, op, h(v))
    case Call(d, f, xs) => Call(d, f, MapAll(h, xs))
    case Br(_) => i
    case CondBr(c, t, f) => CondBr(h(c), t, f)
    case Ret(None) => i
    case Ret(Some(v)) => Ret(Some(h(v)))
  }

  function MapAll(h: Operand -> Operand, os: seq<Operand>): seq<Operand> {
    if os == [] then [] else [h(os[0])] + MapAll(h, os[1..])
  }

  function MapBody(h: Operand -> Operand, body: seq<Instr>): seq<Instr> {
    if body == [] then [] else [MapOps(h, body[0])] + MapBody(h, body[1..])
  }

  /** What becomes of an operand when the classes are worked through one after the other. */
  function ReplaceOp(p: Partition, o: Operand): Operand {
    if p == [] then o else ReplaceOp(p[1..], if o in p[0].members then p[0].leader else o)
  }

  function Replaced(p: Partition): Operand -> Operand {
    o => ReplaceOp(p, o)
  }

  lemma MapOperands(h: Operand -> Operand, i: Instr)
    ensures Operands(MapOps(h, i)) == MapAll(h, Operands(i))
  {
    match i
    case Gep(_, b, xs) => assert ([b] + xs)[1..] == xs;
    case Store(v, p) => MapTwo(h, v, p);
    case Bin(_, _, l, r) => MapTwo(h, l, r);
    case Cmp(_, _, l, r) => MapTwo(h, l, r);
    case _ =>
  }

  lemma MapTwo(h: Operand -> Operand, a: Operand, b: Operand)
    ensures MapAll(h, [a, b]) == [h(a), h(b)]
  {
    assert [a, b][1..] == [b] && [b][1..] == [];
    assert MapAll(h, [b]) == [h(b)] + MapAll(h, []);
  }

  /** Replacing operands by others with the same value. */
  ghost predicate SameValues(env: Env, regs: map<nat, Value>, h: Operand -> Operand, os: seq<Operand>) {
    forall o :: o in os ==> Eval(env, regs, h(o)) == Eval(env, regs, o)
  }

  lemma {:induction false} SameEvalAll(env: Env, regs: map<nat, Value>, h: Operand -> Operand, os: seq<Operand>)
    requires SameValues(env, regs, h, os)
    ensures EvalAll(env, regs, MapAll(h, os)) == EvalAll(env, regs, os)
  {
    if os != [] {
      assert SameValues(env, regs, h, os[1..]);
      SameEvalAll(env, regs, h, os[1..]);
      assert Eval(env, regs, h(os[0])) == Eval(env, regs, os[0]);
    }
  }

  lemma SameStep(env: Env, h: Operand -> Operand, i: Instr, s: State)
    requires SameValues(env, s.regs, h, Operands(i))
    ensures IsTerminator(MapOps(h, i)) <==> IsTerminator(i)
    ensures Step(env, MapOps(h, i), s) == Step(env, i, s) && End(env, MapOps(h, i), s) == End(env, i, s)
  {
    MapOperands(h, i);
    SameEvalAll(env, s.regs, h, Operands(i));
    if i.CondBr? { assert i.cond in Operands(i); }
    if i.Ret? && i.ret.Some? { assert i.ret.value in Operands(i); }
  }

  // ----- the partition at the end of a block, at each of its instructions ------------------------------------------

  /** Some class makes `l` the leader of `o`. */
  ghost predicate Leads(p: Partition, o: Operand, l: Operand) {
    exists k :: 0 <= k < |p| && o in p[k].members && p[k].leader == l
  }

  lemma {:induction false} RemoveLeads(p: Partition, d: Operand, o: Operand, l: Operand)
    requires Leads(RemoveMember(p, d), o, l)
    ensures Leads(p, o, l)
  {
    if p != [] {
      var q := RemoveMember(p[1..], d);
      var r := RemoveMember(p, d);
      var k :| 0 <= k < |r| && o in r[k].members && r[k].leader == l;
      if p[0].members - {d} != {} && k == 0 {
        assert o in p[0].members && p[0].leader == l;
      } else {
        var k' := if p[0].members - {d} == {} then k else k - 1;
        assert r[k] == q[k'];
        RemoveLeads(p[1..], d, o, l);
        var j :| 0 <= j < |p[1..]| && o in p[1..][j].members && p[1..][j].leader == l;
        assert o in p[j + 1].members;
      }
    }
  }

  /** The leader of a register that was there before is the one it had before. */
  lemma TransferLeads(info: Info, p: Partition, i: Instr, o: Operand, l: Operand)
    requires Transfer(info, p, i, 0).Some? && Leads(Transfer(info, p, i, 0).value, o, l)
    requires HasDst(i) ==> o != Reg(i.dst)
    ensures Leads(p, o, l)
  {
    hide ValueExpr, Equiv;
    if !Skipped(info, i) {
      var e, q, r := ValueExpr(info, p, i).value, RemoveMember(p, Reg(i.dst)), Transfer(info, p, i, 0).value;
      var k :| 0 <= k < |r| && o in r[k].members && r[k].leader == l;
      assert k < |q| && o in q[k].members && q[k].leader == l;
      RemoveLeads(p, Reg(i.dst), o, l);
    }
  }

  function Numbered(info: Info, i: Instr): set<nat> {
    if Skipped(info, i) then {} else {i.dst}
  }

  function NumberedDefs(info: Info, body: seq<Instr>): set<nat> {
    if body == [] then {} else Numbered(info, body[0]) + NumberedDefs(info, body[1..])
  }

  ghost predicate BodyFine(info: Info, avail: set<nat>, body: seq<Instr>)
    decreases body
  {
    body == [] || (Fine(info, avail, body[0]) && BodyFine(info, avail + Numbered(info, body[0]), body[1..]))
  }

  /** The result of a call to a void function is not available afterwards, and no register is set twice. */
  ghost predicate SetsOnce(avail: set<nat>, body: seq<Instr>)
    decreases body
  {
    body == [] || ((HasDst(body[0]) ==> body[0].dst !in avail) && SetsOnce(avail, body[1..]))
  }

  lemma {:induction false} LaterDefsNew(info: Info, avail: set<nat>, now: set<nat>, body: seq<Instr>)
    requires BodyFine(info, now, body) && avail <= now
    ensures SetsOnce(avail, body)
    decreases body
  {
    if body != [] { LaterDefsNew(info, avail, now + Numbered(info, body[0]), body[1..]); }
  }

  lemma {:induction false} AllLeads(info: Info, avail: set<nat>, p: Partition, body: seq<Instr>, o: Operand, l: Operand)
    requires SetsOnce(avail, body) && (o.Reg? ==> o.r in avail)
    requires TransferAll(info, p, body).Some? && Leads(TransferAll(info, p, body).value, o, l)
    ensures Leads(p, o, l)
    decreases body
  {
    if body != [] {
      var q := Transfer(info, p, body[0], 0).value;
      AllLeads(info, avail, q, body[1..], o, l);
      TransferLeads(info, p, body[0], o, l);
    }
  }

  /** An operand that is available at this point has the value of what it is replaced by. */
  lemma {:induction false} ReplaceSame(env: Env, F: PureFn, info: Info, avail: set<nat>, lab: map<nat, Expr>,
                                       regs: map<nat, Value>,
                                       p: Partition, fin: Partition, o: Operand)
    requires PartOk(info, avail, lab, p) && Sound(env, F, regs, p)
    requires forall m, l {:trigger Leads(fin, m, l)} :: Known(info, avail, m) && Leads(fin, m, l) ==> Leads(p, m, l)
    requires forall k :: 0 <= k < |fin| ==> forall m :: m in fin[k].members ==> !IsConst(m)
    requires IsConst(o) || Known(info, avail, o)
    ensures Eval(env, regs, ReplaceOp(fin, o)) == Eval(env, regs, o)
    decreases fin
  {
    hide PartOk, Sound, Eval;
    if fin != [] {
      forall m, l {:trigger Leads(fin[1..], m, l)} | Known(info, avail, m) && Leads(fin[1..], m, l)
        ensures Leads(p, m, l)
      {
        var k :| 0 <= k < |fin[1..]| && m in fin[1..][k].members && fin[1..][k].leader == l;
        assert m in fin[k + 1].members;
        assert Leads(fin, m, l);
      }
      if o in fin[0].members {
        assert Leads(fin, o, fin[0].leader);
        LeaderValue(env, F, info, avail, lab, regs, p, o, fin[0].leader);
        ReplaceSame(env, F, info, avail, lab, regs, p, fin[1..], fin[0].leader);
      } else {
        ReplaceSame(env, F, info, avail, lab, regs, p, fin[1..], o);
      }
    }
  }

  lemma LeaderValue(env: Env, F: PureFn, info: Info, avail: set<nat>, lab: map<nat, Expr>, regs: map<nat, Value>,
                    p: Partition, o: Operand, l: Operand)
    requires PartOk(info, avail, lab, p) && Sound(env, F, regs, p) && Leads(p, o, l)
    ensures Eval(env, regs, l) == Eval(env, regs, o) && (IsConst(l) || Known(info, avail, l))
  {
    var k :| 0 <= k < |p| && o in p[k].members && p[k].leader == l;
    assert ClassOk(info, avail, lab, p[k]) && ClassSound(env, F, regs, p[k]);
  }

  // ----- one block ---------------------------------------------------------------------------------------------

  /** The partition is in order and sound at this point. */
  ghost predicate At(env: Env, F: PureFn, info: Info, avail: set<nat>, lab: map<nat, Expr>, regs: map<nat, Value>,
                     p: Partition) {
    PartOk(info, avail, lab, p) && LabelsInside(lab, avail) && Sound(env, F, regs, p)
  }

  ghost predicate SoundSomehow(env: Env, F: PureFn, info: Info, avail: set<nat>, regs: map<nat, Value>, p: Partition) {
    exists lab :: At(env, F, info, avail, lab, regs, p)
  }

  lemma NewDst(info: Info, avail: set<nat>, i: Instr)
    requires Fine(info, avail, i) && HasDst(i)
    ensures i.dst !in avail
  {}

  lemma SkippedSound(env: Env, F: PureFn, info: Info, avail: set<nat>, lab: map<nat, Expr>, p: Partition, i: Instr,
                     s: State, s1: State)
    requires At(env, F, info, avail, lab, s.regs, p) && Fine(info, avail, i) && Skipped(info, i)
             && Step(env, i, s) == Some(s1)
    ensures At(env, F, info, avail, lab, s1.regs, p)
  {
    hide PartOk, ClassSound, Fine, PureSem, GepSem;
    if HasDst(i) {
      NewDst(info, avail, i);
      StepComputes(env, i, s);
      forall k | 0 <= k < |p| ensures ClassSound(env, F, s1.regs, p[k]) {
        PartClass(info, avail, lab, p, k, i);
        ClassFrame(env, F, info, avail, lab, p[k], s.regs, i.dst, s1.regs[i.dst]);
      }
    }
  }

  lemma StepSound(env: Env, F: PureFn, info: Info, avail: set<nat>, lab: map<nat, Expr>, p: Partition, i: Instr,
                  s: State, s1: State) returns (lab': map<nat, Expr>)
    requires At(env, F, info, avail, lab, s.regs, p) && Fine(info, avail, i) && PureResults(env, info, F)
    requires Step(env, i, s) == Some(s1) && Transfer(info, p, i, 0).Some?
    ensures At(env, F, info, avail + Numbered(info, i), lab', s1.regs, Transfer(info, p, i, 0).value)
  {
    hide PartOk, Sound, LabelsInside, Step, Fine, PureResults;
    if Skipped(info, i) {
      lab' := lab;
      SkippedSound(env, F, info, avail, lab, p, i, s, s1);
      assert avail + Numbered(info, i) == avail;
    } else {
      lab' := AddLabel(info, lab, p, i);
      TransferOk(info, avail, lab, p, i, 0);
      TransferSound(env, F, info, avail, lab, p, i, 0, s, s1);
    }
  }

  lemma OperandsSame(env: Env, F: PureFn, info: Info, avail: set<nat>, lab: map<nat, Expr>, regs: map<nat, Value>,
                     p: Partition, fin: Partition,
                     body: seq<Instr>)
    requires At(env, F, info, avail, lab, regs, p) && body != [] && BodyFine(info, avail, body)
             && TransferAll(info, p, body) == Some(fin)
    requires forall k :: 0 <= k < |fin| ==> forall m :: m in fin[k].members ==> !IsConst(m)
    ensures SameValues(env, regs, Replaced(fin), Operands(body[0]))
  {
    hide PartOk, Sound, LabelsInside, TransferAll;
    LaterDefsNew(info, avail, avail, body);
    forall m, l {:trigger Leads(fin, m, l)} | Known(info, avail, m) && Leads(fin, m, l) ensures Leads(p, m, l) {
      AllLeads(info, avail, p, body, m, l);
    }
    forall o | o in Operands(body[0]) ensures Eval(env, regs, Replaced(fin)(o)) == Eval(env, regs, o) {
      ReplaceSame(env, F, info, avail, lab, regs, p, fin, o);
    }
  }

  /** A block with its operands replaced runs as before, and its partition is sound at its end. */
  lemma {:induction false} SameBody(env: Env, F: PureFn, info: Info, avail: set<nat>, lab: map<nat, Expr>,
                                    p: Partition, fin: Partition, body: seq<Instr>, s: State)
    requires At(env, F, info, avail, lab, s.regs, p) && BodyFine(info, avail, body) && PureResults(env, info, F)
    requires TransferAll(info, p, body) == Some(fin)
    requires forall k :: 0 <= k < |fin| ==> forall m :: m in fin[k].members ==> !IsConst(m)
    requires forall k :: 0 <= k < |body| ==> (IsTerminator(body[k]) ==> k == |body| - 1)
    ensures ExecBody(env, MapBody(Replaced(fin), body), s) == ExecBody(env, body, s)
    ensures ExecBody(env, body, s).Goto? ==> SoundSomehow(env, F, info, avail + NumberedDefs(info, body),
                                                          ExecBody(env, body, s).s.regs, fin)
    decreases body
  {
    hide At, Step, End, Transfer, Fine, PureResults, MapOps, Numbered, Replaced, SameValues;
    if body != [] {
      var i, h := body[0], Replaced(fin);
      OperandsSame(env, F, info, avail, lab, s.regs, p, fin, body);
      SameStep(env, h, i, s);
      assert MapBody(h, body)[0] == MapOps(h, i) && MapBody(h, body)[1..] == MapBody(h, body[1..]);
      if IsTerminator(i) {
        assert body[1..] == [];
        EndKeeps(env, F, info, avail, lab, p, i, s);
        assert avail + NumberedDefs(info, body) == avail;
        assert TransferAll(info, Transfer(info, p, i, 0).value, []) == Some(fin);
      } else if Step(env, i, s).Some? {
        var s1 := Step(env, i, s).value;
        var lab' := StepSound(env, F, info, avail, lab, p, i, s, s1);
        SameBody(env, F, info, avail + Numbered(info, i), lab', Transfer(info, p, i, 0).value, fin, body[1..], s1);
        assert avail + Numbered(info, i) + NumberedDefs(info, body[1..]) == avail + NumberedDefs(info, body);
      }
    }
  }

  lemma EndKeeps(env: Env, F: PureFn, info: Info, avail: set<nat>, lab: map<nat, Expr>, p: Partition, i: Instr,
                 s: State)
    requires At(env, F, info, avail, lab, s.regs, p) && IsTerminator(i)
    ensures Transfer(info, p, i, 0) == Some(p) && Numbered(info, i) == {}
    ensures End(env, i, s).Goto? ==> SoundSomehow(env, F, info, avail, End(env, i, s).s.regs, p)
  {}

  // ----- the whole function ---------------------------------------------------------------------------------------

  ghost function AvailIn(info: Info, f: seq<Block>, parent: seq<nat>, b: nat): set<nat>
    requires Tree(f, parent) && b < |f|
    decreases b
  {
    if b == 0 then {} else AvailIn(info, f, parent, parent[b]) + NumberedDefs(info, f[parent[b]].body)
  }

  /** Every block but the entry has one predecessor, listed before it; there are no phis; a block ends
      with its one terminator; operands are defined before, and registers once on every path. */
  ghost predicate JoinFree(info: Info, f: seq<Block>, parent: seq<nat>) {
    && Tree(f, parent)
    && (forall b: nat :: b < |f| ==> BlockOk(info, f, parent, b))
  }

  ghost predicate BlockOk(info: Info, f: seq<Block>, parent: seq<nat>, b: nat)
    requires Tree(f, parent) && b < |f|
  {
    var body := f[b].body;
    && f[b].phis == [] && BodyFine(info, AvailIn(info, f, parent, b), body)
    && (forall k :: 0 <= k < |body| ==> (IsTerminator(body[k]) ==> k == |body| - 1))
    && (forall k, t :: 0 <= k < |body| && t in Targets(body[k]) ==> 0 < t < |f| && parent[t] == b)
  }

  /** No constant is folded with a zero divisor. */
  ghost predicate Folds(info: Info, f: seq<Block>, parent: seq<nat>)
    requires Tree(f, parent)
  {
    forall b: nat :: b < |f| ==> Out(info, f, parent, b).Some?
  }

  function After(info: Info, f: seq<Block>, parent: seq<nat>): seq<Block>
    requires Tree(f, parent)
  {
    seq(|f|, b requires 0 <= b < |f| =>
      match Out(info, f, parent, b)
      case Some(p) => Block(f[b].phis, MapBody(Replaced(p), f[b].body))
      case None => f[b])
  }

  lemma InitialClassOk(env: Env, F: PureFn, info: Info, regs: map<nat, Value>, k: nat)
    requires |env.args| == info.nArgs && k < info.nGlobals + info.nArgs
    ensures ClassOk(info, {}, map[], InitialClass(info, k)) && ClassSound(env, F, regs, InitialClass(info, k))
    ensures Norm(InitialClass(info, k).expr) == InitialClass(info, k).expr
  {}

  lemma InitialHeld(info: Info, o: Operand)
    requires Known(info, {}, o)
    ensures Held(Initial(info), o)
  {
    var k := if o.GlobalAddr? then o.g else info.nGlobals + o.i;
    assert Initial(info)[k] == InitialClass(info, k) && o in Initial(info)[k].members;
  }

  lemma InitialOk(env: Env, F: PureFn, info: Info, regs: map<nat, Value>)
    requires |env.args| == info.nArgs
    ensures At(env, F, info, {}, map[], regs, Initial(info))
  {
    hide ClassOk, ClassSound, Norm, Held, Initial;
    var p := Initial(info);
    forall k | 0 <= k < |p|
      ensures ClassOk(info, {}, map[], p[k]) && ClassSound(env, F, regs, p[k]) && Norm(p[k].expr) == p[k].expr
    {
      InitialClassOk(env, F, info, regs, k);
    }
    forall o | Known(info, {}, o) ensures Held(p, o) { InitialHeld(info, o); }
  }

  lemma NoConstMembers(info: Info, avail: set<nat>, lab: map<nat, Expr>, p: Partition)
    requires PartOk(info, avail, lab, p)
    ensures forall k :: 0 <= k < |p| ==> forall m :: m in p[k].members ==> !IsConst(m)
  {
    forall k | 0 <= k < |p|
      ensures forall m :: m in p[k].members ==> !IsConst(m)
    {
      assert ClassOk(info, avail, lab, p[k]);
    }
  }

  /** The partition that the body produces is in order whatever the run does. */
  lemma {:induction false} TransferAllOk(info: Info, avail: set<nat>, lab: map<nat, Expr>, p: Partition,
                                         body: seq<Instr>) returns (lab': map<nat, Expr>)
    requires PartOk(info, avail, lab, p) && LabelsInside(lab, avail) && BodyFine(info, avail, body)
             && TransferAll(info, p, body).Some?
    ensures PartOk(info, avail + NumberedDefs(info, body), lab', TransferAll(info, p, body).value)
    ensures LabelsInside(lab', avail + NumberedDefs(info, body))
    decreases body
  {
    hide PartOk, LabelsInside, Fine, Transfer;
    if body == [] {
      lab' := lab;
      assert avail + NumberedDefs(info, body) == avail;
    } else {
      var i := body[0];
      var lab1 := if Skipped(info, i) then lab else AddLabel(info, lab, p, i);
      if Skipped(info, i) { TransferSkipped(info, p, i); } else { TransferOk(info, avail, lab, p, i, 0); }
      assert Skipped(info, i) ==> avail + Numbered(info, i) == avail;
      lab' := TransferAllOk(info, avail + Numbered(info, i), lab1, Transfer(info, p, i, 0).value, body[1..]);
      assert avail + Numbered(info, i) + NumberedDefs(info, body[1..]) == avail + NumberedDefs(info, body);
    }
  }

  lemma TransferSkipped(info: Info, p: Partition, i: Instr)
    requires Skipped(info, i)
    ensures Transfer(info, p, i, 0) == Some(p)
  {}

  /** What relates the two runs at the start of block `b`: they are in the same state. */
  ghost predicate SameRun(env: Env, F: PureFn, info: Info, f: seq<Block>, parent: seq<nat>, b: nat, s: State, s': State)
    requires Tree(f, parent)
  {
    && b < |f| && s == s' && In(info, f, parent, b).Some?
    && SoundSomehow(env, F, info, AvailIn(info, f, parent, b), s.regs, In(info, f, parent, b).value)
  }

  lemma {:induction false} GotoTarget(env: Env, body: seq<Instr>, s: State)
    ensures ExecBody(env, body, s).Goto? ==> exists k :: 0 <= k < |body|
                                                         && ExecBody(env, body, s).to in Targets(body[k])
    decreases body
  {
    if body != [] && !IsTerminator(body[0]) && Step(env, body[0], s).Some? {
      var s1 := Step(env, body[0], s).value;
      GotoTarget(env, body[1..], s1);
      if ExecBody(env, body[1..], s1).Goto? {
        var k :| 0 <= k < |body[1..]| && ExecBody(env, body[1..], s1).to in Targets(body[1..][k]);
        assert body[1..][k] == body[k + 1];
      }
    } else if body != [] && IsTerminator(body[0]) && End(env, body[0], s).Goto? {
      assert End(env, body[0], s).to in Targets(body[0]);
    }
  }

  lemma SameBlock(env: Env, F: PureFn, info: Info, f: seq<Block>, parent: seq<nat>, b: nat, from: nat, s: State,
                  s': State)
    requires JoinFree(info, f, parent) && Folds(info, f, parent) && PureResults(env, info, F)
    requires SameRun(env, F, info, f, parent, b, s, s')
    ensures var n := RunBlock(env, f[b], from, s);
            && RunBlock(env, After(info, f, parent)[b], from, s') == n
            && (n.Goto? ==> SameRun(env, F, info, f, parent, n.to, n.s, n.s))
  {
    hide At, PureResults, PartOk, LabelsInside, ExecBody, TransferAll, Initial;
    assert BlockOk(info, f, parent, b);
    var avail, p := AvailIn(info, f, parent, b), In(info, f, parent, b).value;
    var fin := Out(info, f, parent, b).value;
    var lab :| At(env, F, info, avail, lab, s.regs, p);
    AtOk(env, F, info, avail, lab, s.regs, p);
    var lab' := TransferAllOk(info, avail, lab, p, f[b].body);
    NoConstMembers(info, avail + NumberedDefs(info, f[b].body), lab', fin);
    SameBody(env, F, info, avail, lab, p, fin, f[b].body, s);
    assert s.(regs := s.regs) == s;
    GotoTarget(env, f[b].body, s);
    var n := RunBlock(env, f[b], from, s);
    if n.Goto? {
      assert n == ExecBody(env, f[b].body, s);
      var k :| 0 <= k < |f[b].body| && n.to in Targets(f[b].body[k]);
      assert 0 < n.to < |f| && parent[n.to] == b;
      assert In(info, f, parent, n.to) == Out(info, f, parent, b) == Some(fin);
      assert AvailIn(info, f, parent, n.to) == avail + NumberedDefs(info, f[b].body);
    }
  }

  lemma AtOk(env: Env, F: PureFn, info: Info, avail: set<nat>, lab: map<nat, Expr>, regs: map<nat, Value>, p: Partition)
    requires At(env, F, info, avail, lab, regs, p)
    ensures PartOk(info, avail, lab, p) && LabelsInside(lab, avail)
  {}

  /** Value numbering preserves meaning: replacing every operand by the leader of its class changes no
      run of a function without joins. */
  lemma GvnPreservesMeaning(env: Env, F: PureFn, info: Info, f: seq<Block>, parent: seq<nat>, w: World, fuel: nat)
    requires JoinFree(info, f, parent) && Folds(info, f, parent) && PureResults(env, info, F)
             && |env.args| == info.nArgs
    requires RunFunction(env, f, w, fuel).Done?
    ensures RunFunction(env, After(info, f, parent), w, fuel) == RunFunction(env, f, w, fuel)
  {
    var f' := After(info, f, parent);
    var R: Relation := (b: nat, from: nat, s, s') => SameRun(env, F, info, f, parent, b, s, s');
    forall b: nat, from: nat, s: State, s': State | R(b, from, s, s') ensures Agree(env, f, f', R, b, from, s, s') {
      SameBlock(env, F, info, f, parent, b, from, s, s');
    }
    var s0 := State(map[], map[], w);
    InitialOk(env, F, info, s0.regs);
    Lockstep(env, f, f', R, 0, 0, s0, s0, fuel);
  }

  // ----- what holds at run time --------------------------------------------------------------------------------------

  lemma {:induction false} ReachedSound(env: Env, F: PureFn, info: Info, f: seq<Block>, parent: seq<nat>, w: World,
                                        n: nat, b: nat, from: nat, s: State)
    requires JoinFree(info, f, parent) && Folds(info, f, parent) && PureResults(env, info, F)
             && |env.args| == info.nArgs
    requires Reaches(env, f, w, n, b, from, s)
    ensures SameRun(env, F, info, f, parent, b, s, s)
    decreases n
  {
    hide Folds, PureResults, SoundSomehow, RunBlock, BlockOk;
    if n == 0 {
      StartsSound(env, F, info, f, parent, w);
    } else {
      var from0, s0 :| ReachesBy(env, f, w, n, b, from, s, from0, s0);
      ReachedSound(env, F, info, f, parent, w, n - 1, from, from0, s0);
      SameBlock(env, F, info, f, parent, from, from0, s0, s0);
    }
  }

  lemma StartsSound(env: Env, F: PureFn, info: Info, f: seq<Block>, parent: seq<nat>, w: World)
    requires Tree(f, parent) && |env.args| == info.nArgs
    ensures SameRun(env, F, info, f, parent, 0, State(map[], map[], w), State(map[], map[], w))
  {
    InitialOk(env, F, info, map[]);
  }

  /** The partition that the first `i` instructions produce is sound after they have run. */
  lemma {:induction false} StepsSound(env: Env, F: PureFn, info: Info, avail: set<nat>, lab: map<nat, Expr>,
                                      p: Partition, body: seq<Instr>, s: State, i: nat) returns (avail': set<nat>)
    requires At(env, F, info, avail, lab, s.regs, p) && BodyFine(info, avail, body) && PureResults(env, info, F)
    requires i <= |body| && Steps(env, body, s, i).Some? && TransferAll(info, p, body).Some?
    ensures TransferAll(info, p, body[..i]).Some?
    ensures SoundSomehow(env, F, info, avail', Steps(env, body, s, i).value.regs, TransferAll(info, p, body[..i]).value)
    decreases i
  {
    hide At, Step, Transfer, Fine, PureResults, Numbered;
    avail' := avail;
    if i > 0 {
      var s1 := Step(env, body[0], s).value;
      var lab' := StepSound(env, F, info, avail, lab, p, body[0], s, s1);
      assert body[..i][0] == body[0] && body[..i][1..] == body[1..][..i - 1];
      avail' := StepsSound(env, F, info, avail + Numbered(info, body[0]), lab', Transfer(info, p, body[0], 0).value,
                           body[1..], s1, i - 1);
    }
  }

  /** At every point of every run all members of a class of the partition that the transfer functions give
      for this point, and its leader, have one value. */
  lemma MembersAgree(env: Env, F: PureFn, info: Info, f: seq<Block>, parent: seq<nat>, w: World, n: nat, b: nat,
                     from: nat, s: State, i: nat)
    requires JoinFree(info, f, parent) && Folds(info, f, parent) && PureResults(env, info, F)
             && |env.args| == info.nArgs
    requires Reaches(env, f, w, n, b, from, s)
    ensures b < |f| && In(info, f, parent, b).Some?
    ensures i <= |f[b].body| && Steps(env, f[b].body, s, i).Some? ==>
              && TransferAll(info, In(info, f, parent, b).value, f[b].body[..i]).Some?
              && Agreeing(env, Steps(env, f[b].body, s, i).value.regs,
                          TransferAll(info, In(info, f, parent, b).value, f[b].body[..i]).value)
  {
    hide PureResults, At, TransferAll, Steps;
    ReachedSound(env, F, info, f, parent, w, n, b, from, s);
    assert BlockOk(info, f, parent, b) && Out(info, f, parent, b).Some?;
    if i <= |f[b].body| && Steps(env, f[b].body, s, i).Some? {
      var avail, p := AvailIn(info, f, parent, b), In(info, f, parent, b).value;
      var lab :| At(env, F, info, avail, lab, s.regs, p);
      var avail' := StepsSound(env, F, info, avail, lab, p, f[b].body, s, i);
      SoundAgrees(env, F, info, avail', Steps(env, f[b].body, s, i).value.regs,
                  TransferAll(info, p, f[b].body[..i]).value);
    }
  }

  /** All members of each class, and its leader, have one value. */
  ghost predicate Agreeing(env: Env, regs: map<nat, Value>, p: Partition) {
    forall k, o :: 0 <= k < |p| && o in p[k].members ==>
                     Eval(env, regs, o).Some? && Eval(env, regs, p[k].leader) == Eval(env, regs, o)
  }

  lemma SoundAgrees(env: Env, F: PureFn, info: Info, avail: set<nat>, regs: map<nat, Value>, p: Partition)
    requires SoundSomehow(env, F, info, avail, regs, p)
    ensures Agreeing(env, regs, p)
  {
    hide PartOk;
    var lab :| At(env, F, info, avail, lab, regs, p);
    forall k, o | 0 <= k < |p| && o in p[k].members
      ensures Eval(env, regs, o).Some? && Eval(env, regs, p[k].leader) == Eval(env, regs, o)
    {
      assert ClassSound(env, F, regs, p[k]);
    }
  }

  /** So do those of the partition stored for the block, when control is at its terminator. */
  lemma StoredAgree(env: Env, F: PureFn, info: Info, f: seq<Block>, parent: seq<nat>, w: World, n: nat, b: nat,
                    from: nat, s: State)
    requires JoinFree(info, f, parent) && Folds(info, f, parent) && PureResults(env, info, F)
             && |env.args| == info.nArgs
    requires Reaches(env, f, w, n, b, from, s) && b < |f| && f[b].body != []
    ensures var i := |f[b].body| - 1;
            IsTerminator(f[b].body[i]) && Steps(env, f[b].body, s, i).Some? ==>
              && Out(info, f, parent, b).Some?
              && Agreeing(env, Steps(env, f[b].body, s, i).value.regs, Out(info, f, parent, b).value)
  {
    hide PureResults, Steps, Agreeing, Reaches, BlockOk;
    var body := f[b].body;
    var i := |body| - 1;
    MembersAgree(env, F, info, f, parent, w, n, b, from, s, i);
    if IsTerminator(body[i]) && Steps(env, body, s, i).Some? {
      LastSkipped(info, In(info, f, parent, b).value, body);
    }
  }

  lemma {:induction false} LastSkipped(info: Info, p: Partition, body: seq<Instr>)
    requires body != [] && IsTerminator(body[|body| - 1])
    ensures TransferAll(info, p, body) == TransferAll(info, p, body[..|body| - 1])
    decreases body
  {
    hide Transfer;
    if |body| > 1 {
      assert body[..|body| - 1][1..] == body[1..][..|body| - 2];
      var q := Transfer(info, p, body[0], 0);
      if q.Some? { LastSkipped(info, q.value, body[1..]); }
    } else {
      TransferSkipped(info, p, body[0]);
      assert body[1..] == [];
    }
  }
}

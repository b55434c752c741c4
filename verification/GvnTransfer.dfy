/** The transfer function of global value numbering, and why the members of a class have equal values. */
module GvnTransfer {
  import opened IR
  import opened GvnExpr

  /** A congruence class; its expression says what all members stand for. Index 0 is the top class. */
  datatype Class = Class(index: nat, leader: Operand, expr: Expr, members: set<Operand>)

  type Partition = seq<Class>

  /** What the pass knows about the function: pure and void callees, parameters, global variables. */
  datatype Info = Info(pure: set<nat>, voids: set<nat>, nArgs: nat, nGlobals: nat)

  // ----- value expressions of instructions ------------------------------------------------------------------

  /** The expression of the last class that holds `o`. */
  function FindLast(p: Partition, o: Operand): Option<Expr> {
    if p == [] then None
    else if o in p[|p| - 1].members then Some(p[|p| - 1].expr)
    else FindLast(p[..|p| - 1], o)
  }

  function ConstVal(o: Operand): Value
    requires IsConst(o)
  {
    if o.ConstInt? then Int(o.n) else Flt(o.x)
  }

  function OperandExpr(p: Partition, o: Operand, otherwise: Operand): Expr {
    if IsConst(o) then ConstE(ConstVal(o), false)
    else match FindLast(p, o) case Some(e) => e case None => Single(otherwise)
  }

  /** The expressions of all classes that hold `o`. */
  function Holding(p: Partition, o: Operand): seq<Expr> {
    if p == [] then [] else (if o in p[0].members then [p[0].expr] else []) + Holding(p[1..], o)
  }

  function Collect(p: Partition, os: seq<Operand>): seq<Expr> {
    if os == [] then [] else (if IsConst(os[0]) then [ConstE(ConstVal(os[0]), false)]
                              else Holding(p, os[0])) + Collect(p, os[1..])
  }

  /** `ConstFolder`; None where it computes nothing, as for a zero divisor. */
  function Folded(v: Option<Value>, bit: bool): Option<Expr> {
    match v case Some(k) => Some(ConstE(k, bit)) case None => None
  }

  function ValueExpr(info: Info, p: Partition, i: Instr): Option<Expr>
    requires HasDst(i)
  {
    match i
    case Bin(_, op, a, b) =>
      var l, r := OperandExpr(p, a, a), OperandExpr(p, b, b);
      if l.ConstE? && r.ConstE? then Folded(BinSem(op, l.v, r.v), false) else Some(BinE(op, l, r))
    case Cmp(_, op, a, b) =>
      var l, r := OperandExpr(p, a, a), OperandExpr(p, b, b);
      if l.ConstE? && r.ConstE? then Folded(CmpSem(op, l.v, r.v), true) else Some(CmpE(op, l, r))
    case Conv(d, c, v) =>
      var e := OperandExpr(p, v, Reg(d));
      if e.ConstE? then Folded(ConvSem(c, e.v), false) else Some(TransE(c, e))
    case Call(d, f, xs) => Some(FuncE(f, Collect(p, xs), f in info.pure, d))
    case Gep(_, b, xs) => Some(GepE(Collect(p, [b] + xs)))
    case _ => Some(Single(Reg(i.dst)))
  }

  // ----- the transfer function --------------------------------------------------------------------------------

  /** Instructions that the pass does not number. */
  predicate Skipped(info: Info, i: Instr) {
    !HasDst(i) || (i.Call? && i.fn in info.voids)
  }

  function RemoveMember(p: Partition, o: Operand): Partition {
    if p == [] then []
    else (if p[0].members - {o} == {} then [] else [p[0].(members := p[0].members - {o})]) + RemoveMember(p[1..], o)
  }

  predicate Matched(p: Partition, e: Expr) {
    exists k :: 0 <= k < |p| && Equiv(p[k].expr, e)
  }

  function AddMember(p: Partition, e: Expr, o: Operand): (q: Partition)
    ensures |q| == |p|
    ensures forall k :: 0 <= k < |p| ==> q[k] == if Equiv(p[k].expr, e) then p[k].(members := p[k].members + {o})
            else p[k]
  {
    if p == [] then []
    else [if Equiv(p[0].expr, e) then p[0].(members := p[0].members + {o}) else p[0]] + AddMember(p[1..], e, o)
  }

  function LeaderFor(e: Expr, x: nat): Operand {
    match e
    case ConstE(Int(n), _) => ConstInt(n)
    case ConstE(Flt(y), _) => ConstFp(y)
    case _ => Reg(x)
  }

  /** The instruction joins the class of its expression, or founds one; None when folding fails. */
  function Transfer(info: Info, p: Partition, i: Instr, next: nat): Option<Partition> {
    if Skipped(info, i) then Some(p)
    else match ValueExpr(info, p, i)
      case None => None
      case Some(e) =>
        var q := RemoveMember(p, Reg(i.dst));
        Some(if Matched(q, e) then AddMember(q, e, Reg(i.dst))
             else q + [Class(next, LeaderFor(e, i.dst), e, {Reg(i.dst)})])
  }

  // ----- what a partition must satisfy --------------------------------------------------------------------------

  predicate Known(info: Info, avail: set<nat>, o: Operand) {
    match o
    case ConstInt(_) => false
    case ConstFp(_) => false
    case Arg(i) => i < info.nArgs
    case GlobalAddr(g) => g < info.nGlobals
    case Reg(r) => r in avail
  }

  ghost predicate ClassOk(info: Info, avail: set<nat>, lab: map<nat, Expr>, c: Class) {
    && Names(avail, c.expr) && Labelled(lab, c.expr) && !c.expr.PhiE?
    && c.members != {} && (forall o :: o in c.members ==> Known(info, avail, o))
    && (IsConst(c.leader) || Known(info, avail, c.leader))
  }

  /** Everything available is in exactly one class, and the expressions of two classes differ. */
  ghost predicate PartOk(info: Info, avail: set<nat>, lab: map<nat, Expr>, p: Partition) {
    && (forall k :: 0 <= k < |p| ==> ClassOk(info, avail, lab, p[k]))
    && (forall j, k :: 0 <= j < k < |p| ==> Norm(p[j].expr) != Norm(p[k].expr) && p[j].members !! p[k].members)
    && (forall o :: Known(info, avail, o) ==> Held(p, o))
  }

  predicate Held(p: Partition, o: Operand) {
    exists k :: 0 <= k < |p| && o in p[k].members
  }

  /** All members and the leader have the value of the expression. */
  ghost predicate ClassSound(env: Env, F: PureFn, regs: map<nat, Value>, c: Class) {
    && CallsOk(env, F, regs, c.expr) && EvalE(env, regs, c.expr).Some?
    && Eval(env, regs, c.leader) == EvalE(env, regs, c.expr)
    && (forall o :: o in c.members ==> Eval(env, regs, o) == EvalE(env, regs, c.expr))
  }

  ghost predicate Sound(env: Env, F: PureFn, regs: map<nat, Value>, p: Partition) {
    forall k :: 0 <= k < |p| ==> ClassSound(env, F, regs, p[k])
  }

  /** Pure functions compute `F`. */
  ghost predicate PureResults(env: Env, info: Info, F: PureFn) {
    forall fn, vs, w :: fn in info.pure && env.call(fn, vs, w).Some? ==> env.call(fn, vs, w).value.0 == F(fn, vs)
  }

  /** Operands are defined before; the register that is set is not. */
  ghost predicate Fine(info: Info, avail: set<nat>, i: Instr) {
    && (forall o :: o in Operands(i) ==> IsConst(o) || Known(info, avail, o))
    && (HasDst(i) ==> i.dst !in avail)
  }

  // ----- values of operands --------------------------------------------------------------------------------------

  lemma {:induction false} FindLastIs(p: Partition, o: Operand)
    ensures FindLast(p, o).Some? <==> Held(p, o)
    ensures FindLast(p, o).Some? ==> exists k :: 0 <= k < |p| && o in p[k].members && FindLast(p, o).value == p[k].expr
  {
    if p != [] {
      var q := p[..|p| - 1];
      FindLastIs(q, o);
      if k :| 0 <= k < |p| && o in p[k].members { assert k == |p| - 1 || o in q[k].members; }
      if k :| 0 <= k < |q| && o in q[k].members && FindLast(q, o) == Some(q[k].expr) {
        assert o in p[k].members && q[k] == p[k];
      }
    }
  }

  lemma ConstValue(env: Env, F: PureFn, avail: set<nat>, lab: map<nat, Expr>, regs: map<nat, Value>, o: Operand)
    requires IsConst(o)
    ensures var e := ConstE(ConstVal(o), false);
            && Names(avail, e) && Labelled(lab, e) && CallsOk(env, F, regs, e)
            && EvalE(env, regs, e) == Eval(env, regs, o) && Eval(env, regs, o).Some?
  {}

  lemma MemberValue(env: Env, F: PureFn, info: Info, avail: set<nat>, lab: map<nat, Expr>, regs: map<nat, Value>,
                    c: Class, o: Operand)
    requires ClassOk(info, avail, lab, c) && o in c.members
    ensures Names(avail, c.expr) && Labelled(lab, c.expr) && !c.expr.PhiE?
    ensures ClassSound(env, F, regs, c) ==>
              && CallsOk(env, F, regs, c.expr) && EvalE(env, regs, c.expr) == Eval(env, regs, o)
              && Eval(env, regs, o).Some?
  {
    hide Names, Labelled, CallsOk, EvalE, Eval;
  }

  /** The expression of an operand stands for the operand. */
  lemma OperandValue(env: Env, F: PureFn, info: Info, avail: set<nat>, lab: map<nat, Expr>, regs: map<nat, Value>,
                     p: Partition, o: Operand, other: Operand)
    requires PartOk(info, avail, lab, p) && (IsConst(o) || Known(info, avail, o))
    ensures var e := OperandExpr(p, o, other); Names(avail, e) && Labelled(lab, e) && !e.PhiE?
    ensures Sound(env, F, regs, p) ==>
              var e := OperandExpr(p, o, other);
              CallsOk(env, F, regs, e) && EvalE(env, regs, e) == Eval(env, regs, o) && Eval(env, regs, o).Some?
  {
    hide ClassOk, ClassSound, Norm, Names, Labelled, CallsOk, EvalE, Eval, FindLast, ConstVal;
    if IsConst(o) {
      ConstValue(env, F, avail, lab, regs, o);
    } else {
      FindLastIs(p, o);
      var k :| 0 <= k < |p| && o in p[k].members && FindLast(p, o).value == p[k].expr;
      MemberValue(env, F, info, avail, lab, regs, p[k], o);
    }
  }

  lemma {:induction false} HoldingNone(p: Partition, o: Operand)
    requires !Held(p, o)
    ensures Holding(p, o) == []
  {
    if p != [] {
      forall k | 0 <= k < |p[1..]| ensures o !in p[1..][k].members { assert p[1..][k] == p[k + 1]; }
      HoldingNone(p[1..], o);
      assert o !in p[0].members;
    }
  }

  /** A member of one class is collected once. */
  lemma {:induction false} HoldingOne(p: Partition, o: Operand, k: nat)
    requires k < |p| && o in p[k].members && forall j :: 0 <= j < |p| && j != k ==> o !in p[j].members
    ensures Holding(p, o) == [p[k].expr]
    decreases p
  {
    if k == 0 {
      forall j | 0 <= j < |p[1..]| ensures o !in p[1..][j].members { assert p[1..][j] == p[j + 1]; }
      HoldingNone(p[1..], o);
    } else {
      assert p[1..][k - 1] == p[k];
      HoldingOne(p[1..], o, k - 1);
    }
  }

  lemma HoldingOperand(info: Info, avail: set<nat>, lab: map<nat, Expr>, p: Partition, o: Operand, other: Operand)
    requires PartOk(info, avail, lab, p) && Known(info, avail, o)
    ensures Holding(p, o) == [OperandExpr(p, o, other)]
  {
    hide ClassOk, Norm;
    FindLastIs(p, o);
    var k :| 0 <= k < |p| && o in p[k].members && FindLast(p, o).value == p[k].expr;
    forall j | 0 <= j < |p| && j != k ensures o !in p[j].members { if j < k {} else {} }
    HoldingOne(p, o, k);
  }

  lemma {:induction false} CollectValues(env: Env, F: PureFn, info: Info, avail: set<nat>, lab: map<nat, Expr>,
                                         regs: map<nat, Value>, p: Partition, os: seq<Operand>)
    requires PartOk(info, avail, lab, p) && forall o :: o in os ==> IsConst(o) || Known(info, avail, o)
    ensures AllNames(avail, Collect(p, os)) && AllLabelled(lab, Collect(p, os))
    ensures Sound(env, F, regs, p) ==>
              AllCallsOk(env, F, regs, Collect(p, os)) && EvalEs(env, regs, Collect(p, os)) == EvalAll(env, regs, os)
              && EvalAll(env, regs, os).Some?
  {
    hide PartOk, Sound;
    if os != [] {
      var e := OperandExpr(p, os[0], os[0]);
      OperandValue(env, F, info, avail, lab, regs, p, os[0], os[0]);
      CollectValues(env, F, info, avail, lab, regs, p, os[1..]);
      if !IsConst(os[0]) { HoldingOperand(info, avail, lab, p, os[0], os[0]); }
      assert Collect(p, os) == [e] + Collect(p, os[1..]);
      assert Collect(p, os)[0] == e && Collect(p, os)[1..] == Collect(p, os[1..]);
    }
  }

  // ----- the value expression stands for the instruction ---------------------------------------------------------

  /** The label that the instruction adds, when it is a call. */
  function AddLabel(info: Info, lab: map<nat, Expr>, p: Partition, i: Instr): map<nat, Expr>
    requires HasDst(i)
  {
    match ValueExpr(info, p, i) case Some(e) => (if i.Call? then lab[i.dst := e] else lab) case None => lab
  }

  ghost predicate LabelsInside(lab: map<nat, Expr>, avail: set<nat>) {
    forall x :: x in lab ==> x in avail
  }

  lemma ValueExprOk(info: Info, avail: set<nat>, lab: map<nat, Expr>, p: Partition, i: Instr, e: Expr)
    requires PartOk(info, avail, lab, p) && LabelsInside(lab, avail) && Fine(info, avail, i) && HasDst(i)
    requires ValueExpr(info, p, i) == Some(e)
    ensures Names(avail + {i.dst}, e) && Labelled(AddLabel(info, lab, p, i), e) && !e.PhiE?
  {
    hide PartOk, LabelsInside, OperandExpr, Collect;
    var avail', lab' := avail + {i.dst}, AddLabel(info, lab, p, i);
    LabelKept(info, avail, lab, p, i);
    match i
    case Bin(_, op, a, b) =>
      OperandGrows(info, avail, lab, p, a, a, i.dst, lab');
      OperandGrows(info, avail, lab, p, b, b, i.dst, lab');
    case Cmp(_, op, a, b) =>
      OperandGrows(info, avail, lab, p, a, a, i.dst, lab');
      OperandGrows(info, avail, lab, p, b, b, i.dst, lab');
    case Conv(d, _, v) =>
      OperandGrows(info, avail, lab, p, v, Reg(d), i.dst, lab');
    case Call(_, _, xs) =>
      CollectGrows(info, avail, lab, p, xs, i.dst, lab');
    case Gep(_, b, xs) =>
      CollectGrows(info, avail, lab, p, [b] + xs, i.dst, lab');
    case _ =>
  }

  lemma CollectGrows(info: Info, avail: set<nat>, lab: map<nat, Expr>, p: Partition, os: seq<Operand>, d: nat,
                     lab': map<nat, Expr>)
    requires PartOk(info, avail, lab, p) && forall o :: o in os ==> IsConst(o) || Known(info, avail, o)
    requires forall x :: x in lab ==> x in lab' && lab'[x] == lab[x]
    ensures AllNames(avail + {d}, Collect(p, os)) && AllLabelled(lab', Collect(p, os))
  {
    hide PartOk;
    var env, F := Env([], 0, (f: nat, vs: seq<Value>, w: World) => None), (f: nat, vs: seq<Value>) => Int(0);
    CollectValues(env, F, info, avail, lab, map[], p, os);
    AllNamesGrow(avail, avail + {d}, lab, lab', Collect(p, os));
  }

  lemma LabelKept(info: Info, avail: set<nat>, lab: map<nat, Expr>, p: Partition, i: Instr)
    requires LabelsInside(lab, avail) && Fine(info, avail, i) && HasDst(i)
    ensures forall x :: x in lab ==> x in AddLabel(info, lab, p, i) && AddLabel(info, lab, p, i)[x] == lab[x]
  {}

  lemma OperandGrows(info: Info, avail: set<nat>, lab: map<nat, Expr>, p: Partition, o: Operand, other: Operand,
                     d: nat, lab': map<nat, Expr>)
    requires PartOk(info, avail, lab, p) && (IsConst(o) || Known(info, avail, o))
    requires forall x :: x in lab ==> x in lab' && lab'[x] == lab[x]
    ensures var e := OperandExpr(p, o, other); Names(avail + {d}, e) && Labelled(lab', e) && !e.PhiE?
  {
    var env, F := Env([], 0, (f: nat, vs: seq<Value>, w: World) => None), (f: nat, vs: seq<Value>) => Int(0);
    OperandValue(env, F, info, avail, lab, map[], p, o, other);
    NamesGrow(avail, avail + {d}, lab, lab', OperandExpr(p, o, other));
  }

  /** After the instruction, its expression has the value of its register. */
  lemma ValueExprSound(env: Env, F: PureFn, info: Info, avail: set<nat>, lab: map<nat, Expr>, p: Partition, i: Instr,
                       e: Expr, s: State, s1: State)
    requires PartOk(info, avail, lab, p) && Fine(info, avail, i) && HasDst(i) && ValueExpr(info, p, i) == Some(e)
    requires Sound(env, F, s.regs, p) && PureResults(env, info, F) && Step(env, i, s) == Some(s1)
    ensures i.dst in s1.regs && s1.regs == s.regs[i.dst := s1.regs[i.dst]]
    ensures CallsOk(env, F, s1.regs, e) && EvalE(env, s1.regs, e) == Some(s1.regs[i.dst])
  {
    hide PartOk, Sound;
    match i
    case Bin(_, op, a, b) => TwoOperands(env, F, info, avail, lab, p, i, a, b, s, s1);
    case Cmp(_, op, a, b) => TwoOperands(env, F, info, avail, lab, p, i, a, b, s, s1);
    case Conv(d, _, v) =>
      EvalOne(env, s.regs, v);
      OperandValue(env, F, info, avail, lab, s.regs, p, v, Reg(d));
      OperandFrame(env, F, info, avail, lab, p, v, Reg(d), s.regs, d, s1.regs[d]);
    case Call(d, f, xs) =>
      CollectValues(env, F, info, avail, lab, s.regs, p, xs);
      EvalAllFrame(env, F, s.regs, d, s1.regs[d], avail, Collect(p, xs));
    case Gep(d, b, xs) =>
      CollectValues(env, F, info, avail, lab, s.regs, p, [b] + xs);
      EvalAllFrame(env, F, s.regs, d, s1.regs[d], avail, Collect(p, [b] + xs));
    case _ =>
  }

  lemma OperandFrame(env: Env, F: PureFn, info: Info, avail: set<nat>, lab: map<nat, Expr>, p: Partition, o: Operand,
                     other: Operand,
                     regs: map<nat, Value>, d: nat, v: Value)
    requires PartOk(info, avail, lab, p) && Sound(env, F, regs, p) && (IsConst(o) || Known(info, avail, o))
             && d !in avail
    ensures var e := OperandExpr(p, o, other); CallsOk(env, F, regs[d := v], e)
                                               && EvalE(env, regs[d := v], e) == Eval(env, regs, o)
  {
    OperandValue(env, F, info, avail, lab, regs, p, o, other);
    EvalFrame(env, F, regs, d, v, avail, OperandExpr(p, o, other));
  }

  lemma TwoOperands(env: Env, F: PureFn, info: Info, avail: set<nat>, lab: map<nat, Expr>, p: Partition, i: Instr,
                    a: Operand, b: Operand, s: State, s1: State)
    requires PartOk(info, avail, lab, p) && Fine(info, avail, i) && Operands(i) == [a, b] && (i.Bin? || i.Cmp?)
             && ValueExpr(info, p, i).Some?
    requires a == i.l && b == i.r
    requires Sound(env, F, s.regs, p) && Step(env, i, s) == Some(s1)
    ensures i.dst in s1.regs && s1.regs == s.regs[i.dst := s1.regs[i.dst]]
    ensures var e := ValueExpr(info, p, i).value; CallsOk(env, F, s1.regs, e)
                                                  && EvalE(env, s1.regs, e) == Some(s1.regs[i.dst])
  {
    hide PartOk, Sound;
    EvalTwo(env, s.regs, a, b);
    assert a in Operands(i) && b in Operands(i);
    OperandValue(env, F, info, avail, lab, s.regs, p, a, a);
    OperandValue(env, F, info, avail, lab, s.regs, p, b, b);
    OperandFrame(env, F, info, avail, lab, p, a, a, s.regs, i.dst, s1.regs[i.dst]);
    OperandFrame(env, F, info, avail, lab, p, b, b, s.regs, i.dst, s1.regs[i.dst]);
  }

  // ----- the transfer function keeps all of it ---------------------------------------------------------------------

  lemma {:induction false} RemoveNothing(p: Partition, o: Operand)
    requires forall k :: 0 <= k < |p| ==> o !in p[k].members && p[k].members != {}
    ensures RemoveMember(p, o) == p
  {
    if p != [] {
      assert p[0].members - {o} == p[0].members;
      RemoveNothing(p[1..], o);
    }
  }

  lemma NothingToRemove(info: Info, avail: set<nat>, lab: map<nat, Expr>, p: Partition, d: nat)
    requires PartOk(info, avail, lab, p) && d !in avail
    ensures RemoveMember(p, Reg(d)) == p
  {
    forall k | 0 <= k < |p|
      ensures Reg(d) !in p[k].members && p[k].members != {}
    {
      assert ClassOk(info, avail, lab, p[k]);
    }
    RemoveNothing(p, Reg(d));
  }

  lemma KnownGrows(info: Info, avail: set<nat>, d: nat, o: Operand)
    ensures Known(info, avail + {d}, o) <==> Known(info, avail, o) || o == Reg(d)
  {}

  lemma ClassGrows(info: Info, avail: set<nat>, lab: map<nat, Expr>, c: Class, d: nat, lab': map<nat, Expr>)
    requires ClassOk(info, avail, lab, c) && forall x :: x in lab ==> x in lab' && lab'[x] == lab[x]
    ensures ClassOk(info, avail + {d}, lab', c) && ClassOk(info, avail + {d}, lab', c.(members := c.members + {Reg(d)}))
  {
    NamesGrow(avail, avail + {d}, lab, lab', c.expr);
  }

  lemma TransferIs(info: Info, avail: set<nat>, lab: map<nat, Expr>, p: Partition, i: Instr, next: nat, e: Expr)
    requires PartOk(info, avail, lab, p) && Fine(info, avail, i) && !Skipped(info, i)
             && ValueExpr(info, p, i) == Some(e)
    ensures Transfer(info, p, i, next) ==
            Some(if Matched(p, e) then AddMember(p, e, Reg(i.dst))
                 else p + [Class(next, LeaderFor(e, i.dst), e, {Reg(i.dst)})])
  {
    NothingToRemove(info, avail, lab, p, i.dst);
  }

  lemma TransferOk(info: Info, avail: set<nat>, lab: map<nat, Expr>, p: Partition, i: Instr, next: nat)
    requires PartOk(info, avail, lab, p) && LabelsInside(lab, avail) && Fine(info, avail, i) && !Skipped(info, i)
    requires Transfer(info, p, i, next).Some?
    ensures PartOk(info, avail + {i.dst}, AddLabel(info, lab, p, i), Transfer(info, p, i, next).value)
    ensures LabelsInside(AddLabel(info, lab, p, i), avail + {i.dst})
  {
    hide PartOk, ClassOk, Known, Names, Labelled, Norm, ValueExpr;
    var e, lab', d := ValueExpr(info, p, i).value, AddLabel(info, lab, p, i), i.dst;
    LabelKept(info, avail, lab, p, i);
    TransferIs(info, avail, lab, p, i, next, e);
    ValueExprOk(info, avail, lab, p, i, e);
    forall k | 0 <= k < |p|
      ensures ClassOk(info, avail + {d}, lab', p[k]) && ClassOk(info, avail + {d}, lab',
                                                                p[k].(members := p[k].members + {Reg(d)}))
    {
      PartClass(info, avail, lab, p, k, i);
      ClassGrows(info, avail, lab, p[k], d, lab');
    }
    if Matched(p, e) { JoinsClass(info, avail, lab, p, d, lab', e); }
       else { FoundsClass(info, avail, lab, p, d, lab', e, next); }
  }

  /** Exactly one class has the expression, so the register joins exactly one. */
  lemma JoinsClass(info: Info, avail: set<nat>, lab: map<nat, Expr>, p: Partition, d: nat, lab': map<nat, Expr>,
                   e: Expr)
    requires PartOk(info, avail, lab, p) && d !in avail && Matched(p, e) && Labelled(lab', e)
    requires forall k :: 0 <= k < |p| ==> ClassOk(info, avail + {d}, lab', p[k])
                                          && ClassOk(info, avail + {d}, lab', p[k].(members := p[k].members + {Reg(d)}))
    ensures PartOk(info, avail + {d}, lab', AddMember(p, e, Reg(d)))
  {
    hide Equiv, Norm, ClassOk, Known;
    var q := AddMember(p, e, Reg(d));
    forall k | 0 <= k < |p| ensures Equiv(p[k].expr, e) <==> Norm(p[k].expr) == Norm(e) {
      ClassLabelled(info, avail + {d}, lab', p[k]);
      EquivIsNorm(lab', p[k].expr, e);
    }
    forall k | 0 <= k < |p| ensures Reg(d) !in p[k].members { NotYetMember(info, avail, lab, p[k], d); }
    forall j, k | 0 <= j < k < |q| ensures Norm(q[j].expr) != Norm(q[k].expr) && q[j].members !! q[k].members {
      StillApart(p[j], p[k], d, Equiv(p[j].expr, e), Equiv(p[k].expr, e));
    }
    forall o | Known(info, avail + {d}, o) ensures Held(q, o) {
      KnownGrows(info, avail, d, o);
      StillHeld(p, e, d, o);
    }
  }

  lemma StillHeld(p: Partition, e: Expr, d: nat, o: Operand)
    requires Matched(p, e) && (o == Reg(d) || Held(p, o))
    ensures Held(AddMember(p, e, Reg(d)), o)
  {
    hide Equiv;
    var q := AddMember(p, e, Reg(d));
    var k :| 0 <= k < |p| && if o == Reg(d) then Equiv(p[k].expr, e) else o in p[k].members;
    assert o in q[k].members;
  }

  lemma NotYetMember(info: Info, avail: set<nat>, lab: map<nat, Expr>, c: Class, d: nat)
    requires ClassOk(info, avail, lab, c) && d !in avail
    ensures Reg(d) !in c.members
  {}

  lemma StillApart(a: Class, b: Class, d: nat, toA: bool, toB: bool)
    requires a.members !! b.members && Reg(d) !in a.members && Reg(d) !in b.members && !(toA && toB)
    ensures (if toA then a.members + {Reg(d)} else a.members) !! (if toB then b.members + {Reg(d)} else b.members)
  {}

  lemma ClassLabelled(info: Info, avail: set<nat>, lab: map<nat, Expr>, c: Class)
    requires ClassOk(info, avail, lab, c)
    ensures Labelled(lab, c.expr)
  {}

  lemma FoundsClass(info: Info, avail: set<nat>, lab: map<nat, Expr>, p: Partition, d: nat, lab': map<nat, Expr>,
                    e: Expr, next: nat)
    requires PartOk(info, avail, lab, p) && d !in avail && !Matched(p, e) && Labelled(lab', e)
             && Names(avail + {d}, e) && !e.PhiE?
    requires forall k :: 0 <= k < |p| ==> ClassOk(info, avail + {d}, lab', p[k])
    ensures PartOk(info, avail + {d}, lab', p + [Class(next, LeaderFor(e, d), e, {Reg(d)})])
  {
    hide Equiv, Norm, ClassOk, Known;
    var c := Class(next, LeaderFor(e, d), e, {Reg(d)});
    var q := p + [c];
    NewClassOk(info, avail, lab', d, e, next);
    forall k | 0 <= k < |p| ensures Norm(p[k].expr) != Norm(e) && Reg(d) !in p[k].members {
      ClassLabelled(info, avail + {d}, lab', p[k]);
      EquivIsNorm(lab', p[k].expr, e);
      NotYetMember(info, avail, lab, p[k], d);
    }
    forall o | Known(info, avail + {d}, o) ensures Held(q, o) {
      KnownGrows(info, avail, d, o);
      HeldWith(p, c, o);
    }
  }

  lemma NewClassOk(info: Info, avail: set<nat>, lab: map<nat, Expr>, d: nat, e: Expr, next: nat)
    requires Labelled(lab, e) && Names(avail + {d}, e) && !e.PhiE?
    ensures ClassOk(info, avail + {d}, lab, Class(next, LeaderFor(e, d), e, {Reg(d)}))
  {}

  lemma HeldWith(p: Partition, c: Class, o: Operand)
    requires Held(p, o) || o in c.members
    ensures Held(p + [c], o)
  {
    var q := p + [c];
    if o in c.members {
      assert o in q[|p|].members;
    } else {
      var k :| 0 <= k < |p| && o in p[k].members;
      assert o in q[k].members;
    }
  }

  lemma ClassFrame(env: Env, F: PureFn, info: Info, avail: set<nat>, lab: map<nat, Expr>, c: Class,
                   regs: map<nat, Value>, d: nat, v: Value)
    requires ClassOk(info, avail, lab, c) && ClassSound(env, F, regs, c) && d !in avail
    ensures ClassSound(env, F, regs[d := v], c)
  {
    EvalFrame(env, F, regs, d, v, avail, c.expr);
  }

  lemma TransferSound(env: Env, F: PureFn, info: Info, avail: set<nat>, lab: map<nat, Expr>, p: Partition, i: Instr,
                      next: nat, s: State, s1: State)
    requires PartOk(info, avail, lab, p) && Fine(info, avail, i) && !Skipped(info, i)
             && Transfer(info, p, i, next).Some?
    requires Sound(env, F, s.regs, p) && PureResults(env, info, F) && Step(env, i, s) == Some(s1)
    ensures Sound(env, F, s1.regs, Transfer(info, p, i, next).value)
  {
    hide Step, Equiv, PureResults, ClassSound, PartOk, Fine, ValueExpr;
    var e, d := ValueExpr(info, p, i).value, i.dst;
    TransferIs(info, avail, lab, p, i, next, e);
    ValueExprSound(env, F, info, avail, lab, p, i, e, s, s1);
    forall k | 0 <= k < |p| ensures ClassSound(env, F, s1.regs, p[k]) {
      PartClass(info, avail, lab, p, k, i);
      ClassFrame(env, F, info, avail, lab, p[k], s.regs, d, s1.regs[d]);
    }
    forall k | 0 <= k < |p| && Equiv(p[k].expr, e)
      ensures ClassSound(env, F, s1.regs, p[k].(members := p[k].members + {Reg(d)}))
    {
      MemberSound(env, F, s1.regs, p[k], e, d);
    }
    if !Matched(p, e) { NewClassSound(env, F, s1.regs, e, d, next); }
  }

  lemma PartClass(info: Info, avail: set<nat>, lab: map<nat, Expr>, p: Partition, k: nat, i: Instr)
    requires PartOk(info, avail, lab, p) && k < |p| && Fine(info, avail, i) && HasDst(i)
    ensures ClassOk(info, avail, lab, p[k]) && i.dst !in avail
  {}

  lemma MemberSound(env: Env, F: PureFn, regs: map<nat, Value>, c: Class, e: Expr, d: nat)
    requires ClassSound(env, F, regs, c) && CallsOk(env, F, regs, e) && d in regs
             && EvalE(env, regs, e) == Some(regs[d]) && Equiv(c.expr, e)
    ensures ClassSound(env, F, regs, c.(members := c.members + {Reg(d)}))
  {
    EquivSameValue(env, F, regs, c.expr, e);
  }

  lemma NewClassSound(env: Env, F: PureFn, regs: map<nat, Value>, e: Expr, d: nat, next: nat)
    requires CallsOk(env, F, regs, e) && d in regs && EvalE(env, regs, e) == Some(regs[d])
    ensures ClassSound(env, F, regs, Class(next, LeaderFor(e, d), e, {Reg(d)}))
  {}
}

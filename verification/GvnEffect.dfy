/** What value numbering achieves: uses of constants become constants, and uses of equal computations
    become uses of one of them. */
module GvnEffect {
  import opened IR
  import opened GvnExpr
  import opened GvnTransfer
  import opened Gvn

  // ----- where a value is ---------------------------------------------------------------------------------------

  /** A class with expression `e` holds `o`. */
  ghost predicate Within(p: Partition, o: Operand, e: Expr) {
    exists k :: 0 <= k < |p| && o in p[k].members && p[k].expr == e
  }

  lemma WithinExpr(info: Info, avail: set<nat>, lab: map<nat, Expr>, p: Partition, o: Operand, e: Expr, other: Operand)
    requires PartOk(info, avail, lab, p) && Within(p, o, e)
    ensures Known(info, avail, o) && OperandExpr(p, o, other) == e && Holding(p, o) == [e]
  {
    hide ClassOk, Norm;
    var k :| 0 <= k < |p| && o in p[k].members && p[k].expr == e;
    MemberKnown(info, avail, lab, p[k], o);
    HoldingOperand(info, avail, lab, p, o, other);
    FindLastIs(p, o);
    var j :| 0 <= j < |p| && o in p[j].members && FindLast(p, o).value == p[j].expr;
    assert j == k;
  }

  lemma MemberKnown(info: Info, avail: set<nat>, lab: map<nat, Expr>, c: Class, o: Operand)
    requires ClassOk(info, avail, lab, c) && o in c.members
    ensures Known(info, avail, o) && !IsConst(o)
  {}

  /** What is available is in some class. */
  lemma KnownWithin(info: Info, avail: set<nat>, lab: map<nat, Expr>, p: Partition, o: Operand) returns (e: Expr)
    requires PartOk(info, avail, lab, p) && Known(info, avail, o)
    ensures Within(p, o, e)
  {
    hide ClassOk, Norm;
    assert Held(p, o);
    var k :| 0 <= k < |p| && o in p[k].members;
    e := p[k].expr;
  }

  lemma WithinStays(info: Info, avail: set<nat>, lab: map<nat, Expr>, p: Partition, i: Instr, o: Operand, e: Expr)
    requires PartOk(info, avail, lab, p) && Fine(info, avail, i) && !Skipped(info, i)
             && Transfer(info, p, i, 0).Some? && Within(p, o, e)
    ensures Within(Transfer(info, p, i, 0).value, o, e)
  {
    hide PartOk, Fine, Equiv, ValueExpr;
    TransferIs(info, avail, lab, p, i, 0, ValueExpr(info, p, i).value);
    var k :| 0 <= k < |p| && o in p[k].members && p[k].expr == e;
    var q := Transfer(info, p, i, 0).value;
    assert o in q[k].members && q[k].expr == e;
  }

  // ----- value expressions do not change ------------------------------------------------------------------------

  /** Both partitions have the operand in classes with one expression. */
  ghost predicate SameClass(p: Partition, q: Partition, o: Operand, o': Operand) {
    (o == o' && IsConst(o)) || exists e :: Within(p, o, e) && Within(q, o', e)
  }

  lemma SameOperand(info: Info, avail: set<nat>, lab: map<nat, Expr>, p: Partition, avail': set<nat>,
                    lab': map<nat, Expr>, q: Partition, o: Operand, o': Operand, x: Operand, x': Operand)
    requires PartOk(info, avail, lab, p) && PartOk(info, avail', lab', q) && SameClass(p, q, o, o')
    ensures OperandExpr(p, o, x) == OperandExpr(q, o', x')
    ensures Collect(p, [o]) == Collect(q, [o'])
  {
    hide PartOk, Within;
    assert [o][1..] == [] && [o'][1..] == [];
    if !(o == o' && IsConst(o)) {
      var e :| Within(p, o, e) && Within(q, o', e);
      WithinExpr(info, avail, lab, p, o, e, x);
      WithinExpr(info, avail', lab', q, o', e, x');
    }
  }

  lemma CollectFirst(p: Partition, os: seq<Operand>)
    requires os != []
    ensures Collect(p, os) == Collect(p, [os[0]]) + Collect(p, os[1..])
  {
    var one := if IsConst(os[0]) then [ConstE(ConstVal(os[0]), false)] else Holding(p, os[0]);
    assert [os[0]][1..] == [] && one + [] == one;
  }

  lemma {:induction false} SameCollect(info: Info, avail: set<nat>, lab: map<nat, Expr>, p: Partition, avail': set<nat>,
                                       lab': map<nat, Expr>, q: Partition, os: seq<Operand>, os': seq<Operand>)
    requires PartOk(info, avail, lab, p) && PartOk(info, avail', lab', q) && |os| == |os'|
    requires forall n :: 0 <= n < |os| ==> SameClass(p, q, os[n], os'[n])
    ensures Collect(p, os) == Collect(q, os')
    decreases os
  {
    hide PartOk, SameClass;
    if os != [] {
      SameOperand(info, avail, lab, p, avail', lab', q, os[0], os'[0], os[0], os'[0]);
      CollectFirst(p, os);
      CollectFirst(q, os');
      SameCollect(info, avail, lab, p, avail', lab', q, os[1..], os'[1..]);
    }
  }

  /** The same operation; calls only of one pure function. */
  predicate SameOperation(info: Info, i: Instr, j: Instr) {
    match (i, j)
    case (Bin(_, op, _, _), Bin(_, op', _, _)) => op == op'
    case (Cmp(_, op, _, _), Cmp(_, op', _, _)) => op == op'
    case (Conv(_, op, _), Conv(_, op', _)) => op == op'
    case (Gep(_, _, _), Gep(_, _, _)) => true
    case (Call(_, f, _), Call(_, f', _)) => f == f' && f in info.pure
    case _ => false
  }

  lemma SameValueExpr(info: Info, avail: set<nat>, lab: map<nat, Expr>, p: Partition, avail': set<nat>,
                      lab': map<nat, Expr>, q: Partition, i: Instr, j: Instr)
    requires PartOk(info, avail, lab, p) && PartOk(info, avail', lab', q) && HasDst(i) && HasDst(j)
    requires (i == j || SameOperation(info, i, j)) && |Operands(i)| == |Operands(j)|
    requires forall n :: 0 <= n < |Operands(i)| ==> SameClass(p, q, Operands(i)[n], Operands(j)[n])
    ensures ValueExpr(info, p, i).Some? <==> ValueExpr(info, q, j).Some?
    ensures ValueExpr(info, p, i).Some? ==> Norm(ValueExpr(info, p, i).value) == Norm(ValueExpr(info, q, j).value)
    ensures i == j ==> ValueExpr(info, p, i) == ValueExpr(info, q, j)
  {
    hide PartOk, SameClass, OperandExpr, Collect, Norm, ValueExpr;
    SameCollect(info, avail, lab, p, avail', lab', q, Operands(i), Operands(j));
    if i.Bin? || i.Cmp? {
      assert SameClass(p, q, Operands(i)[0], Operands(j)[0]) && SameClass(p, q, Operands(i)[1], Operands(j)[1]);
      SameOperand(info, avail, lab, p, avail', lab', q, i.l, j.l, i.l, j.l);
      SameOperand(info, avail, lab, p, avail', lab', q, i.r, j.r, i.r, j.r);
      SameBinary(info, p, q, i, j);
    } else if i.Conv? {
      assert SameClass(p, q, Operands(i)[0], Operands(j)[0]);
      SameOperand(info, avail, lab, p, avail', lab', q, i.v, j.v, Reg(i.dst), Reg(j.dst));
      SameConv(info, p, q, i, j);
    } else if i.Call? || i.Gep? {
      SameList(info, p, q, i, j);
    } else {
      SingleExpr(info, p, q, i);
    }
  }

  lemma SameBinary(info: Info, p: Partition, q: Partition, i: Instr, j: Instr)
    requires (i.Bin? || i.Cmp?) && (i == j || SameOperation(info, i, j))
    requires OperandExpr(p, i.l, i.l) == OperandExpr(q, j.l, j.l)
    requires OperandExpr(p, i.r, i.r) == OperandExpr(q, j.r, j.r)
    ensures ValueExpr(info, p, i) == ValueExpr(info, q, j)
  {
    hide OperandExpr;
  }

  lemma SameConv(info: Info, p: Partition, q: Partition, i: Instr, j: Instr)
    requires i.Conv? && (i == j || SameOperation(info, i, j))
    requires OperandExpr(p, i.v, Reg(i.dst)) == OperandExpr(q, j.v, Reg(j.dst))
    ensures ValueExpr(info, p, i) == ValueExpr(info, q, j)
  {
    hide OperandExpr;
  }

  lemma SameList(info: Info, p: Partition, q: Partition, i: Instr, j: Instr)
    requires (i.Call? || i.Gep?) && (i == j || SameOperation(info, i, j))
    requires Collect(p, Operands(i)) == Collect(q, Operands(j))
    ensures ValueExpr(info, p, i).Some? && ValueExpr(info, q, j).Some?
    ensures Norm(ValueExpr(info, p, i).value) == Norm(ValueExpr(info, q, j).value)
    ensures i == j ==> ValueExpr(info, p, i) == ValueExpr(info, q, j)
  {
    hide Collect;
  }

  lemma SingleExpr(info: Info, p: Partition, q: Partition, i: Instr)
    requires HasDst(i) && !i.Bin? && !i.Cmp? && !i.Conv? && !i.Call? && !i.Gep?
    ensures ValueExpr(info, p, i) == ValueExpr(info, q, i) && ValueExpr(info, p, i).Some?
  {}

  // ----- every computation is in its class -----------------------------------------------------------------------

  /** The register of `i` is in the class of what `i` computes. */
  ghost predicate Settled(info: Info, p: Partition, i: Instr)
    requires HasDst(i)
  {
    && ValueExpr(info, p, i).Some?
    && exists e :: Within(p, Reg(i.dst), e) && Norm(e) == Norm(ValueExpr(info, p, i).value)
  }

  predicate Inside(info: Info, avail: set<nat>, i: Instr) {
    HasDst(i) && i.dst in avail && forall o :: o in Operands(i) ==> IsConst(o) || Known(info, avail, o)
  }

  ghost predicate AllSettled(info: Info, avail: set<nat>, p: Partition, done: set<Instr>) {
    forall i :: i in done ==> Inside(info, avail, i) && Settled(info, p, i)
  }

  lemma SettledStays(info: Info, avail: set<nat>, lab: map<nat, Expr>, p: Partition, i: Instr, j: Instr)
    requires PartOk(info, avail, lab, p) && LabelsInside(lab, avail) && Fine(info, avail, i) && !Skipped(info, i)
             && Transfer(info, p, i, 0).Some?
    requires Inside(info, avail, j) && Settled(info, p, j)
    ensures Settled(info, Transfer(info, p, i, 0).value, j) && Inside(info, avail + {i.dst}, j)
  {
    hide PartOk, LabelsInside, Fine, Transfer, Within, ValueExpr;
    var q := Transfer(info, p, i, 0).value;
    TransferOk(info, avail, lab, p, i, 0);
    var e :| Within(p, Reg(j.dst), e) && Norm(e) == Norm(ValueExpr(info, p, j).value);
    WithinStays(info, avail, lab, p, i, Reg(j.dst), e);
    OperandsStay(info, avail, lab, p, i, j);
    SameValueExpr(info, avail, lab, p, avail + {i.dst}, AddLabel(info, lab, p, i), q, j, j);
  }

  lemma OperandsStay(info: Info, avail: set<nat>, lab: map<nat, Expr>, p: Partition, i: Instr, j: Instr)
    requires PartOk(info, avail, lab, p) && Fine(info, avail, i) && !Skipped(info, i) && Transfer(info, p, i, 0).Some?
    requires forall o :: o in Operands(j) ==> IsConst(o) || Known(info, avail, o)
    ensures forall n :: 0 <= n < |Operands(j)| ==>
              SameClass(p, Transfer(info, p, i, 0).value, Operands(j)[n], Operands(j)[n])
  {
    hide PartOk, Fine, Transfer, Within, Skipped;
    forall n | 0 <= n < |Operands(j)|
      ensures SameClass(p, Transfer(info, p, i, 0).value, Operands(j)[n], Operands(j)[n])
    {
      var o := Operands(j)[n];
      if !IsConst(o) {
        var e := KnownWithin(info, avail, lab, p, o);
        WithinStays(info, avail, lab, p, i, o, e);
      }
    }
  }

  lemma SettledNow(info: Info, avail: set<nat>, lab: map<nat, Expr>, p: Partition, i: Instr)
    requires PartOk(info, avail, lab, p) && LabelsInside(lab, avail) && Fine(info, avail, i) && !Skipped(info, i)
             && Transfer(info, p, i, 0).Some?
    ensures Settled(info, Transfer(info, p, i, 0).value, i) && Inside(info, avail + {i.dst}, i)
  {
    hide PartOk, LabelsInside, Fine, ValueExpr, Transfer, Norm, Within, Inside;
    InsideNow(info, avail, i);
    TransferHasExpr(info, p, i);
    ExprKept(info, avail, lab, p, i);
    var e := JoinedClass(info, avail, lab, p, i);
  }

  lemma InsideNow(info: Info, avail: set<nat>, i: Instr)
    requires Fine(info, avail, i) && HasDst(i)
    ensures Inside(info, avail + {i.dst}, i)
  {}

  /** The instruction computes the same expression before and after it has been dealt with. */
  lemma ExprKept(info: Info, avail: set<nat>, lab: map<nat, Expr>, p: Partition, i: Instr)
    requires PartOk(info, avail, lab, p) && LabelsInside(lab, avail) && Fine(info, avail, i) && !Skipped(info, i)
             && Transfer(info, p, i, 0).Some?
    ensures ValueExpr(info, Transfer(info, p, i, 0).value, i) == ValueExpr(info, p, i)
  {
    assert forall o :: o in Operands(i) ==> IsConst(o) || Known(info, avail, o);
    hide PartOk, LabelsInside, Fine, ValueExpr, Transfer, Norm, SameClass, Known, IsConst;
    TransferOk(info, avail, lab, p, i, 0);
    OperandsStay(info, avail, lab, p, i, i);
    SameValueExpr(info, avail, lab, p, avail + {i.dst}, AddLabel(info, lab, p, i), Transfer(info, p, i, 0).value, i, i);
  }

  lemma TransferHasExpr(info: Info, p: Partition, i: Instr)
    requires !Skipped(info, i) && Transfer(info, p, i, 0).Some?
    ensures ValueExpr(info, p, i).Some?
  {}

  /** The class that the register of the instruction joins, or founds. */
  lemma JoinedClass(info: Info, avail: set<nat>, lab: map<nat, Expr>, p: Partition, i: Instr) returns (e: Expr)
    requires PartOk(info, avail, lab, p) && LabelsInside(lab, avail) && Fine(info, avail, i) && !Skipped(info, i)
             && ValueExpr(info, p, i).Some? && Transfer(info, p, i, 0).Some?
    ensures Within(Transfer(info, p, i, 0).value, Reg(i.dst), e) && Norm(e) == Norm(ValueExpr(info, p, i).value)
  {
    hide PartOk, LabelsInside, Fine, ValueExpr, Equiv, Norm, Transfer;
    e := ValueExpr(info, p, i).value;
    TransferIs(info, avail, lab, p, i, 0, e);
    var q := Transfer(info, p, i, 0).value;
    if Matched(p, e) {
      var k :| 0 <= k < |p| && Equiv(p[k].expr, e);
      JoinedNorm(info, avail, lab, p, i, k);
      assert Reg(i.dst) in q[k].members && q[k].expr == p[k].expr;
      e := p[k].expr;
    } else {
      assert Reg(i.dst) in q[|p|].members && q[|p|].expr == e;
    }
  }

  lemma JoinedNorm(info: Info, avail: set<nat>, lab: map<nat, Expr>, p: Partition, i: Instr, k: nat)
    requires PartOk(info, avail, lab, p) && LabelsInside(lab, avail) && Fine(info, avail, i) && HasDst(i) && k < |p|
    requires ValueExpr(info, p, i).Some? && Equiv(p[k].expr, ValueExpr(info, p, i).value)
    ensures Norm(p[k].expr) == Norm(ValueExpr(info, p, i).value)
  {
    hide LabelsInside, Fine, ValueExpr, Equiv, Norm, ClassOk;
    var e, lab' := ValueExpr(info, p, i).value, AddLabel(info, lab, p, i);
    LabelKept(info, avail, lab, p, i);
    ValueExprOk(info, avail, lab, p, i, e);
    PartClass(info, avail, lab, p, k, i);
    ClassGrows(info, avail, lab, p[k], i.dst, lab');
    ClassLabelled(info, avail + {i.dst}, lab', p[k]);
    EquivIsNorm(lab', p[k].expr, e);
  }

  /** No other register is in a class. */
  ghost predicate OnlyDone(p: Partition, done: set<Instr>) {
    forall k, r :: 0 <= k < |p| && Reg(r) in p[k].members ==> exists i :: i in done && HasDst(i) && i.dst == r
  }

  lemma OnlyDoneStays(info: Info, avail: set<nat>, lab: map<nat, Expr>, p: Partition, i: Instr, done: set<Instr>)
    requires PartOk(info, avail, lab, p) && Fine(info, avail, i) && !Skipped(info, i)
             && Transfer(info, p, i, 0).Some? && OnlyDone(p, done)
    ensures OnlyDone(Transfer(info, p, i, 0).value, done + {i})
  {
    hide PartOk, Fine, Equiv, ValueExpr;
    var q := Transfer(info, p, i, 0).value;
    TransferIs(info, avail, lab, p, i, 0, ValueExpr(info, p, i).value);
    forall k, r | 0 <= k < |q| && Reg(r) in q[k].members
      ensures exists j :: j in done + {i} && HasDst(j) && j.dst == r
    {
      if r == i.dst {
        assert i in done + {i};
      } else {
        assert k < |p| && Reg(r) in p[k].members;
        var j :| j in done && HasDst(j) && j.dst == r;
        assert j in done + {i};
      }
    }
  }

  // ----- leaders ---------------------------------------------------------------------------------------------------

  predicate IsValue(o: Operand, v: Value) {
    match v case Int(n) => o == ConstInt(n) case Flt(x) => o == ConstFp(x) case _ => false
  }

  /** A class of a constant is led by the constant, and any other by one of its members. */
  predicate LeaderFits(c: Class) {
    if c.expr.ConstE? then IsValue(c.leader, c.expr.v) else c.leader in c.members
  }

  ghost predicate LeadersFit(p: Partition) {
    forall k :: 0 <= k < |p| ==> LeaderFits(p[k])
  }

  lemma FoldedIsNumber(info: Info, p: Partition, i: Instr)
    requires HasDst(i) && ValueExpr(info, p, i).Some? && ValueExpr(info, p, i).value.ConstE?
             && (i.Bin? || i.Cmp? || i.Conv?)
    ensures ValueExpr(info, p, i).value.v.Int? || ValueExpr(info, p, i).value.v.Flt?
  {}

  lemma LeadersStay(info: Info, avail: set<nat>, lab: map<nat, Expr>, p: Partition, i: Instr)
    requires PartOk(info, avail, lab, p) && Fine(info, avail, i) && !Skipped(info, i)
             && Transfer(info, p, i, 0).Some? && LeadersFit(p)
    ensures LeadersFit(Transfer(info, p, i, 0).value)
  {
    hide PartOk, Fine, Equiv, ValueExpr;
    var q, e := Transfer(info, p, i, 0).value, ValueExpr(info, p, i).value;
    TransferIs(info, avail, lab, p, i, 0, e);
    if e.ConstE? {
      assert i.Bin? || i.Cmp? || i.Conv? by { ConstOnly(info, p, i); }
      FoldedIsNumber(info, p, i);
    }
    forall k | 0 <= k < |q|
      ensures LeaderFits(q[k])
    {
      if k < |p| { assert LeaderFits(p[k]); }
    }
  }

  /** A class of a constant is led by it, whatever else the partition is like. */
  ghost predicate ConstLeaders(p: Partition) {
    forall k :: 0 <= k < |p| && p[k].expr.ConstE? ==> IsValue(p[k].leader, p[k].expr.v)
  }

  lemma {:induction false} RemovedConst(p: Partition, o: Operand)
    requires ConstLeaders(p)
    ensures ConstLeaders(RemoveMember(p, o))
  {
    if p != [] {
      assert p[0].expr.ConstE? ==> IsValue(p[0].leader, p[0].expr.v);
      forall k | 0 <= k < |p[1..]| ensures p[1..][k] == p[k + 1] {}
      RemovedConst(p[1..], o);
    }
  }

  lemma ConstLeadersStay(info: Info, p: Partition, i: Instr)
    requires ConstLeaders(p) && Transfer(info, p, i, 0).Some?
    ensures ConstLeaders(Transfer(info, p, i, 0).value)
  {
    hide ValueExpr, Equiv;
    if !Skipped(info, i) {
      RemovedConst(p, Reg(i.dst));
      if ValueExpr(info, p, i).value.ConstE? {
        ConstOnly(info, p, i);
        FoldedIsNumber(info, p, i);
      }
    }
  }

  lemma ConstOnly(info: Info, p: Partition, i: Instr)
    requires HasDst(i) && ValueExpr(info, p, i).Some? && ValueExpr(info, p, i).value.ConstE?
    ensures i.Bin? || i.Cmp? || i.Conv?
  {}

  // ----- blocks and functions ------------------------------------------------------------------------------------

  /** What the pass knows at this point. */
  ghost predicate Knows(info: Info, avail: set<nat>, p: Partition, done: set<Instr>) {
    && LeadersFit(p) && AllSettled(info, avail, p, done) && OnlyDone(p, done)
    && exists lab :: PartOk(info, avail, lab, p) && LabelsInside(lab, avail)
  }

  function NumberedIn(info: Info, body: seq<Instr>): set<Instr> {
    set i | i in body && HasDst(i) && !(i.Call? && i.fn in info.voids)
  }

  lemma {:induction false} BodySettles(info: Info, avail: set<nat>, p: Partition, body: seq<Instr>, done: set<Instr>)
    requires Knows(info, avail, p, done) && BodyFine(info, avail, body) && TransferAll(info, p, body).Some?
    ensures Knows(info, avail + NumberedDefs(info, body), TransferAll(info, p, body).value,
                   done + NumberedIn(info, body))
    decreases body
  {
    hide Knows, Transfer, Fine;
    if body == [] {
      assert avail + NumberedDefs(info, body) == avail && done + NumberedIn(info, body) == done;
    } else {
      var i := body[0];
      var more := if Skipped(info, i) then {} else {i};
      if Skipped(info, i) {
        TransferSkipped(info, p, i);
        assert avail + Numbered(info, i) == avail && done + more == done;
      } else {
        StepSettles(info, avail, p, i, done);
      }
      var q := Transfer(info, p, i, 0).value;
      BodySettles(info, avail + Numbered(info, i), q, body[1..], done + more);
      assert avail + Numbered(info, i) + NumberedDefs(info, body[1..]) == avail + NumberedDefs(info, body);
      assert done + more + NumberedIn(info, body[1..]) == done + NumberedIn(info, body);
    }
  }

  lemma StepSettles(info: Info, avail: set<nat>, p: Partition, i: Instr, done: set<Instr>)
    requires Knows(info, avail, p, done) && Fine(info, avail, i) && !Skipped(info, i) && Transfer(info, p, i, 0).Some?
    ensures Knows(info, avail + {i.dst}, Transfer(info, p, i, 0).value, done + {i})
  {
    hide PartOk, LabelsInside, Fine, Transfer, Settled, LeadersFit;
    var lab :| PartOk(info, avail, lab, p) && LabelsInside(lab, avail);
    TransferOk(info, avail, lab, p, i, 0);
    LeadersStay(info, avail, lab, p, i);
    SettledNow(info, avail, lab, p, i);
    OnlyDoneStays(info, avail, lab, p, i, done);
    forall j | j in done
      ensures Inside(info, avail + {i.dst}, j) && Settled(info, Transfer(info, p, i, 0).value, j)
    {
      InsideHasDst(info, avail, j);
      SettledStays(info, avail, lab, p, i, j);
    }
  }

  lemma InsideHasDst(info: Info, avail: set<nat>, j: Instr)
    requires Inside(info, avail, j)
    ensures HasDst(j)
  {}

  /** The numbered instructions of a block and of those before it on the way from the entry. */
  ghost function Computed(info: Info, f: seq<Block>, parent: seq<nat>, b: nat): set<Instr>
    requires Tree(f, parent) && b < |f|
    decreases b
  {
    (if b == 0 then {} else Computed(info, f, parent, parent[b])) + NumberedIn(info, f[b].body)
  }

  lemma {:induction false} OutKnown(info: Info, f: seq<Block>, parent: seq<nat>, b: nat)
    requires JoinFree(info, f, parent) && Folds(info, f, parent) && b < |f|
    ensures Knows(info, AvailIn(info, f, parent, b) + NumberedDefs(info, f[b].body), Out(info, f, parent, b).value,
                   Computed(info, f, parent, b))
    decreases b
  {
    hide Knows, TransferAll, Initial;
    assert BlockOk(info, f, parent, b) && Out(info, f, parent, b).Some?;
    if b == 0 {
      InitialKnown(info);
      BodySettles(info, {}, Initial(info), f[b].body, {});
    } else {
      var a := parent[b];
      OutKnown(info, f, parent, a);
      BodySettles(info, AvailIn(info, f, parent, b), Out(info, f, parent, a).value, f[b].body,
                  Computed(info, f, parent, a));
    }
  }

  lemma InitialKnown(info: Info)
    ensures Knows(info, {}, Initial(info), {})
  {
    hide PartOk, Sound;
    var env := Env(seq(info.nArgs, k => Int(0)), 0, (f: nat, vs: seq<Value>, w: World) => None);
    InitialOk(env, (f: nat, vs: seq<Value>) => Int(0), info, map[]);
    forall k | 0 <= k < |Initial(info)| ensures LeaderFits(Initial(info)[k]) {
      InitialFits(info, k);
    }
  }

  lemma InitialFits(info: Info, k: nat)
    requires k < |Initial(info)|
    ensures LeaderFits(Initial(info)[k])
  {
    assert Initial(info)[k] == InitialClass(info, k);
  }

  // ----- what operands become -------------------------------------------------------------------------------------

  /** A member becomes its leader, in one step. */
  lemma {:induction false} ReplaceIs(p: Partition, o: Operand)
    requires LeadersFit(p) && forall j, k :: 0 <= j < k < |p| ==> p[j].members !! p[k].members
    requires forall k, m :: 0 <= k < |p| && m in p[k].members ==> !IsConst(m)
    ensures forall k :: 0 <= k < |p| && o in p[k].members ==> ReplaceOp(p, o) == p[k].leader
    ensures (forall k :: 0 <= k < |p| ==> o !in p[k].members) ==> ReplaceOp(p, o) == o
    decreases p
  {
    hide LeaderFits;
    if p != [] {
      var q := p[1..];
      forall k | 0 <= k < |q| ensures q[k] == p[k + 1] {}
      ReplaceIs(q, o);
      if o in p[0].members {
        LeaderOutside(p);
        ReplaceIs(q, p[0].leader);
        forall k | 0 < k < |p| ensures o !in p[k].members {}
      }
    }
  }

  lemma LeaderOutside(p: Partition)
    requires p != [] && LeadersFit(p) && forall j, k :: 0 <= j < k < |p| ==> p[j].members !! p[k].members
    requires forall k, m :: 0 <= k < |p| && m in p[k].members ==> !IsConst(m)
    ensures forall k :: 0 < k < |p| ==> p[0].leader !in p[k].members
  {
    var l := p[0].leader;
    assert LeaderFits(p[0]);
    assert IsConst(l) || l in p[0].members;
    forall k | 0 < k < |p|
      ensures l !in p[k].members
    {
      assert p[0].members !! p[k].members;
      assert forall m :: m in p[k].members ==> !IsConst(m);
    }
  }

  /** In every block each operand becomes the leader of the class that the stored partition has it in, and
      operands in no class stay. */
  lemma OperandsLed(info: Info, f: seq<Block>, parent: seq<nat>, b: nat, o: Operand)
    requires JoinFree(info, f, parent) && Folds(info, f, parent) && b < |f|
    ensures var p := Out(info, f, parent, b).value;
            && (forall k :: 0 <= k < |p| && o in p[k].members ==> Replaced(p)(o) == p[k].leader)
            && ((forall k :: 0 <= k < |p| ==> o !in p[k].members) ==> Replaced(p)(o) == o)
  {
    hide AllSettled, LeadersFit, ClassOk, Norm, Labelled;
    var p := Out(info, f, parent, b).value;
    var avail := AvailIn(info, f, parent, b) + NumberedDefs(info, f[b].body);
    OutKnown(info, f, parent, b);
    var lab :| PartOk(info, avail, lab, p) && LabelsInside(lab, avail);
    NoConstMembers(info, avail, lab, p);
    ReplaceIs(p, o);
  }

  /** In every stored partition a class of a constant is led by the constant. */
  lemma ConstantsLead(info: Info, f: seq<Block>, parent: seq<nat>, b: nat, k: nat)
    requires JoinFree(info, f, parent) && Folds(info, f, parent) && b < |f| && k < |Out(info, f, parent, b).value|
    ensures var c := Out(info, f, parent, b).value[k];
            && (c.expr.ConstE? ==> c.expr.v.Int? || c.expr.v.Flt?)
            && (c.expr.ConstE? && c.expr.v.Int? ==> c.leader == ConstInt(c.expr.v.n))
            && (c.expr.ConstE? && c.expr.v.Flt? ==> c.leader == ConstFp(c.expr.v.x))
            && (!c.expr.ConstE? ==> c.leader in c.members)
  {
    hide AllSettled;
    OutKnown(info, f, parent, b);
    assert LeaderFits(Out(info, f, parent, b).value[k]);
  }

  /** The registers in the classes of the stored partition are those of the numbered instructions: none that a
      call of a void function sets. */
  lemma ClassesHold(info: Info, f: seq<Block>, parent: seq<nat>, b: nat, k: nat, r: nat)
    requires JoinFree(info, f, parent) && Folds(info, f, parent) && b < |f| && k < |Out(info, f, parent, b).value|
    requires Reg(r) in Out(info, f, parent, b).value[k].members
    ensures exists i :: i in Computed(info, f, parent, b) && HasDst(i) && i.dst == r
                        && !(i.Call? && i.fn in info.voids)
  {
    hide AllSettled, LeadersFit, BodyFine;
    OutKnown(info, f, parent, b);
    var i :| i in Computed(info, f, parent, b) && HasDst(i) && i.dst == r;
    ComputedAre(info, f, parent, b, i);
  }

  lemma {:induction false} ComputedAre(info: Info, f: seq<Block>, parent: seq<nat>, b: nat, i: Instr)
    requires Tree(f, parent) && b < |f| && i in Computed(info, f, parent, b)
    ensures HasDst(i) && !(i.Call? && i.fn in info.voids)
    decreases b
  {
    if b > 0 && i in Computed(info, f, parent, parent[b]) { ComputedAre(info, f, parent, parent[b], i); }
  }

  // ----- uses of constants, and of what has been computed before ---------------------------------------------------

  /** What an instruction on constants computes. */
  function ConstSem(i: Instr): Option<Value> {
    match i
    case Bin(_, op, l, r) => if IsConst(l) && IsConst(r) then BinSem(op, ConstVal(l), ConstVal(r)) else None
    case Cmp(_, op, l, r) => if IsConst(l) && IsConst(r) then CmpSem(op, ConstVal(l), ConstVal(r)) else None
    case Conv(_, op, v) => if IsConst(v) then ConvSem(op, ConstVal(v)) else None
    case _ => None
  }

  lemma ConstExpr(info: Info, p: Partition, i: Instr)
    requires ConstSem(i).Some? && HasDst(i)
    ensures ValueExpr(info, p, i).Some? && ValueExpr(info, p, i).value.ConstE?
            && ValueExpr(info, p, i).value.v == ConstSem(i).value
  {}

  lemma NormOfConst(e: Expr, c: Expr)
    requires c.ConstE? && Norm(e) == Norm(c)
    ensures e == c
  {}

  /** The class that holds the register of a computation. */
  lemma ClassOf(info: Info, f: seq<Block>, parent: seq<nat>, b: nat, i: Instr) returns (k: nat)
    requires JoinFree(info, f, parent) && Folds(info, f, parent) && b < |f| && i in Computed(info, f, parent, b)
    ensures HasDst(i) && ValueExpr(info, Out(info, f, parent, b).value, i).Some?
    ensures var p := Out(info, f, parent, b).value;
            k < |p| && Reg(i.dst) in p[k].members && Norm(p[k].expr) == Norm(ValueExpr(info, p, i).value)
  {
    hide LeadersFit, PartOk;
    OutKnown(info, f, parent, b);
    var p := Out(info, f, parent, b).value;
    var e :| Within(p, Reg(i.dst), e) && Norm(e) == Norm(ValueExpr(info, p, i).value);
    k :| k < |p| && Reg(i.dst) in p[k].members && p[k].expr == e;
  }

  lemma Disjoint(info: Info, f: seq<Block>, parent: seq<nat>, b: nat)
    requires JoinFree(info, f, parent) && Folds(info, f, parent) && b < |f|
    ensures var p := Out(info, f, parent, b).value;
            && (forall j, k :: 0 <= j < k < |p| ==> Norm(p[j].expr) != Norm(p[k].expr) && p[j].members !! p[k].members)
            && (forall k, o :: 0 <= k < |p| && o in p[k].members ==> !IsConst(o))
  {
    hide AllSettled, LeadersFit, Norm, ClassOk;
    OutKnown(info, f, parent, b);
    var p, avail := Out(info, f, parent, b).value, AvailIn(info, f, parent, b) + NumberedDefs(info, f[b].body);
    var lab :| PartOk(info, avail, lab, p) && LabelsInside(lab, avail);
    NoConstMembers(info, avail, lab, p);
  }

  /** The register of an instruction on constants becomes its value, and nothing else becomes the register. */
  lemma ConstantBecomes(info: Info, f: seq<Block>, parent: seq<nat>, b: nat, i: Instr, o: Operand)
    requires JoinFree(info, f, parent) && Folds(info, f, parent) && b < |f| && i in Computed(info, f, parent, b)
    requires ConstSem(i).Some?
    ensures HasDst(i) && IsValue(Replaced(Out(info, f, parent, b).value)(Reg(i.dst)), ConstSem(i).value)
    ensures Replaced(Out(info, f, parent, b).value)(o) != Reg(i.dst)
  {
    hide Norm, ValueExpr, Computed, Replaced;
    var p := Out(info, f, parent, b).value;
    var k := ClassOf(info, f, parent, b, i);
    ConstExpr(info, p, i);
    NormOfConst(p[k].expr, ValueExpr(info, p, i).value);
    ConstantsLead(info, f, parent, b, k);
    OperandsLed(info, f, parent, b, Reg(i.dst));
    OperandsLed(info, f, parent, b, o);
    Disjoint(info, f, parent, b);
    if n: nat :| n < |p| && o in p[n].members {
      ConstantsLead(info, f, parent, b, n);
      if n < k { assert p[n].members !! p[k].members; } else if k < n { assert p[k].members !! p[n].members; }
    }
  }

  lemma {:induction false} MapAllAt(h: Operand -> Operand, os: seq<Operand>)
    ensures |MapAll(h, os)| == |os| && forall n :: 0 <= n < |os| ==> MapAll(h, os)[n] == h(os[n])
  {
    if os != [] { MapAllAt(h, os[1..]); }
  }

  lemma {:induction false} MapBodyAt(h: Operand -> Operand, body: seq<Instr>)
    ensures |MapBody(h, body)| == |body| && forall n :: 0 <= n < |body| ==> MapBody(h, body)[n] == MapOps(h, body[n])
  {
    if body != [] { MapBodyAt(h, body[1..]); }
  }

  /** Instruction `k` of block `b` before and after. */
  lemma OperandsMapped(info: Info, f: seq<Block>, parent: seq<nat>, b: nat, k: nat)
    requires Tree(f, parent) && Folds(info, f, parent) && b < |f| && k < |f[b].body|
    ensures |After(info, f, parent)[b].body| == |f[b].body|
    ensures var h := Replaced(Out(info, f, parent, b).value);
            var os, os' := Operands(f[b].body[k]), Operands(After(info, f, parent)[b].body[k]);
            |os'| == |os| && forall n :: 0 <= n < |os| ==> os'[n] == h(os[n])
  {
    hide Out;
    assert Out(info, f, parent, b).Some?;
    var h := Replaced(Out(info, f, parent, b).value);
    MapBodyAt(h, f[b].body);
    MapOperands(h, f[b].body[k]);
    MapAllAt(h, Operands(f[b].body[k]));
  }

  /** Constants are propagated: in the result no instruction of the block, or of one that follows it, reads the
      register of an instruction on constants; where one did, the constant stands. */
  lemma ConstantsPropagate(info: Info, f: seq<Block>, parent: seq<nat>, b: nat, i: Instr, k: nat, n: nat)
    requires JoinFree(info, f, parent) && Folds(info, f, parent) && b < |f| && i in Computed(info, f, parent, b)
    requires ConstSem(i).Some? && k < |f[b].body| && n < |Operands(f[b].body[k])|
    ensures HasDst(i) && k < |After(info, f, parent)[b].body|
            && n < |Operands(After(info, f, parent)[b].body[k])|
    ensures var o, o' := Operands(f[b].body[k])[n], Operands(After(info, f, parent)[b].body[k])[n];
            o' != Reg(i.dst) && (o == Reg(i.dst) ==> IsValue(o', ConstSem(i).value))
  {
    hide Computed, After, Replaced;
    OperandsMapped(info, f, parent, b, k);
    ConstantBecomes(info, f, parent, b, i, Operands(f[b].body[k])[n]);
  }

  ghost predicate ConstantGone(f: seq<Block>, blocks: seq<Block>, b: nat, i: Instr, k: nat, n: nat) {
    ConstSem(i).Some? && HasDst(i) && b < |f| == |blocks| && k < |f[b].body| == |blocks[b].body|
    && n < |Operands(f[b].body[k])| == |Operands(blocks[b].body[k])|
    && Operands(blocks[b].body[k])[n] != Reg(i.dst)
    && (Operands(f[b].body[k])[n] == Reg(i.dst) ==> IsValue(Operands(blocks[b].body[k])[n], ConstSem(i).value))
  }

  /** Everywhere. */
  ghost predicate ConstantsGone(info: Info, f: seq<Block>, parent: seq<nat>, blocks: seq<Block>)
    requires Tree(f, parent)
  {
    forall b: nat, i: Instr, k: nat, n: nat {:trigger ConstantGone(f, blocks, b, i, k, n)} ::
      (b < |f| && i in Computed(info, f, parent, b) && ConstSem(i).Some? && k < |f[b].body|
       && n < |Operands(f[b].body[k])|) ==> ConstantGone(f, blocks, b, i, k, n)
  }

  lemma AllConstantsGone(info: Info, f: seq<Block>, parent: seq<nat>)
    requires JoinFree(info, f, parent) && Folds(info, f, parent)
    ensures ConstantsGone(info, f, parent, After(info, f, parent))
  {
    hide Computed, After, BlockOk, Folds, ConstSem;
    forall b: nat, i: Instr, k: nat, n: nat {:trigger ConstantGone(f, After(info, f, parent), b, i, k, n)} |
      b < |f| && i in Computed(info, f, parent, b) && ConstSem(i).Some? && k < |f[b].body|
      && n < |Operands(f[b].body[k])|
      ensures ConstantGone(f, After(info, f, parent), b, i, k, n)
    {
      ConstantsPropagate(info, f, parent, b, i, k, n);
      OperandsMapped(info, f, parent, b, k);
      AfterLength(info, f, parent);
    }
  }

  lemma AfterLength(info: Info, f: seq<Block>, parent: seq<nat>)
    requires Tree(f, parent)
    ensures |After(info, f, parent)| == |f|
  {}

  /** Two operands are one, or in one class of the stored partition. */
  ghost predicate Alike(p: Partition, o: Operand, o': Operand) {
    o == o' || exists k :: 0 <= k < |p| && o in p[k].members && o' in p[k].members
  }

  lemma AlikeSame(info: Info, avail: set<nat>, lab: map<nat, Expr>, p: Partition, o: Operand, o': Operand)
    requires PartOk(info, avail, lab, p) && Alike(p, o, o') && (IsConst(o) || Known(info, avail, o))
    ensures SameClass(p, p, o, o')
  {
    hide PartOk;
    if o == o' {
      if !IsConst(o) { var e := KnownWithin(info, avail, lab, p, o); }
    } else {
      var k :| 0 <= k < |p| && o in p[k].members && o' in p[k].members;
      assert Within(p, o, p[k].expr) && Within(p, o', p[k].expr);
    }
  }

  /** Repeated computations are merged: instructions with the same operation on operands that are alike have
      registers in one class, so that their uses become uses of one operand. */
  lemma RepeatsMerge(info: Info, f: seq<Block>, parent: seq<nat>, b: nat, i: Instr, j: Instr)
    requires JoinFree(info, f, parent) && Folds(info, f, parent) && b < |f|
    requires i in Computed(info, f, parent, b) && j in Computed(info, f, parent, b) && SameOperation(info, i, j)
    requires |Operands(i)| == |Operands(j)|
             && forall n :: 0 <= n < |Operands(i)| ==>
                  Alike(Out(info, f, parent, b).value, Operands(i)[n], Operands(j)[n])
    ensures Alike(Out(info, f, parent, b).value, Reg(i.dst), Reg(j.dst))
    ensures var h := Replaced(Out(info, f, parent, b).value); h(Reg(i.dst)) == h(Reg(j.dst))
  {
    hide ValueExpr, Norm, Computed, Replaced, Alike, LeadersFit;
    var p := Out(info, f, parent, b).value;
    var x := ClassOf(info, f, parent, b, i);
    var y := ClassOf(info, f, parent, b, j);
    SameNumbers(info, f, parent, b, i, j);
    Disjoint(info, f, parent, b);
    OneNorm(p, x, y);
    OperandsLed(info, f, parent, b, Reg(i.dst));
    OperandsLed(info, f, parent, b, Reg(j.dst));
    OneClass(p, x, Reg(i.dst), Reg(j.dst));
  }

  lemma OneNorm(p: Partition, x: nat, y: nat)
    requires x < |p| && y < |p| && Norm(p[x].expr) == Norm(p[y].expr)
    requires forall j, k :: 0 <= j < k < |p| ==> Norm(p[j].expr) != Norm(p[k].expr)
    ensures x == y
  {}

  lemma OneClass(p: Partition, k: nat, o: Operand, o': Operand)
    requires k < |p| && o in p[k].members && o' in p[k].members
    ensures Alike(p, o, o')
  {}

  lemma SameNumbers(info: Info, f: seq<Block>, parent: seq<nat>, b: nat, i: Instr, j: Instr)
    requires JoinFree(info, f, parent) && Folds(info, f, parent) && b < |f|
    requires i in Computed(info, f, parent, b) && j in Computed(info, f, parent, b) && SameOperation(info, i, j)
    requires |Operands(i)| == |Operands(j)|
             && forall n :: 0 <= n < |Operands(i)| ==>
                  Alike(Out(info, f, parent, b).value, Operands(i)[n], Operands(j)[n])
    ensures HasDst(i) && HasDst(j)
    ensures var p := Out(info, f, parent, b).value;
            ValueExpr(info, p, i).Some? && ValueExpr(info, p, j).Some?
            ==> Norm(ValueExpr(info, p, i).value) == Norm(ValueExpr(info, p, j).value)
  {
    hide ValueExpr, Norm, Computed, Alike, LeadersFit, PartOk, Settled;
    var p, avail := Out(info, f, parent, b).value, AvailIn(info, f, parent, b) + NumberedDefs(info, f[b].body);
    OutKnown(info, f, parent, b);
    var lab :| PartOk(info, avail, lab, p) && LabelsInside(lab, avail);
    forall n | 0 <= n < |Operands(i)|
      ensures SameClass(p, p, Operands(i)[n], Operands(j)[n])
    {
      assert Operands(i)[n] in Operands(i);
      AlikeSame(info, avail, lab, p, Operands(i)[n], Operands(j)[n]);
    }
    SameValueExpr(info, avail, lab, p, avail, lab, p, i, j);
  }
}

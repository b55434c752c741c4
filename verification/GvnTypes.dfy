/** Value numbering keeps types: a leader has the type of the members of its class. */
module GvnTypes {
  import opened IR
  import opened FuncInfo
  import opened Types
  import opened GvnExpr
  import opened GvnTransfer
  import opened Gvn
  import D = DeadCode

  function ExprType(params: seq<ParamType>, types: Types, e: Expr): Option<Type> {
    match e
    case Single(o) => TypeOf(params, types, o)
    case GepE(_) => Some(AddrT)
    case PhiE(_, _, _) => None
    case _ => Some(NumT)
  }

  /** Members and leader have the type of the expression. */
  ghost predicate ClassTyped(params: seq<ParamType>, types: Types, c: Class) {
    && !c.expr.PhiE? && TypeOf(params, types, c.leader) == ExprType(params, types, c.expr)
    && forall o :: o in c.members ==> TypeOf(params, types, o) == ExprType(params, types, c.expr)
  }

  ghost predicate PartTyped(params: seq<ParamType>, types: Types, p: Partition) {
    forall k :: 0 <= k < |p| ==> ClassTyped(params, types, p[k])
  }

  lemma {:induction false} RemovedTyped(params: seq<ParamType>, types: Types, p: Partition, o: Operand)
    requires PartTyped(params, types, p)
    ensures PartTyped(params, types, RemoveMember(p, o))
  {
    if p != [] {
      RemovedTyped(params, types, p[1..], o);
      assert ClassTyped(params, types, p[0]);
    }
  }

  lemma {:induction false} FoundNoPhi(params: seq<ParamType>, types: Types, p: Partition, o: Operand)
    requires PartTyped(params, types, p)
    ensures FindLast(p, o).Some? ==> !FindLast(p, o).value.PhiE?
    decreases |p|
  {
    if p != [] {
      assert ClassTyped(params, types, p[|p| - 1]);
      FoundNoPhi(params, types, p[..|p| - 1], o);
    }
  }

  /** The expression of an instruction has the type of its register. */
  lemma ValueExprTyped(info: Info, params: seq<ParamType>, types: Types, p: Partition, i: Instr)
    requires Fitting(params, types, i) && HasDst(i) && ValueExpr(info, p, i).Some?
    ensures var e := ValueExpr(info, p, i).value;
            !e.PhiE? && ExprType(params, types, e) == Some(types[i.dst])
            && TypeOf(params, types, LeaderFor(e, i.dst)) == Some(types[i.dst])
  {}

  lemma TransferTyped(info: Info, params: seq<ParamType>, types: Types, p: Partition, i: Instr)
    requires Fitting(params, types, i) && PartTyped(params, types, p) && Transfer(info, p, i, 0).Some?
    ensures PartTyped(params, types, Transfer(info, p, i, 0).value)
  {
    hide Fitting, ValueExpr, TypeOf;
    if !Skipped(info, i) {
      var e := ValueExpr(info, p, i).value;
      var q := RemoveMember(p, Reg(i.dst));
      RemovedTyped(params, types, p, Reg(i.dst));
      ValueExprTyped(info, params, types, p, i);
      assert TypeOf(params, types, Reg(i.dst)) == Some(types[i.dst]) by { DstTyped(params, types, i); }
      if Matched(q, e) {
        forall k | 0 <= k < |q| ensures ClassTyped(params, types, AddMember(q, e, Reg(i.dst))[k]) {
          assert ClassTyped(params, types, q[k]);
          if Equiv(q[k].expr, e) { EquivTyped(params, types, q[k].expr, e); }
        }
      }
    }
  }

  lemma DstTyped(params: seq<ParamType>, types: Types, i: Instr)
    requires Fitting(params, types, i) && HasDst(i)
    ensures i.dst in types && TypeOf(params, types, Reg(i.dst)) == Some(types[i.dst])
  {}

  lemma EquivTyped(params: seq<ParamType>, types: Types, a: Expr, b: Expr)
    requires Equiv(a, b)
    ensures ExprType(params, types, a) == ExprType(params, types, b)
  {}

  lemma {:induction false} TransferAllTyped(info: Info, params: seq<ParamType>, types: Types, p: Partition,
                                            body: seq<Instr>)
    requires (forall i :: i in body ==> Fitting(params, types, i)) && PartTyped(params, types, p)
    requires TransferAll(info, p, body).Some?
    ensures PartTyped(params, types, TransferAll(info, p, body).value)
    decreases body
  {
    hide Fitting, PartTyped, Transfer;
    if body != [] {
      TransferTyped(info, params, types, p, body[0]);
      TransferAllTyped(info, params, types, Transfer(info, p, body[0], 0).value, body[1..]);
    }
  }

  lemma {:induction false} InTyped(sigs: Sigs, info: Info, params: seq<ParamType>, types: Types, f: seq<Block>,
                                   parent: seq<nat>, b: nat)
    requires Tree(f, parent) && b < |f| && CodeTyped(sigs, params, types, f) && Out(info, f, parent, b).Some?
    ensures PartTyped(params, types, Out(info, f, parent, b).value)
    decreases b
  {
    hide Fitting, PartTyped, PhiTyped;
    if b > 0 {
      InTyped(sigs, info, params, types, f, parent, parent[b]);
    } else {
      InitialTyped(params, types, info);
    }
    var p := In(info, f, parent, b).value;
    assert BlockTyped(sigs, params, types, |f|, f[b]);
    forall i | i in f[b].body ensures Fitting(params, types, i) { assert InstrTyped(sigs, params, types, i); }
    TransferAllTyped(info, params, types, p, f[b].body);
  }

  lemma InitialTyped(params: seq<ParamType>, types: Types, info: Info)
    ensures PartTyped(params, types, Initial(info))
  {
    forall k | 0 <= k < |Initial(info)| ensures ClassTyped(params, types, Initial(info)[k]) {
      assert Initial(info)[k] == InitialClass(info, k);
    }
  }

  // ----- the function with its operands replaced --------------------------------------------------------------------

  ghost predicate MapKeeps(params: seq<ParamType>, types: Types, h: Operand -> Operand) {
    forall o {:trigger h(o)} :: TypeOf(params, types, h(o)) == TypeOf(params, types, o)
  }

  lemma {:induction false} ReplaceTyped(params: seq<ParamType>, types: Types, p: Partition, o: Operand)
    requires PartTyped(params, types, p)
    ensures TypeOf(params, types, ReplaceOp(p, o)) == TypeOf(params, types, o)
    decreases |p|
  {
    hide TypeOf, ExprType;
    if p != [] {
      assert ClassTyped(params, types, p[0]);
      forall x ensures TypeOf(params, types, ReplaceOp(p[1..], x)) == TypeOf(params, types, x) {
        ReplaceTyped(params, types, p[1..], x);
      }
    }
  }

  lemma {:induction false} MapAllIs(h: Operand -> Operand, os: seq<Operand>)
    ensures |MapAll(h, os)| == |os| && forall k :: 0 <= k < |os| ==> MapAll(h, os)[k] == h(os[k])
  {
    if os != [] { MapAllIs(h, os[1..]); }
  }

  lemma MapTyped(sigs: Sigs, params: seq<ParamType>, types: Types, h: Operand -> Operand, i: Instr)
    requires InstrTyped(sigs, params, types, i) && MapKeeps(params, types, h)
    ensures InstrTyped(sigs, params, types, MapOps(h, i))
  {
    hide TypeOf;
    MapOperands(h, i);
    MapAllIs(h, Operands(i));
    forall o | o in Operands(MapOps(h, i)) ensures Typed(params, types, o) {
      var k :| 0 <= k < |Operands(i)| && h(Operands(i)[k]) == o;
      assert Typed(params, types, Operands(i)[k]);
    }
    if i.Call? {
      MapAllIs(h, i.args);
    }
  }

  lemma {:induction false} MapBodyFrom(h: Operand -> Operand, body: seq<Instr>, i: Instr) returns (j: Instr)
    requires i in MapBody(h, body)
    ensures j in body && i == MapOps(h, j)
  {
    j := body[0];
    if i != MapOps(h, body[0]) { j := MapBodyFrom(h, body[1..], i); }
  }

  /** The function that value numbering makes of typed code is typed. */
  lemma NumberedTyped(sigs: Sigs, info: Info, params: seq<ParamType>, types: Types, f: seq<Block>, parent: seq<nat>)
    requires Tree(f, parent) && CodeTyped(sigs, params, types, f)
    ensures CodeTyped(sigs, params, types, After(info, f, parent))
  {
    hide InstrTyped, PhiTyped, PartTyped, MapKeeps;
    forall b | 0 <= b < |f| ensures BlockTyped(sigs, params, types, |f|, After(info, f, parent)[b]) {
      assert BlockTyped(sigs, params, types, |f|, f[b]);
      if p :| Out(info, f, parent, b) == Some(p) {
        InTyped(sigs, info, params, types, f, parent, b);
        ReplacedKeeps(params, types, p);
        forall i | i in MapBody(Replaced(p), f[b].body) ensures InstrTyped(sigs, params, types, i) {
          var j := MapBodyFrom(Replaced(p), f[b].body, i);
          MapTyped(sigs, params, types, Replaced(p), j);
        }
      }
    }
  }

  lemma ReplacedKeeps(params: seq<ParamType>, types: Types, p: Partition)
    requires PartTyped(params, types, p)
    ensures MapKeeps(params, types, Replaced(p))
  {
    hide TypeOf, PartTyped;
    forall o {:trigger Replaced(p)(o)} ensures TypeOf(params, types, Replaced(p)(o)) == TypeOf(params, types, o) {
      ReplaceTyped(params, types, p, o);
    }
  }

  // ----- what the next pass relies on -------------------------------------------------------------------------------

  lemma MapDst(h: Operand -> Operand, i: Instr)
    ensures HasDst(MapOps(h, i)) == HasDst(i) && (HasDst(i) ==> MapOps(h, i).dst == i.dst)
    ensures MapOps(h, i).Call? == i.Call? && (i.Call? ==> MapOps(h, i).fn == i.fn)
  {}

  /** Where an item of the result comes from. */
  lemma NumberedFrom(info: Info, f: seq<Block>, parent: seq<nat>, x: D.Item) returns (b: nat, j: Instr)
    requires JoinFree(info, f, parent) && x in D.Items(After(info, f, parent))
    ensures x.InstrItem? && b < |f| && j in f[b].body && D.InstrItem(j) in D.Items(f)
    ensures x.i == match Out(info, f, parent, b) case Some(p) => MapOps(Replaced(p), j) case None => j
    ensures HasDst(x.i) == HasDst(j) && (HasDst(j) ==> x.i.dst == j.dst)
  {
    hide MapBody, BodyFine;
    b :| b < |f| && x in D.BlockItems(After(info, f, parent)[b]);
    assert BlockOk(info, f, parent, b);
    if p :| Out(info, f, parent, b) == Some(p) {
      j := MapBodyFrom(Replaced(p), f[b].body, x.i);
      MapDst(Replaced(p), j);
    } else {
      j := x.i;
    }
    assert D.InstrItem(j) in D.BlockItems(f[b]);
  }
}

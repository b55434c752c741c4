/** The visitor that builds functions, with its insertion point and its flags. */
module CminusfBuilder {
  import opened IR
  import opened Cminus
  import opened Codegen
  import opened CodegenCfg
  import opened StaticCheck
  import W = Graph

  /** A stack of maps, looked up from the innermost. */
  class ScopeStack {
    var inner: Scope

    constructor (globals: map<string, Binding>)
      ensures inner == [globals]
    {
      inner := [globals];
    }

    method Enter()
      modifies this
      ensures inner == old(inner) + [map[]] && forall id :: Find(inner, id) == Find(old(inner), id)
    {
      forall id ensures Find(inner + [map[]], id) == Find(inner, id) { FindAfterEnter(inner, id); }
      inner := inner + [map[]];
    }

    method Exit()
      requires inner != []
      modifies this
      ensures inner == old(inner)[..|old(inner)| - 1]
      ensures inner + [old(inner)[|old(inner)| - 1]] == old(inner)
    {
      inner := inner[..|inner| - 1];
    }

    /** Tells whether the name was new in the innermost scope; an old one keeps its binding. */
    method Push(id: string, b: Binding) returns (isNew: bool)
      requires inner != []
      modifies this
      ensures inner == PushName(old(inner), id, b) && (isNew <==> id !in old(inner)[|old(inner)| - 1])
      ensures forall x :: Find(inner, x) == if x == id && isNew then Some(b) else Find(old(inner), x)
    {
      forall x
        ensures Find(PushName(inner, id, b), x) == if x == id && id !in inner[|inner| - 1] then Some(b)
                else Find(inner, x)
      {
        FindAfterPush(inner, id, b, x);
      }
      var k := |inner| - 1;
      isNew := id !in inner[k];
      if isNew {
        inner := inner[k := inner[k][id := b]];
      }
    }

    method Lookup(id: string) returns (b: Option<Binding>)
      ensures b == Find(inner, id)
    {
      var k := |inner|;
      assert inner[..k] == inner;
      while k > 0
        invariant 0 <= k <= |inner| && Find(inner, id) == Find(inner[..k], id)
      {
        assert inner[..k][..k - 1] == inner[..k - 1];
        if id in inner[k - 1] {
          return Some(inner[k - 1][id]);
        }
        k := k - 1;
      }
      return None;
    }
  }

  class Builder {
    const ret: Option<Ty>
    const scope: ScopeStack
    var blocks: seq<seq<Instr>>
    var succ: seq<seq<nat>>
    var pred: seq<seq<nat>>
    var insertBlock: nat
    var next: nat
    var tmpVal: Operand
    var tmpType: ExprTy
    var requireLvalue: bool
    var preEnterScope: bool

    constructor (ret: Option<Ty>, scope: ScopeStack, base: nat)
      ensures this.ret == ret && this.scope == scope && !requireLvalue && !preEnterScope
      ensures State() == Gen([[]], [[]], [[]], 0, base, scope.inner)
    {
      this.ret, this.scope := ret, scope;
      blocks, succ, pred, insertBlock, next := [[]], [[]], [[]], 0, base;
      tmpVal, tmpType, requireLvalue, preEnterScope := ConstInt(0), NoValue, false, false;
    }

    function State(): Gen
      reads this, scope
    {
      Gen(blocks, succ, pred, insertBlock, next, scope.inner)
    }

    // ----- building blocks -----------------------------------------------------------------------------------

    method EmitInstr(i: Instr)
      modifies this`blocks
      ensures State() == Emit(old(State()), i)
    {
      if insertBlock < |blocks| {
        blocks := blocks[insertBlock := blocks[insertBlock] + [i]];
      }
    }

    /** Emits an instruction that sets the next register, which becomes the current value. */
    method EmitValue(i: Instr)
      modifies this`blocks, this`next, this`tmpVal
      ensures State() == EmitNew(old(State()), i) && tmpVal == Reg(old(next))
    {
      tmpVal := Reg(next);
      EmitInstr(i);
      next := next + 1;
    }

    method CreateBlock() returns (b: nat)
      modifies this`blocks, this`succ, this`pred
      ensures State() == NewBlock(old(State())) && b == |old(blocks)|
    {
      b := |blocks|;
      blocks, succ, pred := blocks + [[]], succ + [[]], pred + [[]];
    }

    method SetInsertPoint(b: nat)
      modifies this`insertBlock
      ensures State() == old(State()).(cur := b)
    {
      insertBlock := b;
    }

    method AddPredecessor(b: nat, p: nat)
      modifies this`pred
      ensures State() == AddPred(old(State()), b, p)
    {
      if b < |pred| {
        pred := pred[b := pred[b] + [p]];
      }
    }

    method AddSuccessor(b: nat, t: nat)
      modifies this`succ
      ensures State() == AddSucc(old(State()), b, t)
    {
      if b < |succ| {
        succ := succ[b := succ[b] + [t]];
      }
    }

    method Branch(t: nat)
      modifies this`blocks, this`succ, this`pred
      ensures State() == CreateBr(old(State()), t)
    {
      AddPredecessor(t, insertBlock);
      AddSuccessor(insertBlock, t);
      EmitInstr(Br(t));
    }

    method CondBranch(c: Operand, t: nat, f: nat)
      modifies this`blocks, this`succ, this`pred
      ensures State() == CreateCondBr(old(State()), c, t, f)
    {
      AddPredecessor(t, insertBlock);
      AddPredecessor(f, insertBlock);
      AddSuccessor(insertBlock, f);
      AddSuccessor(insertBlock, t);
      EmitInstr(CondBr(c, t, f));
    }

    method HasTerminator() returns (r: bool)
      ensures r == Terminated(State())
    {
      r := insertBlock < |blocks| && Ends(blocks[insertBlock]);
    }

    method BranchUnlessTerminated(t: nat)
      modifies this`blocks, this`succ, this`pred
      ensures State() == BrUnlessTerminated(old(State()), t)
    {
      var done := HasTerminator();
      if !done {
        Branch(t);
      }
    }

    // ----- expressions ---------------------------------------------------------------------------------------

    /** The current value as a number of type `to`. */
    method Convert(to: Ty)
      requires tmpType.Scalar?
      modifies this`blocks, this`next, this`tmpVal, this`tmpType
      ensures GenConv(old(tmpVal), old(tmpType.t), to, old(State())) == (tmpVal, State()) && tmpType == Scalar(to)
    {
      if tmpType.t != to {
        EmitValue(Conv(next, if tmpType.t.IntT? then SiToFp else FpToSi, tmpVal));
      }
      tmpType := Scalar(to);
    }

    /** When the types of two operands differ, the int becomes a float. */
    method Promote(lVal: Operand, s: Ty, rVal: Operand, t: Ty) returns (l: Operand, r: Operand, isInt: bool)
      modifies this`blocks, this`next, this`tmpVal
      ensures (l, r, State()) == GenPromote(lVal, s, rVal, t, old(State())) && (isInt <==> Join(s, t).IntT?)
    {
      hide Emit;
      l, r := lVal, rVal;
      if s == t {
        isInt := s.IntT?;
      } else {
        isInt := false;
        if s.IntT? {
          EmitValue(Conv(next, SiToFp, lVal));
          l := tmpVal;
        } else {
          EmitValue(Conv(next, SiToFp, rVal));
          r := tmpVal;
        }
      }
    }

    /** A variable without an index: its address when an lvalue is wanted, else its value. */
    method VisitVarName(id: string) returns (ok: bool)
      modifies this`blocks, this`next, this`tmpVal, this`tmpType, this`requireLvalue
      ensures !requireLvalue
      ensures old(requireLvalue) ==> (ok <==> Find(scope.inner, id).Some? && Find(scope.inner, id).value.Mem?)
      ensures old(requireLvalue) && ok ==> tmpVal == Find(scope.inner, id).value.addr && State() == old(State())
      ensures !old(requireLvalue) ==> (ok <==> GenX(Name(id), old(State()), ret).Some?)
      ensures !old(requireLvalue) && ok ==> GenX(Name(id), old(State()), ret) == Some((tmpVal, State()))
      ensures !old(requireLvalue) && ok ==> tmpType == TypeX(Name(id), scope.inner)
    {
      var shouldReturnLvalue := requireLvalue;
      requireLvalue := false;
      var b := scope.Lookup(id);
      if b.None? || b.value.Fun? {
        return false;
      }
      ok := true;
      if shouldReturnLvalue {
        tmpVal := b.value.addr;
      } else if b.value.kind.ArrK? {
        EmitValue(Gep(next, b.value.addr, [ConstInt(0), ConstInt(0)]));
        tmpType := PtrTo(b.value.kind.t);
      } else {
        EmitValue(Load(next, b.value.addr));
        tmpType := if b.value.kind.NumK? then Scalar(b.value.kind.t) else PtrTo(b.value.kind.t);
      }
    }

    /** The index as an int, the test that it is not negative, and the block that ends the function when
        it is. The current value is the index again. The two blocks are made after the conversion, which
        leaves the same code as making them before it. */
    method CheckIndex(handler: nat)
      requires tmpType.Scalar?
      modifies this`blocks, this`succ, this`pred, this`insertBlock, this`next, this`tmpVal, this`tmpType
      ensures var (n, g) := GenConv(old(tmpVal), old(tmpType.t), IntT, old(State()));
              tmpVal == n && State() == GenCheck(g, n, handler, ret)
    {
      hide Emit, CreateCondBr;
      Convert(IntT);
      var val := tmpVal;
      var exceptBB := CreateBlock();
      var contBB := CreateBlock();
      EmitValue(Cmp(next, LT, val, ConstInt(0)));
      CondBranch(tmpVal, exceptBB, contBB);
      SetInsertPoint(exceptBB);
      EmitValue(Call(next, handler, []));
      EmitInstr(DefaultRet(ret));
      SetInsertPoint(contBB);
      tmpVal := val;
    }

    /** The address of an element, by what the variable's address points to. */
    method EmitElement(b: Binding, val: Operand)
      requires b.Mem?
      modifies this`blocks, this`next, this`tmpVal
      ensures GenElement(b, val, old(State())) == Some((tmpVal, State()))
    {
      hide Emit;
      match b.kind
      case NumK(_) => EmitValue(Gep(next, b.addr, [val]));
      case PtrK(_) =>
        EmitValue(Load(next, b.addr));
        EmitValue(Gep(next, tmpVal, [val]));
      case ArrK(_) => EmitValue(Gep(next, b.addr, [ConstInt(0), val]));
    }

    /** The address of an element: the index, the test, the getelementptr. */
    method VisitElement(id: string, x: Expr) returns (ok: bool)
      requires !requireLvalue
      modifies this
      ensures !requireLvalue && preEnterScope == old(preEnterScope)
      ensures ok <==> GenIndex(id, x, old(State()), ret).Some?
      ensures ok ==> GenIndex(id, x, old(State()), ret) == Some((tmpVal, State()))
      decreases x, 3
    {
      hide GenCheck, GenElement, GenX, Emit, EmitNew, Find, GenConv, TypeX;
      var b := scope.Lookup(id);
      if b.None? {
        return false;
      }
      ghost var g := State();
      ok := VisitX(x);
      if !ok { return; }
      var handler := scope.Lookup(NEG_IDX);
      if b.value.Fun? { NoIndex(id, x, g, ret); }
      if handler.None? || !handler.value.Fun? || handler.value.params != [] || b.value.Fun? || !tmpType.Scalar? {
        return false;
      }
      CheckIndex(handler.value.fn);
      EmitElement(b.value, tmpVal);
    }

    /** A variable with an index: the address of the element, or its value. */
    method VisitVarIndex(id: string, x: Expr) returns (ok: bool)
      modifies this
      ensures !requireLvalue && preEnterScope == old(preEnterScope)
      ensures ok <==> GenIndex(id, x, old(State()), ret).Some?
      ensures ok && old(requireLvalue) ==> GenIndex(id, x, old(State()), ret) == Some((tmpVal, State()))
      ensures ok && !old(requireLvalue) ==> GenX(Index(id, x), old(State()), ret) == Some((tmpVal, State()))
      ensures ok && !old(requireLvalue) ==> tmpType == TypeX(Index(id, x), scope.inner)
      decreases x, 4
    {
      hide Open, Check, ScopeSorts, GenIndex, Emit, Find;
      var shouldReturnLvalue := requireLvalue;
      requireLvalue := false;
      var b := scope.Lookup(id);
      ok := VisitElement(id, x);
      if ok && !shouldReturnLvalue {
        EmitValue(Load(next, tmpVal));
        tmpType := ElementOf(b);
      }
    }

    /** Assignment to a variable: the value, converted to the type of the variable, is stored. */
    method VisitAssignName(id: string, x: Expr) returns (ok: bool)
      requires !requireLvalue
      modifies this
      ensures !requireLvalue && preEnterScope == old(preEnterScope)
      ensures ok <==> GenX(AssignName(id, x), old(State()), ret).Some?
      ensures ok ==> GenX(AssignName(id, x), old(State()), ret) == Some((tmpVal, State()))
                     && tmpType == TypeX(AssignName(id, x), scope.inner)
      decreases AssignName(id, x), 1
    {
      hide Open, Check, ScopeSorts, Emit, EmitNew, Find, GenConv, TypeX;
      ok := VisitX(x);
      if !ok { return; }
      var exprResult, exprType := tmpVal, tmpType;
      requireLvalue := true;
      ok := VisitVarName(id);
      if !ok { return; }
      var varAddr := tmpVal;
      var b := scope.Lookup(id);
      if !b.value.kind.NumK? || !exprType.Scalar? {
        return false;
      }
      tmpVal, tmpType := exprResult, exprType;
      Convert(b.value.kind.t);
      EmitInstr(Store(tmpVal, varAddr));
      AssignType(id, x, scope.inner);
    }

    /** Assignment to an element. */
    method VisitAssignIndex(id: string, x: Expr, y: Expr) returns (ok: bool)
      requires !requireLvalue
      modifies this
      ensures !requireLvalue && preEnterScope == old(preEnterScope)
      ensures ok <==> GenX(AssignIndex(id, x, y), old(State()), ret).Some?
      ensures ok ==> GenX(AssignIndex(id, x, y), old(State()), ret) == Some((tmpVal, State()))
      ensures ok ==> tmpType == TypeX(AssignIndex(id, x, y), scope.inner)
      decreases AssignIndex(id, x, y), 1
    {
      hide Open, Check, ScopeSorts, Emit, EmitNew, Find, GenConv, TypeX, GenIndex, ElementOf;
      ghost var g := State();
      ok := VisitX(y);
      if !ok { return; }
      var exprResult, exprType := tmpVal, tmpType;
      var b := scope.Lookup(id);
      var elementType := ElementOf(b);
      requireLvalue := true;
      ok := VisitVarIndex(id, x);
      if !ok { return; }
      if !elementType.Scalar? || !exprType.Scalar? {
        return false;
      }
      var varAddr := tmpVal;
      tmpVal, tmpType := exprResult, exprType;
      Convert(elementType.t);
      EmitInstr(Store(tmpVal, varAddr));
      AssignIndexType(id, x, y, scope.inner);
    }

    /** Two operands, from left to right, made ints or floats alike. */
    method VisitOperands(l: Expr, r: Expr) returns (ok: bool, lVal: Operand, rVal: Operand, isInt: bool)
      requires !requireLvalue
      modifies this
      ensures !requireLvalue && preEnterScope == old(preEnterScope)
      ensures ok <==> GenTwo(l, r, old(State()), ret).Some?
      ensures ok ==> GenTwo(l, r, old(State()), ret) == Some((lVal, rVal, if isInt then IntT else FloatT, State()))
      ensures ok ==> TypeX(l, scope.inner).Scalar? && TypeX(r, scope.inner).Scalar?
      ensures ok ==> Join(TypeX(l, scope.inner).t, TypeX(r, scope.inner).t) == if isInt then IntT else FloatT
      decreases if l < r then r else l, 3
    {
      hide Open, Check, ScopeSorts, GenX, TypeX, GenPromote;
      lVal, rVal, isInt := ConstInt(0), ConstInt(0), true;
      ok := VisitX(l);
      if !ok { return; }
      var a, s := tmpVal, tmpType;
      ok := VisitX(r);
      if !ok { return; }
      if !s.Scalar? || !tmpType.Scalar? {
        ok := false;
        return;
      }
      lVal, rVal, isInt := Promote(a, s.t, tmpVal, tmpType.t);
    }

    /** An expression: its value and type become the current ones. `ok` is false where the generator stops:
        a name that is unknown or used for something it is not, or an operand that is no number. */
    method VisitX(e: Expr) returns (ok: bool)
      requires !requireLvalue
      modifies this
      ensures !requireLvalue && preEnterScope == old(preEnterScope)
      ensures ok <==> GenX(e, old(State()), ret).Some?
      ensures ok ==> GenX(e, old(State()), ret) == Some((tmpVal, State())) && tmpType == TypeX(e, scope.inner)
      ensures Open(old(State())) ==> (ok <==> Check(e, ScopeSorts(old(scope.inner))).Some?)
      decreases e, 2
    {
      hide Emit, EmitNew, Find, GenIndex, GenTwo, GenXs, GenStore, ElementOf, Check, ScopeSorts, Open;
      if Open(State()) { XFine(e, State(), ret); }
      ok := true;
      match e
      case Num(n) => tmpVal, tmpType := ConstInt(n), Scalar(IntT);
      case FloatNum(x) => tmpVal, tmpType := ConstFp(x), Scalar(FloatT);
      case Name(id) => ok := VisitVarName(id);
      case Index(id, x) => ok := VisitVarIndex(id, x);
      case AssignName(id, x) => ok := VisitAssignName(id, x);
      case AssignIndex(id, x, y) => ok := VisitAssignIndex(id, x, y);
      case BinX(op, l, r) =>
        var lVal, rVal, isInt;
        ok, lVal, rVal, isInt := VisitOperands(l, r);
        if !ok { return; }
        EmitValue(Bin(next, ArithInstr(op, if isInt then IntT else FloatT), lVal, rVal));
        tmpType := Scalar(if isInt then IntT else FloatT);
      case RelX(rel, l, r) =>
        var lVal, rVal, isInt;
        ok, lVal, rVal, isInt := VisitOperands(l, r);
        if !ok { return; }
        EmitValue(Cmp(next, RelInstr(rel, if isInt then IntT else FloatT), lVal, rVal));
        EmitValue(Conv(next, ZExt, tmpVal));
        tmpType := Scalar(IntT);
      case CallX(id, xs) => ok := VisitCall(id, xs);
    }

    method VisitCall(id: string, xs: seq<Expr>) returns (ok: bool)
      requires !requireLvalue
      modifies this
      ensures !requireLvalue && preEnterScope == old(preEnterScope)
      ensures ok <==> GenX(CallX(id, xs), old(State()), ret).Some?
      ensures ok ==> GenX(CallX(id, xs), old(State()), ret) == Some((tmpVal, State()))
                     && tmpType == TypeX(CallX(id, xs), scope.inner)
      decreases xs, |xs| + 1
    {
      hide Emit, EmitNew, Find;
      var b := scope.Lookup(id);
      if b.None? || !b.value.Fun? {
        return false;
      }
      var args;
      ok, args := VisitArgs(xs, b.value.params);
      if !ok || |args| != |b.value.params| {
        return false;
      }
      EmitValue(Call(next, b.value.fn, args));
      tmpType := if b.value.ret.Some? then Scalar(b.value.ret.value) else NoValue;
    }

    /** The current value as the parameter wants it. */
    method PassValue(param: ExprTy) returns (ok: bool)
      modifies this`blocks, this`next, this`tmpVal, this`tmpType
      ensures ok <==> GenPass(old(tmpVal), old(tmpType), param, old(State())).Some?
      ensures ok ==> GenPass(old(tmpVal), old(tmpType), param, old(State())) == Some((tmpVal, State()))
    {
      hide GenConv;
      ok := tmpType.PtrTo? || (tmpType.Scalar? && param.Scalar?);
      if ok && !tmpType.PtrTo? {
        Convert(param.t);
      }
    }

    /** Arguments from left to right, each converted before the next. */
    method VisitArgs(xs: seq<Expr>, params: seq<ExprTy>) returns (ok: bool, args: seq<Operand>)
      requires !requireLvalue
      modifies this
      ensures !requireLvalue && preEnterScope == old(preEnterScope)
      ensures ok <==> GenXs(xs, params, old(State()), ret).Some?
      ensures ok ==> GenXs(xs, params, old(State()), ret) == Some((args, State()))
      decreases xs, 0
    {
      hide Open, Check, ScopeSorts, GenX, TypeX, GenPass;
      ok, args := true, [];
      if xs != [] {
        if params == [] {
          ok := false;
          return;
        }
        ok := VisitX(xs[0]);
        if !ok { return; }
        ok := PassValue(params[0]);
        if !ok { return; }
        var v := tmpVal;
        ok, args := VisitArgs(xs[1..], params[1..]);
        args := [v] + args;
      }
    }

    // ----- statements ----------------------------------------------------------------------------------------

    method VisitDecl(d: Decl)
      requires scope.inner != []
      modifies this`blocks, this`next, this`tmpVal, scope
      ensures State() == GenDecl(d, old(State())) && |scope.inner| == |old(scope.inner)|
    {
      match d.num
      case None =>
        EmitValue(Alloca(next, SlotFor(d.ty)));
        var _ := scope.Push(d.id, Mem(tmpVal, NumK(d.ty)));
      case Some(n) =>
        EmitInstr(Alloca(d.site, ArraySlot(n)));
        var _ := scope.Push(d.id, Mem(Reg(d.site), ArrK(d.ty)));
    }

    method VisitDecls(ds: seq<Decl>)
      requires scope.inner != []
      modifies this`blocks, this`next, this`tmpVal, scope
      ensures State() == GenDecls(ds, old(State())) && |scope.inner| == |old(scope.inner)|
    {
      hide GenDecl;
      ghost var g := State();
      var k := 0;
      while k < |ds|
        invariant 0 <= k <= |ds| && |scope.inner| == |old(scope.inner)|
        invariant GenDecls(ds[k..], State()) == GenDecls(ds, g)
      {
        assert ds[k..][1..] == ds[k + 1..];
        VisitDecl(ds[k]);
        k := k + 1;
      }
    }

    /** The condition of an if or a loop, compared with 0. */
    method BranchOn(val: Operand, ty: Ty, t: nat, f: nat)
      modifies this`blocks, this`succ, this`pred, this`next, this`tmpVal
      ensures State() == GenTest(old(State()), val, ty, t, f)
    {
      hide Emit, CreateCondBr;
      EmitValue(Cmp(next, RelInstr(NotEqual, ty), val, Zero(ty)));
      CondBranch(tmpVal, t, f);
    }

    ghost predicate Quiet()
      reads this, scope
    {
      !requireLvalue && !preEnterScope && scope.inner != []
    }

    method VisitStmt(t: Stmt) returns (ok: bool)
      requires Quiet()
      modifies this, scope
      ensures ok <==> GenS(t, old(State()), ret).Some?
      ensures ok ==> GenS(t, old(State()), ret) == Some(State()) && Quiet()
      ensures ok ==> |scope.inner| == |old(scope.inner)|
      ensures Open(old(State())) ==> (ok <==> Fine(t, ScopeSorts(old(scope.inner)), ret))
      decreases t, 1
    {
      hide GenX, Emit, NewBlock, GenTest, BrUnlessTerminated, GenDecls, GenList, Fine, ScopeSorts, Open;
      if Open(State()) { SFine(t, State(), ret); }
      ok := true;
      match t
      case ExprS(None) =>
      case ExprS(Some(e)) => ok := VisitX(e);
      case ReturnS(None) => EmitInstr(Ret(None));
      case ReturnS(Some(e)) =>
        ok := VisitReturn(e);
      case IfS(e, a, None) => ok := VisitIf(e, a);
      case IfS(e, a, Some(b)) => ok := VisitIfElse(e, a, b);
      case WhileS(e, body) => ok := VisitWhile(e, body);
      case CompoundS(ds, ts) => ok := VisitCompound(ds, ts);
    }

    /** The value is returned as what the function returns. */
    method VisitReturn(e: Expr) returns (ok: bool)
      requires Quiet()
      modifies this
      ensures ok <==> GenS(ReturnS(Some(e)), old(State()), ret).Some?
      ensures ok ==> GenS(ReturnS(Some(e)), old(State()), ret) == Some(State()) && Quiet()
    {
      hide GenX, Emit, GenConv, TypeX;
      if ret.None? {
        return false;
      }
      ok := VisitX(e);
      if !ok { return; }
      if !tmpType.Scalar? {
        return false;
      }
      Convert(ret.value);
      EmitInstr(Ret(Some(tmpVal)));
    }

    /** An arm of an if or the body of a loop; then on to `join`, while the generator goes on at `at`. */
    method VisitArm(a: Stmt, join: nat, at: nat) returns (ok: bool)
      requires Quiet()
      modifies this, scope
      ensures ok <==> GenS(a, old(State()), ret).Some?
      ensures ok ==> State() == BrUnlessTerminated(GenS(a, old(State()), ret).value, join).(cur := at) && Quiet()
      ensures ok ==> |scope.inner| == |old(scope.inner)|
      decreases a, 2
    {
      hide GenS, BrUnlessTerminated;
      ok := VisitStmt(a);
      if !ok { return; }
      BranchUnlessTerminated(join);
      SetInsertPoint(at);
    }

    /** The condition of a loop or an if with one arm, and the blocks for the arm and for what follows. */
    method VisitOneWay(e: Expr) returns (ok: bool, trueBB: nat, contBB: nat)
      requires Quiet()
      modifies this
      ensures ok <==> GenCond(e, old(State()), ret).Some?
      ensures ok ==> var (v, ty, g1) := GenCond(e, old(State()), ret).value;
                     && trueBB == |g1.blocks| && contBB == |g1.blocks| + 1
                     && State() == GenTest(NewBlock(NewBlock(g1)), v, ty, trueBB, contBB).(cur := trueBB)
      ensures ok ==> Quiet()
    {
      hide GenX, Emit, NewBlock, GenTest, TypeX;
      trueBB, contBB := 0, 0;
      ok := VisitX(e);
      if !ok { return; }
      if !tmpType.Scalar? {
        ok := false;
        return;
      }
      var retVal := tmpVal;
      ghost var g1 := State();
      trueBB := CreateBlock();
      SizeUp(g1);
      contBB := CreateBlock();
      BranchOn(retVal, tmpType.t, trueBB, contBB);
      SetInsertPoint(trueBB);
    }

    method VisitIf(e: Expr, a: Stmt) returns (ok: bool)
      requires Quiet()
      modifies this, scope
      ensures ok <==> GenS(IfS(e, a, None), old(State()), ret).Some?
      ensures ok ==> GenS(IfS(e, a, None), old(State()), ret) == Some(State()) && Quiet()
      ensures ok ==> |scope.inner| == |old(scope.inner)|
      decreases IfS(e, a, None), 0
    {
      hide GenX, GenCond, Emit, NewBlock, GenTest, BrUnlessTerminated;
      var trueBB, contBB;
      ok, trueBB, contBB := VisitOneWay(e);
      if !ok { return; }
      ok := VisitArm(a, contBB, contBB);
    }

    /** The condition of an if with two arms, and the blocks for them and for what follows. */
    method VisitTwoWay(e: Expr) returns (ok: bool, trueBB: nat, contBB: nat, falseBB: nat)
      requires Quiet()
      modifies this
      ensures ok <==> GenCond(e, old(State()), ret).Some?
      ensures ok ==> var (v, ty, g1) := GenCond(e, old(State()), ret).value;
                     && trueBB == |g1.blocks| && contBB == |g1.blocks| + 1 && falseBB == |g1.blocks| + 2
                     && State() == GenTest(NewBlock(NewBlock(NewBlock(g1))), v, ty, trueBB, falseBB).(cur := trueBB)
      ensures ok ==> Quiet()
    {
      hide GenX, Emit, NewBlock, GenTest, TypeX;
      trueBB, contBB, falseBB := 0, 0, 0;
      ok := VisitX(e);
      if !ok { return; }
      if !tmpType.Scalar? {
        ok := false;
        return;
      }
      var retVal := tmpVal;
      ghost var g1 := State();
      trueBB := CreateBlock();
      SizeUp(g1);
      contBB := CreateBlock();
      SizeUp(NewBlock(g1));
      falseBB := CreateBlock();
      BranchOn(retVal, tmpType.t, trueBB, falseBB);
      SetInsertPoint(trueBB);
    }

    method VisitIfElse(e: Expr, a: Stmt, b: Stmt) returns (ok: bool)
      requires Quiet()
      modifies this, scope
      ensures ok <==> GenS(IfS(e, a, Some(b)), old(State()), ret).Some?
      ensures ok ==> GenS(IfS(e, a, Some(b)), old(State()), ret) == Some(State()) && Quiet()
      ensures ok ==> |scope.inner| == |old(scope.inner)|
      decreases IfS(e, a, Some(b)), 0
    {
      hide GenX, GenCond, Emit, NewBlock, GenTest, BrUnlessTerminated;
      var trueBB, contBB, falseBB;
      ok, trueBB, contBB, falseBB := VisitTwoWay(e);
      if !ok { return; }
      ok := VisitArm(a, contBB, falseBB);
      if !ok { return; }
      ok := VisitArm(b, contBB, contBB);
    }

    method VisitWhile(e: Expr, body: Stmt) returns (ok: bool)
      requires Quiet()
      modifies this, scope
      ensures ok <==> GenS(WhileS(e, body), old(State()), ret).Some?
      ensures ok ==> GenS(WhileS(e, body), old(State()), ret) == Some(State()) && Quiet()
      ensures ok ==> |scope.inner| == |old(scope.inner)|
      decreases WhileS(e, body), 0
    {
      hide GenX, GenCond, Emit, NewBlock, GenTest, BrUnlessTerminated;
      var exprBB := CreateBlock();
      BranchUnlessTerminated(exprBB);
      SetInsertPoint(exprBB);
      var trueBB, contBB;
      ok, trueBB, contBB := VisitOneWay(e);
      if !ok { return; }
      ok := VisitArm(body, exprBB, contBB);
    }

    /** Statements, up to one that ends the current block. */
    method VisitStatements(ts: seq<Stmt>) returns (ok: bool)
      requires Quiet()
      modifies this, scope
      ensures ok <==> GenList(ts, old(State()), ret).Some?
      ensures ok ==> GenList(ts, old(State()), ret) == Some(State()) && Quiet() && |scope.inner| == |old(scope.inner)|
      decreases ts, 0
    {
      hide GenS;
      ghost var g := State();
      var k, ended := 0, false;
      assert ts[0..] == ts;
      while k < |ts| && !ended
        invariant 0 <= k <= |ts| && Quiet() && |scope.inner| == |g.scope|
        invariant if ended then GenList(ts, g, ret) == Some(State()) else GenList(ts, g, ret)
                                                                          == GenList(ts[k..], State(), ret)
        decreases |ts| - k
      {
        assert ts[k..][0] == ts[k] && ts[k..][1..] == ts[k + 1..];
        ok := VisitStmt(ts[k]);
        if !ok { return; }
        ended := HasTerminator();
        k := k + 1;
      }
      ok := true;
    }

    /** A block; the body of a function uses the scope that holds the parameters. Statements after one
        that ends the current block are not visited. */
    method VisitCompound(ds: seq<Decl>, ts: seq<Stmt>) returns (ok: bool)
      requires !requireLvalue && scope.inner != []
      modifies this, scope
      ensures !old(preEnterScope) ==> (ok <==> GenS(CompoundS(ds, ts), old(State()), ret).Some?)
      ensures !old(preEnterScope) && ok ==> GenS(CompoundS(ds, ts), old(State()), ret) == Some(State())
      ensures old(preEnterScope) ==> (ok <==> GenList(ts, GenDecls(ds, old(State())), ret).Some?)
      ensures old(preEnterScope) && ok ==> GenList(ts, GenDecls(ds, old(State())), ret) == Some(State())
      ensures ok ==> Quiet() && |scope.inner| == |old(scope.inner)|
      decreases ts, 1
    {
      hide GenDecls, GenList;
      var needExitScope := !preEnterScope;
      if preEnterScope {
        preEnterScope := false;
      } else {
        scope.Enter();
      }
      VisitDecls(ds);
      ok := VisitStatements(ts);
      if !ok { return; }
      if needExitScope {
        scope.Exit();
      }
    }

    method VisitParams(ps: seq<Param>)
      requires scope.inner != []
      modifies this`blocks, this`next, this`tmpVal, scope
      ensures State() == GenParams(ps, 0, old(State())) && |scope.inner| == |old(scope.inner)|
    {
      hide Emit, PushName;
      ghost var g := State();
      var k := 0;
      assert ps[0..] == ps;
      while k < |ps|
        invariant 0 <= k <= |ps| && |scope.inner| == |old(scope.inner)|
        invariant GenParams(ps[k..], k, State()) == GenParams(ps, 0, g)
      {
        assert ps[k..][0] == ps[k] && ps[k..][1..] == ps[k + 1..];
        EmitValue(Alloca(next, ParamSlot(ps[k])));
        var slot := tmpVal;
        EmitInstr(Store(Arg(k), slot));
        var _ := scope.Push(ps[k].id, Mem(slot, ParamKind(ps[k])));
        k := k + 1;
      }
    }

    /** A function, from a builder that has just been made. It sees its own name. The graph is well formed,
        every block ends with its one terminator, and `scope` is as before but for that name. */
    method VisitFunDecl(id: string, fn: nat, fd: FunDecl, ghost globals: map<string, Binding>, ghost base: nat)
      returns (ok: bool)
      requires Quiet() && ret == fd.ret && State() == Gen([[]], [[]], [[]], 0, base, [globals])
      modifies this, scope
      ensures ok <==> GenFun(fd, NamesFor(globals, id, fn, fd), base).Some?
      ensures ok <==> FunctionFine(fd, SortsOf(NamesFor(globals, id, fn, fd)))
      ensures ok ==> GenFun(fd, NamesFor(globals, id, fn, fd), base) == Some(State())
      ensures ok ==> Cfg(State()) && W.WellFormed(GraphOf(State())) && pred[0] == []
                     && scope.inner == [NamesFor(globals, id, fn, fd)]
      ensures ok ==> forall b :: 0 <= b < |blocks| ==> Ends(blocks[b])
    {
      hide GenList, GenDecls, GenParams, Emit, Cfg, FunctionFine, SortsOf;
      FunctionIsFine(fd, NamesFor(globals, id, fn, fd), base);
      var _ := scope.Push(id, Fun(fn, ParamTypes(fd.params), fd.ret));
      ghost var names := NamesFor(globals, id, fn, fd);
      assert scope.inner == [names];
      scope.Enter();
      preEnterScope := true;
      assert State() == GenStart(names, base);
      VisitParams(fd.params);
      ok := VisitCompound(fd.decls, fd.stmts);
      if !ok { return; }
      var done := HasTerminator();
      if !done {
        EmitInstr(DefaultRet(ret));
      }
      scope.Exit();
      FunCfg(fd, names, base);
    }
  }

  /** A function has no elements. */
  lemma NoIndex(id: string, x: Expr, g: Gen, ret: Option<Ty>)
    requires Find(g.scope, id).Some? && Find(g.scope, id).value.Fun?
    ensures GenIndex(id, x, g, ret).None?
  {}

  lemma AssignType(id: string, x: Expr, scope: Scope)
    ensures TypeX(AssignName(id, x), scope) == ElementOf(Find(scope, id))
  {}

  lemma AssignIndexType(id: string, x: Expr, y: Expr, scope: Scope)
    ensures TypeX(AssignIndex(id, x, y), scope) == ElementOf(Find(scope, id))
  {}

  lemma SizeUp(g: Gen)
    ensures |NewBlock(g).blocks| == |g.blocks| + 1
  {}
}

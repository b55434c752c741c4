/** What the code generator emits, as a function of the syntax tree. */
module Codegen {
  import opened IR
  import opened Cminus

  /** What the address of a variable points to. */
  datatype Kind = NumK(t: Ty) | PtrK(t: Ty) | ArrK(t: Ty)

  datatype Binding = Mem(addr: Operand, kind: Kind) | Fun(fn: nat, params: seq<ExprTy>, ret: Option<Ty>)

  /** A stack of maps, the innermost last. */
  type Scope = seq<map<string, Binding>>

  /** The function under construction: its blocks with their successors and predecessors, the block
      that is being filled, the next register, and the names in scope. */
  datatype Gen = Gen(blocks: seq<seq<Instr>>, succ: seq<seq<nat>>, pred: seq<seq<nat>>, cur: nat, next: nat,
                     scope: Scope)

  // ----- scopes ------------------------------------------------------------------------------------------------

  function Find(scope: Scope, id: string): Option<Binding> {
    if scope == [] then None
    else if id in scope[|scope| - 1] then Some(scope[|scope| - 1][id])
    else Find(scope[..|scope| - 1], id)
  }

  /** A name that the innermost map has already keeps its binding. */
  function PushName(scope: Scope, id: string, b: Binding): (r: Scope)
    ensures |r| == |scope|
  {
    if scope == [] || id in scope[|scope| - 1] then scope
    else scope[|scope| - 1 := scope[|scope| - 1][id := b]]
  }

  /** A new innermost map hides nothing. */
  lemma FindAfterEnter(scope: Scope, id: string)
    ensures Find(scope + [map[]], id) == Find(scope, id)
  {
    assert (scope + [map[]])[..|scope|] == scope;
  }

  /** A name that was pushed is found, and others are found where they were. */
  lemma FindAfterPush(scope: Scope, id: string, b: Binding, x: string)
    requires scope != []
    ensures Find(PushName(scope, id, b), x) == if x == id && id !in scope[|scope| - 1] then Some(b) else Find(scope, x)
  {
    assert PushName(scope, id, b)[..|scope| - 1] == scope[..|scope| - 1];
  }

  // ----- the builder ---------------------------------------------------------------------------------------------

  function Emit(g: Gen, i: Instr): Gen {
    if g.cur < |g.blocks| then g.(blocks := g.blocks[g.cur := g.blocks[g.cur] + [i]]) else g
  }

  /** An instruction that sets the next register. */
  function EmitNew(g: Gen, i: Instr): Gen {
    Emit(g, i).(next := g.next + 1)
  }

  function NewBlock(g: Gen): Gen {
    g.(blocks := g.blocks + [[]], succ := g.succ + [[]], pred := g.pred + [[]])
  }

  function AddPred(g: Gen, b: nat, p: nat): Gen {
    if b < |g.pred| then g.(pred := g.pred[b := g.pred[b] + [p]]) else g
  }

  function AddSucc(g: Gen, b: nat, t: nat): Gen {
    if b < |g.succ| then g.(succ := g.succ[b := g.succ[b] + [t]]) else g
  }

  function CreateBr(g: Gen, t: nat): Gen {
    Emit(AddSucc(AddPred(g, t, g.cur), g.cur, t), Br(t))
  }

  function CreateCondBr(g: Gen, c: Operand, t: nat, f: nat): Gen {
    Emit(AddSucc(AddSucc(AddPred(AddPred(g, t, g.cur), f, g.cur), g.cur, f), g.cur, t), CondBr(c, t, f))
  }

  predicate Ends(body: seq<Instr>) {
    body != [] && IsTerminator(body[|body| - 1])
  }

  predicate Terminated(g: Gen) {
    g.cur < |g.blocks| && Ends(g.blocks[g.cur])
  }

  function BrUnlessTerminated(g: Gen, t: nat): Gen {
    if Terminated(g) then g else CreateBr(g, t)
  }

  function Zero(t: Ty): Operand {
    match t case IntT => ConstInt(0) case FloatT => ConstFp(0.0)
  }

  function DefaultRet(ret: Option<Ty>): Instr {
    if ret.None? then Ret(None) else Ret(Some(Zero(ret.value)))
  }

  // ----- expressions ---------------------------------------------------------------------------------------------

  /** The instruction for an operator on numbers of type `t`. */
  function ArithInstr(op: ArithOp, t: Ty): BinOp {
    match (op, t)
    case (Plus, IntT) => Add
    case (Plus, FloatT) => FAdd
    case (Minus, IntT) => Sub
    case (Minus, FloatT) => FSub
    case (Times, IntT) => Mul
    case (Times, FloatT) => FMul
    case (Over, IntT) => SDiv
    case (Over, FloatT) => FDiv
  }

  function RelInstr(rel: RelOp, t: Ty): CmpOp {
    match (rel, t)
    case (Less, IntT) => LT
    case (Less, FloatT) => FLT
    case (LessEq, IntT) => LE
    case (LessEq, FloatT) => FLE
    case (GreaterEq, IntT) => GE
    case (GreaterEq, FloatT) => FGE
    case (Greater, IntT) => GT
    case (Greater, FloatT) => FGT
    case (Equal, IntT) => EQ
    case (Equal, FloatT) => FEQ
    case (NotEqual, IntT) => NE
    case (NotEqual, FloatT) => FNE
  }

  /** Two numbers are ints together only when both are. */
  function Join(s: Ty, t: Ty): Ty {
    if s == t then s else FloatT
  }

  function ElementOf(b: Option<Binding>): ExprTy {
    match b case Some(Mem(_, k)) => Scalar(k.t) case _ => NoValue
  }

  /** The type of the value that code for an expression computes. */
  function TypeX(e: Expr, scope: Scope): ExprTy {
    match e
    case Num(_) => Scalar(IntT)
    case FloatNum(_) => Scalar(FloatT)
    case Name(id) =>
      (match Find(scope, id)
       case Some(Mem(_, NumK(t))) => Scalar(t)
       case Some(Mem(_, k)) => PtrTo(k.t)
       case _ => NoValue)
    case Index(id, _) => ElementOf(Find(scope, id))
    case AssignName(id, _) => ElementOf(Find(scope, id))
    case AssignIndex(id, _, _) => ElementOf(Find(scope, id))
    case BinX(_, l, r) =>
      (match (TypeX(l, scope), TypeX(r, scope))
       case (Scalar(s), Scalar(t)) => Scalar(Join(s, t))
       case _ => NoValue)
    case RelX(_, _, _) => Scalar(IntT)
    case CallX(id, _) => (match Find(scope, id) case Some(Fun(_, _, Some(t))) => Scalar(t) case _ => NoValue)
  }

  /** The value as a number of type `to`: as it is, or what a conversion leaves in a new register. */
  function GenConv(v: Operand, from: Ty, to: Ty, g: Gen): (Operand, Gen) {
    if from == to then (v, g)
    else (Reg(g.next), EmitNew(g, Conv(g.next, if from.IntT? then SiToFp else FpToSi, v)))
  }

  /** Both operands as numbers of one type. */
  function GenPromote(a: Operand, s: Ty, b: Operand, t: Ty, g: Gen): (Operand, Operand, Gen) {
    var (a', g1) := GenConv(a, s, Join(s, t), g);
    var (b', g2) := GenConv(b, t, Join(s, t), g1);
    (a', b', g2)
  }

  /** An argument as the parameter wants it; a pointer is passed as it is. */
  function GenPass(v: Operand, from: ExprTy, to: ExprTy, g: Gen): Option<(Operand, Gen)> {
    match (from, to)
    case (PtrTo(_), _) => Some((v, g))
    case (Scalar(s), Scalar(t)) => Some(GenConv(v, s, t, g))
    case _ => None
  }

  /** Code for an expression, and where its value is; None when the generator stops. */
  function GenX(e: Expr, g: Gen, ret: Option<Ty>): Option<(Operand, Gen)>
    decreases e, 0
  {
    match e
    case Num(n) => Some((ConstInt(n), g))
    case FloatNum(x) => Some((ConstFp(x), g))
    case Name(id) =>
      (match Find(g.scope, id)
       case Some(Mem(a, ArrK(_))) => Some((Reg(g.next), EmitNew(g, Gep(g.next, a, [ConstInt(0), ConstInt(0)]))))
       case Some(Mem(a, _)) => Some((Reg(g.next), EmitNew(g, Load(g.next, a))))
       case _ => None)
    case Index(id, x) =>
      (match GenIndex(id, x, g, ret)
       case None => None
       case Some((p, g1)) => Some((Reg(g1.next), EmitNew(g1, Load(g1.next, p)))))
    case AssignName(id, x) =>
      (match (GenX(x, g, ret), TypeX(x, g.scope), Find(g.scope, id))
       case (Some((v, g1)), Scalar(from), Some(Mem(a, NumK(t)))) => Some(GenStore(v, from, t, a, g1))
       case _ => None)
    case AssignIndex(id, x, y) =>
      (match (GenX(y, g, ret), TypeX(y, g.scope), ElementOf(Find(g.scope, id)))
       case (Some((v, g1)), Scalar(from), Scalar(t)) =>
         (match GenIndex(id, x, g1, ret)
          case None => None
          case Some((p, g2)) => Some(GenStore(v, from, t, p, g2)))
       case _ => None)
    case BinX(op, l, r) =>
      (match GenTwo(l, r, g, ret)
       case None => None
       case Some((a, b, t, g1)) => Some((Reg(g1.next), EmitNew(g1, Bin(g1.next, ArithInstr(op, t), a, b)))))
    case RelX(rel, l, r) =>
      (match GenTwo(l, r, g, ret)
       case None => None
       case Some((a, b, t, g1)) =>
         var g2 := EmitNew(g1, Cmp(g1.next, RelInstr(rel, t), a, b));
         Some((Reg(g2.next), EmitNew(g2, Conv(g2.next, ZExt, Reg(g1.next))))))
    case CallX(id, xs) =>
      (match Find(g.scope, id)
       case Some(Fun(fn, params, _)) =>
         (match GenXs(xs, params, g, ret)
          case None => None
          case Some((vs, g1)) =>
            if |vs| != |params| then None else Some((Reg(g1.next), EmitNew(g1, Call(g1.next, fn, vs)))))
       case _ => None)
  }

  /** The value goes to the address, as a number of the type it has there. */
  function GenStore(v: Operand, from: Ty, to: Ty, p: Operand, g: Gen): (Operand, Gen) {
    var (v', g') := GenConv(v, from, to, g);
    (v', Emit(g', Store(v', p)))
  }

  /** Two operands, left before right, then as numbers of one type. */
  function GenTwo(l: Expr, r: Expr, g: Gen, ret: Option<Ty>): Option<(Operand, Operand, Ty, Gen)>
    decreases if l < r then r else l, 1
  {
    match GenX(l, g, ret)
    case None => None
    case Some((a, g1)) =>
      (match (GenX(r, g1, ret), TypeX(l, g.scope), TypeX(r, g.scope))
       case (Some((b, g2)), Scalar(s), Scalar(t)) =>
         var (a', b', g3) := GenPromote(a, s, b, t, g2);
         Some((a', b', Join(s, t), g3))
       case _ => None)
  }

  function GenXs(xs: seq<Expr>, params: seq<ExprTy>, g: Gen, ret: Option<Ty>): Option<(seq<Operand>, Gen)>
    decreases xs, 0
  {
    if xs == [] then Some(([], g))
    else if params == [] then None
    else
      match GenX(xs[0], g, ret)
      case None => None
      case Some((v, g1)) =>
        (match GenPass(v, TypeX(xs[0], g.scope), params[0], g1)
         case None => None
         case Some((v', g2)) =>
           (match GenXs(xs[1..], params[1..], g2, ret) case None => None case Some((vs, g3)) => Some(([v'] + vs, g3))))
  }

  /** The block that ends the function when the index is negative. */
  function GenExcept(g: Gen, fn: nat, ret: Option<Ty>): Gen {
    Emit(EmitNew(g, Call(g.next, fn, [])), DefaultRet(ret))
  }

  function GenElement(b: Binding, v: Operand, g: Gen): Option<(Operand, Gen)> {
    match b
    case Mem(a, NumK(_)) => Some((Reg(g.next), EmitNew(g, Gep(g.next, a, [v]))))
    case Mem(a, PtrK(_)) =>
      var g1 := EmitNew(g, Load(g.next, a));
      Some((Reg(g1.next), EmitNew(g1, Gep(g1.next, Reg(g.next), [v]))))
    case Mem(a, ArrK(_)) => Some((Reg(g.next), EmitNew(g, Gep(g.next, a, [ConstInt(0), v]))))
    case Fun(_, _, _) => None
  }

  /** The test of the index, with control in the block for indices that are not negative. */
  function GenCheck(g: Gen, v: Operand, fn: nat, ret: Option<Ty>): Gen {
    var except, cont := |g.blocks|, |g.blocks| + 1;
    var g1 := NewBlock(NewBlock(g));
    var g2 := EmitNew(g1, Cmp(g1.next, LT, v, ConstInt(0)));
    var g3 := CreateCondBr(g2, Reg(g1.next), except, cont);
    GenExcept(g3.(cur := except), fn, ret).(cur := cont)
  }

  /** The address of an element: the index, a test that it is not negative, a getelementptr. */
  function GenIndex(id: string, x: Expr, g: Gen, ret: Option<Ty>): Option<(Operand, Gen)>
    decreases x, 1
  {
    match (Find(g.scope, id), GenX(x, g, ret), TypeX(x, g.scope), Find(g.scope, NEG_IDX))
    case (Some(b), Some((v, g1)), Scalar(t), Some(Fun(fn, params, _))) =>
      var (n, g2) := GenConv(v, t, IntT, g1);
      if params != [] then None else GenElement(b, n, GenCheck(g2, n, fn, ret))
    case _ => None
  }

  // ----- statements ------------------------------------------------------------------------------------------------

  function SlotFor(t: Ty): SlotType {
    match t case IntT => IntSlot case FloatT => FloatSlot
  }

  function GenDecl(d: Decl, g: Gen): Gen {
    match d.num
    case None =>
      EmitNew(g, Alloca(g.next, SlotFor(d.ty))).(scope := PushName(g.scope, d.id, Mem(Reg(g.next), NumK(d.ty))))
    case Some(n) =>
      Emit(g, Alloca(d.site, ArraySlot(n))).(scope := PushName(g.scope, d.id, Mem(Reg(d.site), ArrK(d.ty))))
  }

  function GenDecls(ds: seq<Decl>, g: Gen): Gen {
    if ds == [] then g else GenDecls(ds[1..], GenDecl(ds[0], g))
  }

  function PopScope(g: Gen): Gen {
    if g.scope == [] then g else g.(scope := g.scope[..|g.scope| - 1])
  }

  /** The condition of an if or a loop, tested against 0. */
  function GenTest(g: Gen, v: Operand, ty: Ty, t: nat, f: nat): Gen {
    CreateCondBr(EmitNew(g, Cmp(g.next, RelInstr(NotEqual, ty), v, Zero(ty))), Reg(g.next), t, f)
  }

  /** Code for a condition, with the type of its value. */
  function GenCond(e: Expr, g: Gen, ret: Option<Ty>): Option<(Operand, Ty, Gen)> {
    match (GenX(e, g, ret), TypeX(e, g.scope))
    case (Some((v, g1)), Scalar(t)) => Some((v, t, g1))
    case _ => None
  }

  function GenS(t: Stmt, g: Gen, ret: Option<Ty>): Option<Gen>
    decreases t, 0
  {
    match t
    case ExprS(None) => Some(g)
    case ExprS(Some(e)) => (match GenX(e, g, ret) case None => None case Some((_, g1)) => Some(g1))
    case ReturnS(None) => Some(Emit(g, Ret(None)))
    case ReturnS(Some(e)) =>
      (match (ret, TypeX(e, g.scope), GenX(e, g, ret))
       case (Some(to), Scalar(from), Some((v, g1))) =>
         var (v', g2) := GenConv(v, from, to, g1);
         Some(Emit(g2, Ret(Some(v'))))
       case _ => None)
    case IfS(e, a, None) =>
      (match GenCond(e, g, ret)
       case None => None
       case Some((v, ty, g1)) =>
         var trueBB, contBB := |g1.blocks|, |g1.blocks| + 1;
         match GenS(a, GenTest(NewBlock(NewBlock(g1)), v, ty, trueBB, contBB).(cur := trueBB), ret)
         case None => None
         case Some(g2) => Some(BrUnlessTerminated(g2, contBB).(cur := contBB)))
    case IfS(e, a, Some(b)) =>
      (match GenCond(e, g, ret)
       case None => None
       case Some((v, ty, g1)) =>
         var trueBB, contBB, falseBB := |g1.blocks|, |g1.blocks| + 1, |g1.blocks| + 2;
         match GenS(a, GenTest(NewBlock(NewBlock(NewBlock(g1))), v, ty, trueBB, falseBB).(cur := trueBB), ret)
         case None => None
         case Some(g2) =>
           (match GenS(b, BrUnlessTerminated(g2, contBB).(cur := falseBB), ret)
            case None => None
            case Some(g3) => Some(BrUnlessTerminated(g3, contBB).(cur := contBB))))
    case WhileS(e, body) =>
      var exprBB := |g.blocks|;
      (match GenCond(e, BrUnlessTerminated(NewBlock(g), exprBB).(cur := exprBB), ret)
       case None => None
       case Some((v, ty, g1)) =>
         var trueBB, contBB := |g1.blocks|, |g1.blocks| + 1;
         match GenS(body, GenTest(NewBlock(NewBlock(g1)), v, ty, trueBB, contBB).(cur := trueBB), ret)
         case None => None
         case Some(g2) => Some(BrUnlessTerminated(g2, exprBB).(cur := contBB)))
    case CompoundS(ds, ts) =>
      (match GenList(ts, GenDecls(ds, g.(scope := g.scope + [map[]])), ret)
       case None => None
       case Some(g1) => Some(PopScope(g1)))
  }

  /** Code after a terminator is not generated. */
  function GenList(ts: seq<Stmt>, g: Gen, ret: Option<Ty>): Option<Gen>
    decreases ts, 0
  {
    if ts == [] then Some(g) else
      match GenS(ts[0], g, ret)
      case None => None
      case Some(g1) => if Terminated(g1) then Some(g1) else GenList(ts[1..], g1, ret)
  }

  // ----- functions ---------------------------------------------------------------------------------------------------

  function ParamSlot(p: Param): SlotType {
    if p.isArray then PtrSlot else SlotFor(p.ty)
  }

  function ParamKind(p: Param): Kind {
    if p.isArray then PtrK(p.ty) else NumK(p.ty)
  }

  function GenParam(p: Param, k: nat, g: Gen): Gen {
    var g1 := EmitNew(g, Alloca(g.next, ParamSlot(p)));
    var g2 := Emit(g1, Store(Arg(k), Reg(g.next)));
    g2.(scope := PushName(g2.scope, p.id, Mem(Reg(g.next), ParamKind(p))))
  }

  function GenParams(ps: seq<Param>, k: nat, g: Gen): Gen {
    if ps == [] then g else GenParams(ps[1..], k + 1, GenParam(ps[0], k, g))
  }

  /** The types of the parameters of a function. */
  function ParamTypes(ps: seq<Param>): seq<ExprTy> {
    seq(|ps|, k requires 0 <= k < |ps| => if ps[k].isArray then PtrTo(ps[k].ty) else Scalar(ps[k].ty))
  }

  /** The names a function sees: those declared before it, and its own. */
  function NamesFor(globals: map<string, Binding>, id: string, fn: nat, fd: FunDecl): map<string, Binding> {
    if id in globals then globals else globals[id := Fun(fn, ParamTypes(fd.params), fd.ret)]
  }

  function GenStart(globals: map<string, Binding>, base: nat): Gen {
    Gen([[]], [[]], [[]], 0, base, [globals, map[]])
  }

  /** The whole function; its parameters and the body share a scope. */
  function GenFun(fd: FunDecl, globals: map<string, Binding>, base: nat): Option<Gen> {
    match GenList(fd.stmts, GenDecls(fd.decls, GenParams(fd.params, 0, GenStart(globals, base))), fd.ret)
    case None => None
    case Some(g) => Some(PopScope(if Terminated(g) then g else Emit(g, DefaultRet(fd.ret))))
  }
}

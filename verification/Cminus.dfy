/** cminus-f: syntax, and what a program does when it is run as written. */
module Cminus {
  import opened IR

  /** Types of numbers. */
  datatype Ty = IntT | FloatT

  /** Types of expressions; NoValue is what a void function returns. */
  datatype ExprTy = Scalar(t: Ty) | PtrTo(t: Ty) | NoValue

  datatype ArithOp = Plus | Minus | Times | Over

  datatype RelOp = Less | LessEq | GreaterEq | Greater | Equal | NotEqual

  datatype Expr =
    | Num(n: int)
    | FloatNum(x: real)
    | Name(id: string)
    | Index(id: string, idx: Expr)
    | AssignName(id: string, rhs: Expr)
    | AssignIndex(id: string, idx: Expr, rhs: Expr)
    | BinX(op: ArithOp, l: Expr, r: Expr)
    | RelX(rel: RelOp, l: Expr, r: Expr)
    | CallX(id: string, args: seq<Expr>)

  /** A number, or an array when `num` is given; `site` names the declaration. */
  datatype Decl = Decl(id: string, ty: Ty, num: Option<nat>, site: nat)

  datatype Stmt =
    | ExprS(e: Option<Expr>)
    | IfS(cond: Expr, thenS: Stmt, elseS: Option<Stmt>)
    | WhileS(cond: Expr, body: Stmt)
    | ReturnS(val: Option<Expr>)
    | CompoundS(decls: seq<Decl>, stmts: seq<Stmt>)

  datatype Param = Param(id: string, ty: Ty, isArray: bool)

  /** `ret` is None for a void function. */
  datatype FunDecl = FunDecl(ret: Option<Ty>, params: seq<Param>, decls: seq<Decl>, stmts: seq<Stmt>)

  /** What a name stands for: a number variable or an array parameter with its value, an array, a global
      variable, a function with the types it takes and returns. */
  datatype Var =
    | NumVar(t: Ty, v: Option<Value>)
    | PtrVar(t: Ty, p: Option<Value>)
    | ArrVar(t: Ty, site: nat)
    | GlobalNum(t: Ty, g: nat)
    | GlobalArr(t: Ty, g: nat)
    | FunVar(fn: nat, params: seq<ExprTy>, ret: Option<Ty>)

  /** Innermost scope last. */
  type Frames = seq<map<string, Var>>

  datatype Src = Src(frames: Frames, world: World)

  /** The value of the innermost declaration of the name. */
  function Lookup(frames: Frames, id: string): Option<Var> {
    if frames == [] then None
    else if id in frames[|frames| - 1] then Some(frames[|frames| - 1][id])
    else Lookup(frames[..|frames| - 1], id)
  }

  /** Changes the innermost declaration of the name. */
  function Update(frames: Frames, id: string, v: Var): (r: Frames)
    ensures |r| == |frames|
  {
    if frames == [] then []
    else var k := |frames| - 1;
      if id in frames[k] then frames[..k] + [frames[k][id := v]] else Update(frames[..k], id, v) + [frames[k]]
  }

  /** The first declaration of a name in a scope counts. */
  function Declare(frames: Frames, id: string, v: Var): (r: Frames)
    requires frames != []
    ensures |r| == |frames|
  {
    var k := |frames| - 1;
    if id in frames[k] then frames else frames[k := frames[k][id := v]]
  }

  // ----- numbers ---------------------------------------------------------------------------------------------

  predicate HasTag(t: Ty, v: Value) {
    match t case IntT => v.Int? case FloatT => v.Flt?
  }

  /** A number as a value of type `t`: an int becomes the float of the same size, a float loses what is
      behind the point. None for what is no number, or too large for an int. */
  function ConvertTo(t: Ty, v: Value): Option<Value> {
    match (t, v)
    case (IntT, Int(n)) => Some(v)
    case (IntT, Flt(x)) => if -TWO_31 <= Truncate(x) < TWO_31 then Some(Int(Truncate(x))) else None
    case (FloatT, Int(n)) => Some(Flt(n as real))
    case (FloatT, Flt(x)) => Some(v)
    case _ => None
  }

  /** Ints wrap around at 32 bits and division cuts off; with a float on either side both are floats. */
  function Arith(op: ArithOp, v: Value, w: Value): Option<Value> {
    match (v, w)
    case (Int(a), Int(b)) => (match IntArith(op, a, b) case Some(n) => Some(Int(n)) case None => None)
    case (Int(a), Flt(y)) => FloatArith(op, a as real, y)
    case (Flt(x), Int(b)) => FloatArith(op, x, b as real)
    case (Flt(x), Flt(y)) => FloatArith(op, x, y)
    case _ => None
  }

  function IntArith(op: ArithOp, a: int, b: int): Option<int> {
    match op
    case Plus => Some(Wrap(a + b))
    case Minus => Some(Wrap(a - b))
    case Times => Some(Wrap(a * b))
    case Over => if b == 0 then None else Some(Wrap(TruncDiv(a, b)))
  }

  function FloatArith(op: ArithOp, x: real, y: real): Option<Value> {
    match op
    case Plus => Some(Flt(x + y))
    case Minus => Some(Flt(x - y))
    case Times => Some(Flt(Product(x, y)))
    case Over => if y == 0.0 then None else Some(Flt(x / y))
  }

  /** Whether the numbers are in the relation; an int and a float are compared as floats. */
  function Compare(rel: RelOp, v: Value, w: Value): Option<bool> {
    match (v, w)
    case (Int(a), Int(b)) => Some(InRelation(rel, a as real, b as real))
    case (Int(a), Flt(y)) => Some(InRelation(rel, a as real, y))
    case (Flt(x), Int(b)) => Some(InRelation(rel, x, b as real))
    case (Flt(x), Flt(y)) => Some(InRelation(rel, x, y))
    case _ => None
  }

  predicate InRelation(rel: RelOp, x: real, y: real) {
    match rel
    case Less => x < y
    case LessEq => x <= y
    case GreaterEq => x >= y
    case Greater => x > y
    case Equal => x == y
    case NotEqual => x != y
  }

  /** Whether a condition is met: it is, when its value is not 0. */
  function Truth(v: Value): Option<bool> {
    match v
    case Int(n) => Some(n != 0)
    case Flt(x) => Some(x != 0.0)
    case _ => None
  }

  // ----- expressions -----------------------------------------------------------------------------------------

  /** `Exit` is what a negative index leads to: the function ends. `Bad` has no meaning. */
  datatype ExprResult = Val(v: Value, s: Src) | Exit(w: World) | Bad

  datatype ArgsResult = Vals(vs: seq<Value>, s: Src) | ExitArgs(w: World) | BadArgs

  const NEG_IDX: string := "neg_idx_except"

  /** A cell of type `t`; one that holds a number of the other type has no meaning as such. */
  function LoadCell(s: Src, t: Ty, g: Region, k: int): ExprResult {
    if (g, k) in s.world.mem && HasTag(t, s.world.mem[(g, k)]) then Val(s.world.mem[(g, k)], s) else Bad
  }

  function ReadVar(env: Env, s: Src, id: string): ExprResult {
    match Lookup(s.frames, id)
    case Some(NumVar(t, Some(v))) => if HasTag(t, v) then Val(v, s) else Bad
    case Some(PtrVar(_, Some(v))) => if v.Ptr? then Val(v, s) else Bad
    case Some(ArrVar(_, site)) => Val(Ptr(LocalArray(env.depth, site), 0), s)
    case Some(GlobalNum(t, g)) => LoadCell(s, t, GlobalVar(g), 0)
    case Some(GlobalArr(_, g)) => Val(Ptr(GlobalVar(g), 0), s)
    case _ => Bad
  }

  /** The element a name and an index stand for. */
  function Element(env: Env, s: Src, id: string, k: int): Option<(Region, int)> {
    match Lookup(s.frames, id)
    case Some(PtrVar(_, Some(Ptr(g, o)))) => Some((g, o + k))
    case Some(ArrVar(_, site)) => Some((LocalArray(env.depth, site), k))
    case Some(GlobalArr(_, g)) => Some((GlobalVar(g), k))
    case _ => None
  }

  /** The type of the elements of what a name stands for. */
  function ElementTy(frames: Frames, id: string): Ty {
    match Lookup(frames, id)
    case Some(FunVar(_, _, _)) => IntT
    case Some(v) => v.t
    case None => IntT
  }

  function ElementAt(env: Env, s: Src, id: string, k: int): ExprResult {
    match Element(env, s, id, k)
    case Some((g, o)) => Val(Ptr(g, o), s)
    case None => Bad
  }

  /** What is read, as a `t`, at the address that `r` holds. */
  function LoadAt(t: Ty, r: ExprResult): ExprResult {
    match r
    case Val(Ptr(g, k), s) => LoadCell(s, t, g, k)
    case Exit(w) => Exit(w)
    case _ => Bad
  }

  /** What comes of storing `v`, as a `t`, at the address that `r` holds. */
  function StoreAt(t: Ty, v: Value, r: ExprResult): ExprResult {
    match r
    case Val(Ptr(g, k), s) =>
      (match ConvertTo(t, v)
       case Some(x) => Val(x, s.(world := s.world.(mem := s.world.mem[(g, k) := x])))
       case None => Bad)
    case Exit(w) => Exit(w)
    case _ => Bad
  }

  /** What comes of assigning the value that `r` holds. */
  function AssignTo(id: string, r: ExprResult): ExprResult {
    match r
    case Val(v, s) => AssignVar(s, id, v)
    case Exit(w) => Exit(w)
    case Bad => Bad
  }

  /** A call that does not return, or not with what the function is declared to return, has no meaning. */
  function CallResult(env: Env, fn: nat, ret: Option<Ty>, vs: seq<Value>, s: Src): ExprResult {
    match env.call(fn, vs, s.world)
    case Some((v, w)) => if ret.Some? && !HasTag(ret.value, v) then Bad else Val(v, s.(world := w))
    case None => Bad
  }

  /** An argument becomes what the parameter is; an array is passed as it is. */
  function PassAs(t: ExprTy, v: Value): Option<Value> {
    if v.Ptr? then Some(v) else match t case Scalar(to) => ConvertTo(to, v) case _ => None
  }

  function MoreArgs(v: Value, r: ArgsResult): ArgsResult {
    match r
    case Vals(vs, s) => Vals([v] + vs, s)
    case ExitArgs(w) => ExitArgs(w)
    case BadArgs => BadArgs
  }

  /** A negative index calls the handler; when that returns at all, the function returns. */
  function NegativeIndex(env: Env, s: Src): ExprResult {
    match Lookup(s.frames, NEG_IDX)
    case Some(FunVar(fn, _, _)) => (match env.call(fn, [], s.world) case Some((_, w)) => Exit(w) case None => Bad)
    case _ => Bad
  }

  /** The variable gets the value, as a number of its own type. */
  function AssignVar(s: Src, id: string, v: Value): ExprResult {
    match Lookup(s.frames, id)
    case Some(NumVar(t, _)) =>
      (match ConvertTo(t, v)
       case Some(x) => Val(x, s.(frames := Update(s.frames, id, NumVar(t, Some(x)))))
       case None => Bad)
    case Some(GlobalNum(t, g)) =>
      (match ConvertTo(t, v)
       case Some(x) => Val(x, s.(world := s.world.(mem := s.world.mem[(GlobalVar(g), 0) := x])))
       case None => Bad)
    case _ => Bad
  }

  function ArithResult(op: ArithOp, v: Value, w: Value, s: Src): ExprResult {
    match Arith(op, v, w) case Some(x) => Val(x, s) case None => Bad
  }

  function CompareResult(rel: RelOp, v: Value, w: Value, s: Src): ExprResult {
    match Compare(rel, v, w) case Some(b) => Val(Bool(b), s) case None => Bad
  }

  /** Expressions; an assignment evaluates its right-hand side before the index of its target. */
  function EvalX(env: Env, e: Expr, s: Src): ExprResult
    decreases e, 0
  {
    match e
    case Num(n) => Val(Int(n), s)
    case FloatNum(x) => Val(Flt(x), s)
    case Name(id) => ReadVar(env, s, id)
    case Index(id, x) => LoadAt(ElementTy(s.frames, id), EvalIndex(env, id, x, s))
    case AssignName(id, x) => AssignTo(id, EvalX(env, x, s))
    case AssignIndex(id, x, y) =>
      (match EvalX(env, y, s)
       case Val(v, s1) => StoreAt(ElementTy(s.frames, id), v, EvalIndex(env, id, x, s1))
       case r => r)
    case BinX(op, l, r) =>
      (match EvalX(env, l, s)
       case Val(v, s1) => (match EvalX(env, r, s1) case Val(w, s2) => ArithResult(op, v, w, s2) case q => q)
       case q => q)
    case RelX(rel, l, r) =>
      (match EvalX(env, l, s)
       case Val(v, s1) => (match EvalX(env, r, s1) case Val(w, s2) => CompareResult(rel, v, w, s2) case q => q)
       case q => q)
    case CallX(id, xs) =>
      (match Lookup(s.frames, id)
       case Some(FunVar(fn, params, ret)) =>
         (match EvalXs(env, params, xs, s)
          case Vals(vs, s1) => CallResult(env, fn, ret, vs, s1)
          case ExitArgs(w) => Exit(w)
          case BadArgs => Bad)
       case _ => Bad)
  }

  /** Arguments from left to right, each made what its parameter is before the next is evaluated. */
  function EvalXs(env: Env, params: seq<ExprTy>, xs: seq<Expr>, s: Src): ArgsResult
    decreases xs, 0
  {
    if xs == [] then Vals([], s)
    else if params == [] then BadArgs
    else
      match EvalX(env, xs[0], s)
      case Val(v, s1) =>
        (match PassAs(params[0], v)
         case Some(x) => MoreArgs(x, EvalXs(env, params[1..], xs[1..], s1))
         case None => BadArgs)
      case Exit(w) => ExitArgs(w)
      case Bad => BadArgs
  }

  /** The address of an element; Val holds it as a pointer. */
  function EvalIndex(env: Env, id: string, x: Expr, s: Src): ExprResult
    decreases x, 1
  {
    match EvalX(env, x, s)
    case Val(v, s1) =>
      (match ConvertTo(IntT, v)
       case Some(Int(k)) => if k < 0 then NegativeIndex(env, s1) else ElementAt(env, s1, id, k)
       case _ => Bad)
    case r => r
  }

  // ----- statements ------------------------------------------------------------------------------------------

  datatype StmtResult = Falls(s: Src) | Returns(v: Option<Value>, w: World) | NoMeaning | Timeout

  /** What a function returns that ends early, or without a return statement. */
  function DefaultResult(ret: Option<Ty>): Option<Value> {
    match ret
    case None => None
    case Some(IntT) => Some(Int(0))
    case Some(FloatT) => Some(Flt(0.0))
  }

  /** An array that is declared again is empty again; a number has no value yet. */
  function ExecDecl(env: Env, d: Decl, s: Src): Src
    requires s.frames != []
  {
    match d.num
    case None => s.(frames := Declare(s.frames, d.id, NumVar(d.ty, None)))
    case Some(_) => Src(Declare(s.frames, d.id, ArrVar(d.ty, d.site)),
                        s.world.(mem := ClearRegion(s.world.mem, LocalArray(env.depth, d.site))))
  }

  function ExecDecls(env: Env, ds: seq<Decl>, s: Src): (r: Src)
    requires s.frames != []
    ensures |r.frames| == |s.frames|
  {
    if ds == [] then s else ExecDecls(env, ds[1..], ExecDecl(env, ds[0], s))
  }

  function Inner(r: StmtResult): StmtResult {
    match r
    case Falls(s) => if s.frames == [] then NoMeaning else Falls(s.(frames := s.frames[..|s.frames| - 1]))
    case _ => r
  }

  /** The value is returned as what the function returns; a void function returns none. */
  function ReturnValue(ret: Option<Ty>, v: Value, w: World): StmtResult {
    match ret
    case None => NoMeaning
    case Some(t) => (match ConvertTo(t, v) case Some(x) => Returns(Some(x), w) case None => NoMeaning)
  }

  datatype CondResult = Met(s: Src) | NotMet(s: Src) | ExitCond(w: World) | BadCond

  function Condition(env: Env, e: Expr, s: Src): CondResult {
    match EvalX(env, e, s)
    case Val(v, s1) => (match Truth(v) case Some(b) => (if b then Met(s1) else NotMet(s1)) case None => BadCond)
    case Exit(w) => ExitCond(w)
    case Bad => BadCond
  }

  /** Statements; every round of a loop takes one unit of fuel. */
  function Exec(env: Env, ret: Option<Ty>, t: Stmt, s: Src, fuel: nat): StmtResult
    decreases fuel, t, 0
  {
    match t
    case ExprS(None) => Falls(s)
    case ExprS(Some(e)) =>
      (match EvalX(env, e, s)
       case Val(_, s1) => Falls(s1)
       case Exit(w) => Returns(DefaultResult(ret), w)
       case Bad => NoMeaning)
    case ReturnS(None) => Returns(None, s.world)
    case ReturnS(Some(e)) =>
      (match EvalX(env, e, s)
       case Val(v, s1) => ReturnValue(ret, v, s1.world)
       case Exit(w) => Returns(DefaultResult(ret), w)
       case Bad => NoMeaning)
    case IfS(e, a, b) =>
      (match Condition(env, e, s)
       case Met(s1) => Exec(env, ret, a, s1, fuel)
       case NotMet(s1) => if b.Some? then Exec(env, ret, b.value, s1, fuel) else Falls(s1)
       case ExitCond(w) => Returns(DefaultResult(ret), w)
       case BadCond => NoMeaning)
    case WhileS(e, body) =>
      (match Condition(env, e, s)
       case NotMet(s1) => Falls(s1)
       case Met(s1) =>
         if fuel == 0 then Timeout
         else (match Exec(env, ret, body, s1, fuel - 1) case Falls(s2) => Exec(env, ret, t, s2, fuel - 1) case r => r)
       case ExitCond(w) => Returns(DefaultResult(ret), w)
       case BadCond => NoMeaning)
    case CompoundS(ds, ts) => Inner(ExecList(env, ret, ts, ExecDecls(env, ds, s.(frames := s.frames + [map[]])), fuel))
  }

  function ExecList(env: Env, ret: Option<Ty>, ts: seq<Stmt>, s: Src, fuel: nat): StmtResult
    decreases fuel, ts, 0
  {
    if ts == [] then Falls(s) else
      match Exec(env, ret, ts[0], s, fuel)
      case Falls(s1) => ExecList(env, ret, ts[1..], s1, fuel)
      case r => r
  }

  function ParamVar(p: Param, v: Value): Var {
    if p.isArray then PtrVar(p.ty, Some(v)) else NumVar(p.ty, Some(v))
  }

  /** Parameters live in the outermost scope of the body, with the values of the arguments. */
  function ParamFrame(params: seq<Param>, args: seq<Value>, frame: map<string, Var>): map<string, Var>
    requires |params| == |args|
    decreases |params|
  {
    if params == [] then frame else
      var v := ParamVar(params[0], args[0]);
      ParamFrame(params[1..], args[1..], if params[0].id in frame then frame else frame[params[0].id := v])
  }

  /** The argument is what the parameter is declared to be. */
  predicate Takes(p: Param, v: Value) {
    if p.isArray then v.Ptr? else HasTag(p.ty, v)
  }

  predicate TakesAll(params: seq<Param>, args: seq<Value>) {
    |args| == |params| && forall k :: 0 <= k < |args| ==> Takes(params[k], args[k])
  }

  /** A call of the function: `globals` are the names declared before it. With other arguments than declared
      it has no meaning. */
  function ExecFun(env: Env, fd: FunDecl, globals: map<string, Var>, w: World, fuel: nat): StmtResult {
    if !TakesAll(fd.params, env.args) then NoMeaning else
      var s := ExecDecls(env, fd.decls, Src([globals, ParamFrame(fd.params, env.args, map[])], w));
      match ExecList(env, fd.ret, fd.stmts, s, fuel)
      case Falls(s1) => Returns(DefaultResult(fd.ret), s1.world)
      case r => r
  }
}

/** LightIR: operands, instructions, blocks, and what one activation of a function does. */
module IR {

  datatype Option<+T> = None | Some(value: T)

  datatype BinOp = Add | Sub | Mul | SDiv | FAdd | FSub | FMul | FDiv

  datatype CmpOp = LT | LE | GE | GT | EQ | NE | FLT | FLE | FGE | FGT | FEQ | FNE

  datatype ConvOp = ZExt | SiToFp | FpToSi

  /** What an operand slot of an instruction can hold; `Reg` is the result of an instruction. */
  datatype Operand = ConstInt(n: int) | ConstFp(x: real) | Arg(i: nat) | GlobalAddr(g: nat) | Reg(r: nat)

  /** What an alloca reserves: an int, a float, a pointer, or an array. */
  datatype SlotType = IntSlot | FloatSlot | PtrSlot | ArraySlot(size: nat)

  datatype Instr =
    | Alloca(dst: nat, ty: SlotType)
    | Load(dst: nat, ptr: Operand)
    | Store(val: Operand, ptr: Operand)
    | Gep(dst: nat, base: Operand, idxs: seq<Operand>)
    | Bin(dst: nat, op: BinOp, l: Operand, r: Operand)
    | Cmp(dst: nat, cmp: CmpOp, l: Operand, r: Operand)
    | Conv(dst: nat, conv: ConvOp, v: Operand)
    | Call(dst: nat, fn: nat, args: seq<Operand>)
    | Br(target: nat)
    | CondBr(cond: Operand, ifTrue: nat, ifFalse: nat)
    | Ret(ret: Option<Operand>)

  /** A phi with its (value, predecessor) pairs; `lval` is the variable it was made for. */
  datatype Phi = Phi(dst: nat, lval: nat, pairs: seq<(Operand, nat)>)

  /** A block; its phis come before the other instructions and are kept in a list of their own. */
  datatype Block = Block(phis: seq<Phi>, body: seq<Instr>)

  predicate IsTerminator(i: Instr) {
    i.Br? || i.CondBr? || i.Ret?
  }

  predicate HasDst(i: Instr) {
    !IsTerminator(i) && !i.Store?
  }

  function Operands(i: Instr): seq<Operand> {
    match i
    case Alloca(_, _) => []
    case Load(_, p) => [p]
    case Store(v, p) => [v, p]
    case Gep(_, b, xs) => [b] + xs
    case Bin(_, _, l, r) => [l, r]
    case Cmp(_, _, l, r) => [l, r]
    case Conv(_, _, v) => [v]
    case Call(_, _, xs) => xs
    case Br(_) => []
    case CondBr(c, _, _) => [c]
    case Ret(None) => []
    case Ret(Some(v)) => [v]
  }

  /** The registers an instruction reads. */
  predicate Uses(i: Instr, r: nat) {
    Reg(r) in Operands(i)
  }

  function Targets(i: Instr): seq<nat> {
    match i
    case Br(t) => [t]
    case CondBr(_, t, f) => [f, t]
    case _ => []
  }

  // ----- values, memory, one activation ----------------------------------------------------------

  /** Memory that other functions can see: global variables and the arrays of each activation. */
  datatype Region = GlobalVar(g: nat) | LocalArray(depth: nat, r: nat)

  /** Floats are real numbers. `SlotPtr` is the address of an int, float or pointer slot of the running
      activation. */
  datatype Value = Int(n: int) | Flt(x: real) | Ptr(region: Region, off: int) | SlotPtr(r: nat, ty: SlotType)

  /** What a slot can hold. */
  predicate SlotHolds(s: SlotType, v: Value) {
    match s
    case IntSlot => v.Int?
    case FloatSlot => v.Flt?
    case PtrSlot => v.Ptr?
    case ArraySlot(_) => false
  }

  /** `trace` is what functions outside the module have done, such as writing output; no instruction
      adds to it, only the oracle that answers calls does. */
  datatype World = World(mem: map<(Region, int), Value>, trace: seq<(nat, seq<Value>)>)

  datatype State = State(regs: map<nat, Value>, slots: map<nat, Value>, world: World)

  /** What a call does to the world; None when it does not return. */
  type Oracle = (nat, seq<Value>, World) -> Option<(Value, World)>

  datatype Env = Env(args: seq<Value>, depth: nat, call: Oracle)

  const TWO_31: int := 0x8000_0000
  const TWO_32: int := 0x1_0000_0000

  /** 32-bit two's complement. */
  function Wrap(n: int): int {
    (n + TWO_31) % TWO_32 - TWO_31
  }

  function Abs(n: int): nat {
    if n < 0 then -n else n
  }

  /** Division that truncates towards zero. */
  function TruncDiv(a: int, b: int): int
    requires b != 0
  {
    if (a < 0) == (b < 0) then Abs(a) / Abs(b) else -(Abs(a) / Abs(b))
  }

  function Product(x: real, y: real): real {
    x * y
  }

  /** What `q` times `b` leaves of `a` is smaller than `b`, and has the sign of `a`. */
  predicate CutsOff(a: int, b: int, q: int) {
    var r := a - q * b;
    (if b > 0 then -b < r < b else b < r < -b) && (a >= 0 ==> r >= 0) && (a <= 0 ==> r <= 0)
  }

  lemma TruncDivCuts(a: int, b: int)
    requires b != 0
    ensures CutsOff(a, b, TruncDiv(a, b))
  {
    var p: int, d: int := Abs(a), Abs(b);
    var k, r := Quotient(p, d);
    Signs(k, d);
    assert TruncDiv(a, b) == if (a < 0) == (b < 0) then k else -k;
    assert TruncDiv(a, b) * b == if a < 0 then -(k * d) else k * d;
  }

  lemma Quotient(p: nat, d: nat) returns (k: int, r: int)
    requires d > 0
    ensures k == p / d && p == k * d + r && 0 <= r < d
  {
    k, r := p / d, p % d;
  }

  lemma Signs(k: int, d: int)
    ensures (-k) * d == -(k * d) && k * (-d) == -(k * d) && (-k) * (-d) == k * d
  {}

  /** That is what division is: there is exactly one such quotient. */
  lemma TruncDivIs(a: int, b: int, q: int)
    requires b != 0
    ensures q == TruncDiv(a, b) <==> CutsOff(a, b, q)
  {
    TruncDivCuts(a, b);
    if CutsOff(a, b, q) { OneQuotient(a, b, q, TruncDiv(a, b)); }
  }

  lemma OneQuotient(a: int, b: int, q: int, t: int)
    requires b != 0 && CutsOff(a, b, q) && CutsOff(a, b, t)
    ensures q == t
  {
    var d := q - t;
    assert d * b == q * b - t * b;
    Signs(d, b);
    Multiple(d, Abs(b));
  }

  lemma Multiple(k: int, d: int)
    requires d > 0
    ensures (k >= 1 ==> k * d >= d) && (k <= -1 ==> k * d <= -d)
  {}

  /** The 32-bit number that differs by a multiple of 2^32. */
  lemma WrapIs(n: int, k: int)
    ensures k == Wrap(n) <==> -0x8000_0000 <= k <= 0x7FFF_FFFF && (n - k) % 0x1_0000_0000 == 0
  {}

  lemma ProductIs(x: real, y: real)
    ensures Product(x, y) == x * y
  {}

  /** None for operands of the wrong type and for a zero divisor. */
  function BinSem(op: BinOp, v: Value, w: Value): Option<Value> {
    match (v, w)
    case (Int(a), Int(b)) =>
      (match op
       case Add => Some(Int(Wrap(a + b)))
       case Sub => Some(Int(Wrap(a - b)))
       case Mul => Some(Int(Wrap(a * b)))
       case SDiv => if b == 0 then None else Some(Int(Wrap(TruncDiv(a, b))))
       case _ => None)
    case (Flt(x), Flt(y)) =>
      (match op
       case FAdd => Some(Flt(x + y))
       case FSub => Some(Flt(x - y))
       case FMul => Some(Flt(Product(x, y)))
       case FDiv => if y == 0.0 then None else Some(Flt(x / y))
       case _ => None)
    case _ => None
  }

  function Bool(b: bool): Value {
    Int(if b then 1 else 0)
  }

  /** None for operands of the wrong type. */
  function CmpSem(op: CmpOp, v: Value, w: Value): Option<Value> {
    match (v, w)
    case (Int(a), Int(b)) =>
      (match op
       case LT => Some(Bool(a < b))
       case LE => Some(Bool(a <= b))
       case GE => Some(Bool(a >= b))
       case GT => Some(Bool(a > b))
       case EQ => Some(Bool(a == b))
       case NE => Some(Bool(a != b))
       case _ => None)
    case (Flt(x), Flt(y)) =>
      (match op
       case FLT => Some(Bool(x < y))
       case FLE => Some(Bool(x <= y))
       case FGE => Some(Bool(x >= y))
       case FGT => Some(Bool(x > y))
       case FEQ => Some(Bool(x == y))
       case FNE => Some(Bool(x != y))
       case _ => None)
    case _ => None
  }

  /** The part of a number before the point. */
  function Truncate(x: real): int {
    if x >= 0.0 then x.Floor else -((-x).Floor)
  }

  /** Cutting off goes towards zero, by less than 1. */
  lemma TruncateIs(x: real)
    ensures x >= 0.0 ==> Truncate(x) as real <= x < Truncate(x) as real + 1.0 && Truncate(x) >= 0
    ensures x <= 0.0 ==> Truncate(x) as real - 1.0 < x <= Truncate(x) as real && Truncate(x) <= 0
  {}

  /** None for an operand of the wrong type, and for a float that is no 32-bit int when cut off. */
  function ConvSem(op: ConvOp, v: Value): Option<Value> {
    match (op, v)
    case (ZExt, Int(n)) => Some(Int(n))
    case (SiToFp, Int(n)) => Some(Flt(n as real))
    case (FpToSi, Flt(x)) => if -TWO_31 <= Truncate(x) < TWO_31 then Some(Int(Truncate(x))) else None
    case _ => None
  }

  predicate IsNumSlot(t: SlotType) {
    t.IntSlot? || t.FloatSlot?
  }

  predicate IsConst(o: Operand) {
    o.ConstInt? || o.ConstFp?
  }

  function Eval(env: Env, regs: map<nat, Value>, o: Operand): Option<Value> {
    match o
    case ConstInt(n) => Some(Int(n))
    case ConstFp(x) => Some(Flt(x))
    case Arg(i) => if i < |env.args| then Some(env.args[i]) else None
    case GlobalAddr(g) => Some(Ptr(GlobalVar(g), 0))
    case Reg(r) => if r in regs then Some(regs[r]) else None
  }

  function EvalAll(env: Env, regs: map<nat, Value>, os: seq<Operand>): Option<seq<Value>> {
    if os == [] then Some([]) else
      match (Eval(env, regs, os[0]), EvalAll(env, regs, os[1..]))
      case (Some(v), Some(vs)) => Some([v] + vs)
      case _ => None
  }

  lemma EvalOne(env: Env, regs: map<nat, Value>, a: Operand)
    ensures EvalAll(env, regs, [a]) == if Eval(env, regs, a).Some? then Some([Eval(env, regs, a).value]) else None
  {
    var os := [a];
    assert os[0] == a && os[1..] == [];
    assert EvalAll(env, regs, []) == Some([]);
    if v :| Eval(env, regs, a) == Some(v) { assert [v] + [] == [v]; }
  }

  lemma EvalTwo(env: Env, regs: map<nat, Value>, a: Operand, b: Operand)
    ensures EvalAll(env, regs, [a, b]) ==
            if Eval(env, regs, a).Some?
               && Eval(env, regs, b).Some? then Some([Eval(env, regs, a).value, Eval(env, regs, b).value]) else None
  {
    EvalOne(env, regs, b);
    var os := [a, b];
    assert os[0] == a && os[1..] == [b];
    if v, w :| Eval(env, regs, a) == Some(v) && Eval(env, regs, b) == Some(w) { assert [v] + [w] == [v, w]; }
  }

  /** The element address: a last index into the object, after a leading 0 for an array object. */
  function GepSem(vs: seq<Value>): Option<Value> {
    if |vs| == 2 && vs[0].Ptr? && vs[1].Int? then Some(Ptr(vs[0].region, vs[0].off + vs[1].n))
    else if |vs| == 3 && vs[0].Ptr? && vs[1] == Int(0) && vs[2].Int? then Some(Ptr(vs[0].region, vs[0].off + vs[2].n))
    else None
  }

  /** The value of an instruction that only computes; None also when an operand has no value. */
  function PureSem(i: Instr, vs: seq<Value>): Option<Value> {
    match i
    case Gep(_, _, _) => GepSem(vs)
    case Bin(_, op, _, _) => if |vs| == 2 then BinSem(op, vs[0], vs[1]) else None
    case Cmp(_, op, _, _) => if |vs| == 2 then CmpSem(op, vs[0], vs[1]) else None
    case Conv(_, op, _) => if |vs| == 1 then ConvSem(op, vs[0]) else None
    case _ => None
  }

  /** One instruction that is neither a phi nor a terminator; None when it has no defined effect. */
  function Step(env: Env, i: Instr, s: State): Option<State> {
    match EvalAll(env, s.regs, Operands(i))
    case None => None
    case Some(vs) => StepOn(env, i, vs, s)
  }

  function ClearRegion(m: map<(Region, int), Value>, g: Region): map<(Region, int), Value> {
    map k | k in m && k.0 != g :: m[k]
  }

  /** The same, given the operand values. A slot or cell that was never written cannot be read, and a slot
      takes values of its own type only. */
  function StepOn(env: Env, i: Instr, vs: seq<Value>, s: State): Option<State> {
    match i
    case Alloca(d, ArraySlot(_)) =>
      var g := LocalArray(env.depth, d);
      Some(State(s.regs[d := Ptr(g, 0)], s.slots, s.world.(mem := ClearRegion(s.world.mem, g))))
    case Alloca(d, _) => Some(State(s.regs[d := SlotPtr(d, i.ty)], s.slots - {d}, s.world))
    case Load(d, _) =>
      if |vs| != 1 then None else
      (match vs[0]
       case SlotPtr(r, _) => if r in s.slots then Some(s.(regs := s.regs[d := s.slots[r]])) else None
       case Ptr(g, k) => if (g, k) in s.world.mem then Some(s.(regs := s.regs[d := s.world.mem[(g, k)]])) else None
       case _ => None)
    case Store(_, _) =>
      if |vs| != 2 then None else
      (match vs[1]
       case SlotPtr(r, t) => if SlotHolds(t, vs[0]) then Some(s.(slots := s.slots[r := vs[0]])) else None
       case Ptr(g, k) => Some(s.(world := s.world.(mem := s.world.mem[(g, k) := vs[0]])))
       case _ => None)
    case Call(d, f, _) =>
      (match env.call(f, vs, s.world)
       case None => None
       case Some((v, w)) => Some(State(s.regs[d := v], s.slots, w)))
    case Gep(d, _, _) => SetReg(s, d, PureSem(i, vs))
    case Bin(d, _, _, _) => SetReg(s, d, PureSem(i, vs))
    case Cmp(d, _, _, _) => SetReg(s, d, PureSem(i, vs))
    case Conv(d, _, _) => SetReg(s, d, PureSem(i, vs))
    case _ => None
  }

  function SetReg(s: State, d: nat, v: Option<Value>): Option<State> {
    if v.None? then None else Some(s.(regs := s.regs[d := v.value]))
  }

  /** Reserving an array empties it, and touches no other cell. */
  lemma AllocaClears(env: Env, d: nat, n: nat, s: State, k: (Region, int))
    ensures Step(env, Alloca(d, ArraySlot(n)), s).Some?
    ensures var w := Step(env, Alloca(d, ArraySlot(n)), s).value.world;
            && w.trace == s.world.trace
            && (k in w.mem <==> k in s.world.mem && k.0 != LocalArray(env.depth, d))
            && (k in w.mem ==> w.mem[k] == s.world.mem[k])
  {}

  /** Instructions that set one register from their operands and the world, and no slot. */
  predicate Computes(i: Instr) {
    i.Gep? || i.Bin? || i.Cmp? || i.Conv? || i.Call?
  }

  function ComputeSem(env: Env, i: Instr, vs: seq<Value>, w: World): Option<(Value, World)>
    requires Computes(i)
  {
    if i.Call? then env.call(i.fn, vs, w)
    else match PureSem(i, vs) case None => None case Some(v) => Some((v, w))
  }

  lemma StepComputes(env: Env, i: Instr, s: State)
    requires Computes(i)
    ensures Step(env, i, s) ==
            match EvalAll(env, s.regs, Operands(i))
            case None => None
            case Some(vs) => match ComputeSem(env, i, vs, s.world)
              case None => None
              case Some((v, w)) => Some(State(s.regs[i.dst := v], s.slots, w))
  {}

  /** How a block ends. */
  datatype Next = Goto(to: nat, s: State) | Return(v: Option<Value>, w: World) | Stuck

  function End(env: Env, i: Instr, s: State): Next {
    match i
    case Br(t) => Goto(t, s)
    case CondBr(c, t, f) =>
      (match Eval(env, s.regs, c)
       case Some(Int(n)) => Goto(if n != 0 then t else f, s)
       case _ => Stuck)
    case Ret(None) => Return(None, s.world)
    case Ret(Some(o)) => (match Eval(env, s.regs, o) case Some(v) => Return(Some(v), s.world) case None => Stuck)
    case _ => Stuck
  }

  function ExecBody(env: Env, body: seq<Instr>, s: State): Next {
    if body == [] then Stuck
    else if IsTerminator(body[0]) then End(env, body[0], s)
    else match Step(env, body[0], s)
      case None => Stuck
      case Some(s') => ExecBody(env, body[1..], s')
  }

  /** The operand a phi takes when its block is entered from `from`. */
  function PairFor(pairs: seq<(Operand, nat)>, from: nat): Option<Operand> {
    if pairs == [] then None
    else if pairs[0].1 == from then Some(pairs[0].0)
    else PairFor(pairs[1..], from)
  }

  /** All phis of a block read the registers as they were on the edge; `regs` collects the results. */
  function EnterPhis(env: Env, phis: seq<Phi>, from: nat, before: map<nat, Value>,
                     regs: map<nat, Value>): map<nat, Value> {
    if phis == [] then regs else
      var regs' := match PairFor(phis[0].pairs, from)
        case None => regs - {phis[0].dst}
        case Some(o) => (match Eval(env, before, o) case None => regs - {phis[0].dst} case Some(v) =>
                         regs[phis[0].dst := v]);
      EnterPhis(env, phis[1..], from, before, regs')
  }

  datatype Outcome = Done(v: Option<Value>, w: World) | Wrong | OutOfFuel

  /** Run from the start of block `b`, entered from `from`, through at most `fuel` blocks. */
  function Run(env: Env, f: seq<Block>, b: nat, from: nat, s: State, fuel: nat): Outcome
    decreases fuel
  {
    if fuel == 0 then OutOfFuel
    else if b >= |f| then Wrong
    else
      match RunBlock(env, f[b], from, s)
      case Goto(t, s') => Run(env, f, t, b, s', fuel - 1)
      case Return(v, w) => Done(v, w)
      case Stuck => Wrong
  }

  /** What block `b` does when it is entered from `from`. */
  function RunBlock(env: Env, k: Block, from: nat, s: State): Next {
    ExecBody(env, k.body, s.(regs := EnterPhis(env, k.phis, from, s.regs, s.regs)))
  }

  /** A whole activation: the entry block, with nothing in registers and slots. */
  function RunFunction(env: Env, f: seq<Block>, w: World, fuel: nat): Outcome {
    Run(env, f, 0, 0, State(map[], map[], w), fuel)
  }

  // ----- runs, point by point --------------------------------------------------------------------------

  /** An activation that starts in world `w` is at the start of block `b`, entered from `from`, after `n`
      blocks. */
  ghost predicate Reaches(env: Env, f: seq<Block>, w: World, n: nat, b: nat, from: nat, s: State)
    decreases n, 1
  {
    if n == 0 then b == 0 && from == 0 && s == State(map[], map[], w)
    else exists from0, s0 :: ReachesBy(env, f, w, n, b, from, s, from0, s0)
  }

  ghost predicate ReachesBy(env: Env, f: seq<Block>, w: World, n: nat, b: nat, from: nat, s: State, from0: nat,
                            s0: State)
    requires n > 0
    decreases n, 0
  {
    from < |f| && Reaches(env, f, w, n - 1, from, from0, s0) && RunBlock(env, f[from], from0, s0) == Goto(b, s)
  }

  /** The state after the first `i` instructions. */
  function Steps(env: Env, body: seq<Instr>, s: State, i: nat): Option<State>
    requires i <= |body|
    decreases i
  {
    if i == 0 then Some(s)
    else match Step(env, body[0], s) case None => None case Some(s1) => Steps(env, body[1..], s1, i - 1)
  }

  // ----- simulation ----------------------------------------------------------------------------------

  /** A relation between two runs at the start of block `b`, entered from `from`. */
  type Relation = (nat, nat, State, State) -> bool

  /** From related states both blocks end alike, again in related states. */
  ghost predicate Agree(env: Env, f: seq<Block>, f': seq<Block>, R: Relation, b: nat, from: nat, s: State, s': State) {
    && |f| == |f'|
    && (b < |f| ==>
          var n, n' := RunBlock(env, f[b], from, s), RunBlock(env, f'[b], from, s');
          && (n.Return? ==> n' == n)
          && (n.Goto? ==> n'.Goto? && n'.to == n.to && R(n.to, b, n.s, n'.s)))
  }

  ghost predicate Simulates(env: Env, f: seq<Block>, f': seq<Block>, R: Relation) {
    forall b: nat, from: nat, s: State, s': State {:trigger R(b, from, s, s')} :: R(b, from, s, s') ==>
             Agree(env, f, f', R, b, from, s, s')
  }

  /** Under a simulation, every terminating run of `f` is matched by `f'`, block for block. */
  lemma {:induction false} Lockstep(env: Env, f: seq<Block>, f': seq<Block>, R: Relation, b: nat, from: nat, s: State,
                                    s': State, fuel: nat)
    requires Simulates(env, f, f', R) && R(b, from, s, s')
    requires Run(env, f, b, from, s, fuel).Done?
    ensures Run(env, f', b, from, s', fuel) == Run(env, f, b, from, s, fuel)
    decreases fuel
  {
    hide RunBlock;
    assert Agree(env, f, f', R, b, from, s, s');
    var n, n' := RunBlock(env, f[b], from, s), RunBlock(env, f'[b], from, s');
    if n.Goto? { Lockstep(env, f, f', R, n.to, b, n.s, n'.s, fuel - 1); }
  }
}

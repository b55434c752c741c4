/** Value expressions of global value numbering: when they are equal, and what they stand for. */
module GvnExpr {
  import opened IR

  /** `x` of a call is the register of the call itself; `bit` tells constants of type i1. */
  datatype Expr =
    | ConstE(v: Value, bit: bool)
    | BinE(op: BinOp, l: Expr, r: Expr)
    | CmpE(cmp: CmpOp, l: Expr, r: Expr)
    | TransE(conv: ConvOp, e: Expr)
    | Single(o: Operand)
    | FuncE(fn: nat, args: seq<Expr>, pure: bool, x: nat)
    | GepE(ops: seq<Expr>)
    | PhiE(lead: Operand, l: Expr, r: Expr)

  /** Equality as the compiler compares: calls are equal when they are the same call, or both pure with
      equal arguments; phis are equal when their operands are. */
  predicate Equiv(a: Expr, b: Expr)
    decreases a
  {
    match (a, b)
    case (ConstE(n, p), ConstE(m, q)) => n == m && p == q
    case (BinE(o, l, r), BinE(o', l', r')) => o == o' && Equiv(l, l') && Equiv(r, r')
    case (CmpE(o, l, r), CmpE(o', l', r')) => o == o' && Equiv(l, l') && Equiv(r, r')
    case (TransE(c, e), TransE(c', e')) => c == c' && Equiv(e, e')
    case (Single(v), Single(v')) => v == v'
    case (FuncE(f, xs, p, x), FuncE(f', xs', p', x')) => x == x' || (p && p' && f == f' && EquivAll(xs, xs'))
    case (GepE(xs), GepE(xs')) => EquivAll(xs, xs')
    case (PhiE(_, l, r), PhiE(_, l', r')) => Equiv(l, l') && Equiv(r, r')
    case _ => false
  }

  predicate EquivAll(xs: seq<Expr>, ys: seq<Expr>)
    decreases xs
  {
    |xs| == |ys| && (xs == [] || (Equiv(xs[0], ys[0]) && EquivAll(xs[1..], ys[1..])))
  }

  // ----- equality is an equivalence on the expressions of one walk -----------------------------------------

  /** Pure calls without the register they were made for. */
  function Norm(e: Expr): Expr
    decreases e
  {
    match e
    case BinE(o, l, r) => BinE(o, Norm(l), Norm(r))
    case CmpE(o, l, r) => CmpE(o, Norm(l), Norm(r))
    case TransE(c, a) => TransE(c, Norm(a))
    case FuncE(f, xs, p, x) => if p then FuncE(f, NormAll(xs), p, 0) else FuncE(0, [], p, x)
    case GepE(xs) => GepE(NormAll(xs))
    case PhiE(_, l, r) => PhiE(ConstInt(0), Norm(l), Norm(r))
    case _ => e
  }

  function NormAll(xs: seq<Expr>): seq<Expr>
    decreases xs
  {
    if xs == [] then [] else [Norm(xs[0])] + NormAll(xs[1..])
  }

  /** Every call has got one expression. */
  ghost predicate Labelled(lab: map<nat, Expr>, e: Expr)
    decreases e
  {
    match e
    case BinE(_, l, r) => Labelled(lab, l) && Labelled(lab, r)
    case CmpE(_, l, r) => Labelled(lab, l) && Labelled(lab, r)
    case TransE(_, a) => Labelled(lab, a)
    case FuncE(_, xs, _, x) => x in lab && lab[x] == e && AllLabelled(lab, xs)
    case GepE(xs) => AllLabelled(lab, xs)
    case PhiE(_, l, r) => Labelled(lab, l) && Labelled(lab, r)
    case _ => true
  }

  ghost predicate AllLabelled(lab: map<nat, Expr>, xs: seq<Expr>)
    decreases xs
  {
    xs == [] || (Labelled(lab, xs[0]) && AllLabelled(lab, xs[1..]))
  }

  lemma {:induction false} EquivIsNorm(lab: map<nat, Expr>, a: Expr, b: Expr)
    requires Labelled(lab, a) && Labelled(lab, b)
    ensures Equiv(a, b) <==> Norm(a) == Norm(b)
    decreases a
  {
    match (a, b)
    case (BinE(_, l, r), BinE(_, l', r')) => EquivIsNorm(lab, l, l'); EquivIsNorm(lab, r, r');
    case (CmpE(_, l, r), CmpE(_, l', r')) => EquivIsNorm(lab, l, l'); EquivIsNorm(lab, r, r');
    case (TransE(_, e), TransE(_, e')) => EquivIsNorm(lab, e, e');
    case (FuncE(_, xs, _, _), FuncE(_, xs', _, _)) => EquivAllIsNorm(lab, xs, xs');
    case (GepE(xs), GepE(xs')) => EquivAllIsNorm(lab, xs, xs');
    case (PhiE(_, l, r), PhiE(_, l', r')) => EquivIsNorm(lab, l, l'); EquivIsNorm(lab, r, r');
    case _ =>
  }

  lemma {:induction false} EquivAllIsNorm(lab: map<nat, Expr>, xs: seq<Expr>, ys: seq<Expr>)
    requires AllLabelled(lab, xs) && AllLabelled(lab, ys)
    ensures EquivAll(xs, ys) <==> NormAll(xs) == NormAll(ys)
    decreases xs
  {
    NormLength(xs);
    NormLength(ys);
    if xs != [] && ys != [] {
      EquivIsNorm(lab, xs[0], ys[0]);
      EquivAllIsNorm(lab, xs[1..], ys[1..]);
      assert NormAll(xs)[0] == Norm(xs[0]) && NormAll(xs)[1..] == NormAll(xs[1..]);
      assert NormAll(ys)[0] == Norm(ys[0]) && NormAll(ys)[1..] == NormAll(ys[1..]);
    }
  }

  lemma {:induction false} NormLength(xs: seq<Expr>)
    ensures |NormAll(xs)| == |xs|
  {
    if xs != [] { NormLength(xs[1..]); }
  }

  // ----- what an expression stands for ---------------------------------------------------------------------

  /** What the pure functions compute from their arguments. */
  type PureFn = (nat, seq<Value>) -> Value

  function BinOf(op: BinOp, a: Option<Value>, b: Option<Value>): Option<Value> {
    if a.Some? && b.Some? then BinSem(op, a.value, b.value) else None
  }

  function CmpOf(op: CmpOp, a: Option<Value>, b: Option<Value>): Option<Value> {
    if a.Some? && b.Some? then CmpSem(op, a.value, b.value) else None
  }

  function EvalE(env: Env, regs: map<nat, Value>, e: Expr): Option<Value>
    decreases e
  {
    match e
    case ConstE(v, _) => Some(v)
    case BinE(op, l, r) => BinOf(op, EvalE(env, regs, l), EvalE(env, regs, r))
    case CmpE(op, l, r) => CmpOf(op, EvalE(env, regs, l), EvalE(env, regs, r))
    case TransE(c, a) => (match EvalE(env, regs, a) case Some(v) => ConvSem(c, v) case None => None)
    case Single(v) => Eval(env, regs, v)
    case FuncE(_, _, _, x) => Eval(env, regs, Reg(x))
    case GepE(xs) => (match EvalEs(env, regs, xs) case Some(vs) => GepSem(vs) case None => None)
    case PhiE(_, _, _) => None
  }

  function EvalEs(env: Env, regs: map<nat, Value>, xs: seq<Expr>): Option<seq<Value>>
    decreases xs
  {
    if xs == [] then Some([]) else
      match (EvalE(env, regs, xs[0]), EvalEs(env, regs, xs[1..]))
      case (Some(v), Some(vs)) => Some([v] + vs)
      case _ => None
  }

  /** Every pure call in the expression has the value its function computes from its arguments. */
  ghost predicate CallsOk(env: Env, F: PureFn, regs: map<nat, Value>, e: Expr)
    decreases e
  {
    match e
    case BinE(_, l, r) => CallsOk(env, F, regs, l) && CallsOk(env, F, regs, r)
    case CmpE(_, l, r) => CallsOk(env, F, regs, l) && CallsOk(env, F, regs, r)
    case TransE(_, a) => CallsOk(env, F, regs, a)
    case FuncE(f, xs, p, x) => AllCallsOk(env, F, regs, xs) &&
      (p ==> EvalEs(env, regs, xs).Some? && x in regs && regs[x] == F(f, EvalEs(env, regs, xs).value))
    case GepE(xs) => AllCallsOk(env, F, regs, xs)
    case PhiE(_, l, r) => CallsOk(env, F, regs, l) && CallsOk(env, F, regs, r)
    case _ => true
  }

  ghost predicate AllCallsOk(env: Env, F: PureFn, regs: map<nat, Value>, xs: seq<Expr>)
    decreases xs
  {
    xs == [] || (CallsOk(env, F, regs, xs[0]) && AllCallsOk(env, F, regs, xs[1..]))
  }

  /** Equal expressions have equal values. */
  lemma {:induction false} EquivSameValue(env: Env, F: PureFn, regs: map<nat, Value>, a: Expr, b: Expr)
    requires Equiv(a, b) && CallsOk(env, F, regs, a) && CallsOk(env, F, regs, b)
    ensures EvalE(env, regs, a) == EvalE(env, regs, b)
    decreases a
  {
    match (a, b)
    case (BinE(_, l, r), BinE(_, l', r')) => EquivSameValue(env, F, regs, l, l'); EquivSameValue(env, F, regs, r, r');
    case (CmpE(_, l, r), CmpE(_, l', r')) => EquivSameValue(env, F, regs, l, l'); EquivSameValue(env, F, regs, r, r');
    case (TransE(_, e), TransE(_, e')) => EquivSameValue(env, F, regs, e, e');
    case (FuncE(_, xs, _, x), FuncE(_, xs', _, x')) => if x != x' { EquivSameValues(env, F, regs, xs, xs'); }
    case (GepE(xs), GepE(xs')) => EquivSameValues(env, F, regs, xs, xs');
    case _ =>
  }

  lemma {:induction false} EquivSameValues(env: Env, F: PureFn, regs: map<nat, Value>, xs: seq<Expr>, ys: seq<Expr>)
    requires EquivAll(xs, ys) && AllCallsOk(env, F, regs, xs) && AllCallsOk(env, F, regs, ys)
    ensures EvalEs(env, regs, xs) == EvalEs(env, regs, ys)
    decreases xs
  {
    if xs != [] {
      EquivSameValue(env, F, regs, xs[0], ys[0]);
      EquivSameValues(env, F, regs, xs[1..], ys[1..]);
    }
  }

  // ----- registers an expression names ----------------------------------------------------------------------

  ghost predicate Names(avail: set<nat>, e: Expr)
    decreases e
  {
    match e
    case BinE(_, l, r) => Names(avail, l) && Names(avail, r)
    case CmpE(_, l, r) => Names(avail, l) && Names(avail, r)
    case TransE(_, a) => Names(avail, a)
    case Single(v) => v.Reg? ==> v.r in avail
    case FuncE(_, xs, _, x) => x in avail && AllNames(avail, xs)
    case GepE(xs) => AllNames(avail, xs)
    case PhiE(_, l, r) => Names(avail, l) && Names(avail, r)
    case _ => true
  }

  ghost predicate AllNames(avail: set<nat>, xs: seq<Expr>)
    decreases xs
  {
    xs == [] || (Names(avail, xs[0]) && AllNames(avail, xs[1..]))
  }

  lemma {:induction false} NamesGrow(avail: set<nat>, avail': set<nat>, lab: map<nat, Expr>, lab': map<nat, Expr>,
                                     e: Expr)
    requires Names(avail, e) && avail <= avail' && Labelled(lab, e) && forall x :: x in lab ==>
               x in lab' && lab'[x] == lab[x]
    ensures Names(avail', e) && Labelled(lab', e)
    decreases e
  {
    match e
    case BinE(_, l, r) => NamesGrow(avail, avail', lab, lab', l); NamesGrow(avail, avail', lab, lab', r);
    case CmpE(_, l, r) => NamesGrow(avail, avail', lab, lab', l); NamesGrow(avail, avail', lab, lab', r);
    case TransE(_, a) => NamesGrow(avail, avail', lab, lab', a);
    case FuncE(_, xs, _, _) => AllNamesGrow(avail, avail', lab, lab', xs);
    case GepE(xs) => AllNamesGrow(avail, avail', lab, lab', xs);
    case PhiE(_, l, r) => NamesGrow(avail, avail', lab, lab', l); NamesGrow(avail, avail', lab, lab', r);
    case _ =>
  }

  lemma {:induction false} AllNamesGrow(avail: set<nat>, avail': set<nat>, lab: map<nat, Expr>, lab': map<nat, Expr>,
                                        xs: seq<Expr>)
    requires AllNames(avail, xs) && avail <= avail' && AllLabelled(lab, xs) && forall x :: x in lab ==>
               x in lab' && lab'[x] == lab[x]
    ensures AllNames(avail', xs) && AllLabelled(lab', xs)
    decreases xs
  {
    if xs != [] {
      NamesGrow(avail, avail', lab, lab', xs[0]);
      AllNamesGrow(avail, avail', lab, lab', xs[1..]);
    }
  }

  /** Writing a register that an expression does not name leaves its value alone. */
  lemma {:induction false} EvalFrame(env: Env, F: PureFn, regs: map<nat, Value>, d: nat, v: Value, avail: set<nat>,
                                     e: Expr)
    requires Names(avail, e) && d !in avail
    ensures EvalE(env, regs[d := v], e) == EvalE(env, regs, e)
    ensures CallsOk(env, F, regs, e) ==> CallsOk(env, F, regs[d := v], e)
    decreases e
  {
    match e
    case BinE(_, l, r) => EvalFrame(env, F, regs, d, v, avail, l); EvalFrame(env, F, regs, d, v, avail, r);
    case CmpE(_, l, r) => EvalFrame(env, F, regs, d, v, avail, l); EvalFrame(env, F, regs, d, v, avail, r);
    case TransE(_, a) => EvalFrame(env, F, regs, d, v, avail, a);
    case FuncE(_, xs, _, _) => EvalAllFrame(env, F, regs, d, v, avail, xs);
    case GepE(xs) => EvalAllFrame(env, F, regs, d, v, avail, xs);
    case PhiE(_, l, r) => EvalFrame(env, F, regs, d, v, avail, l); EvalFrame(env, F, regs, d, v, avail, r);
    case _ =>
  }

  lemma {:induction false} EvalAllFrame(env: Env, F: PureFn, regs: map<nat, Value>, d: nat, v: Value, avail: set<nat>,
                                        xs: seq<Expr>)
    requires AllNames(avail, xs) && d !in avail
    ensures EvalEs(env, regs[d := v], xs) == EvalEs(env, regs, xs)
    ensures AllCallsOk(env, F, regs, xs) ==> AllCallsOk(env, F, regs[d := v], xs)
    decreases xs
  {
    if xs != [] {
      EvalFrame(env, F, regs, d, v, avail, xs[0]);
      EvalAllFrame(env, F, regs, d, v, avail, xs[1..]);
    }
  }
}

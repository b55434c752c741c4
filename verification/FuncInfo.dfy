/** Which functions are pure: local marks, spread to callers by a worklist. */
module FuncInfo {
  import opened IR
  import opened DeadCode

  datatype ParamType = IntParam | FloatParam | PtrParam

  /** A function without blocks is a declaration. */
  datatype Function = Function(isMain: bool, params: seq<ParamType>, blocks: seq<Block>)

  type Module = seq<Function>

  // ----- addresses -------------------------------------------------------------------------------------

  /** What a pointer is computed from: through getelementptr, and through the first operand of a phi.
      None when `steps` steps do not suffice, which only happens on a cycle. The original also looks through
      the first pointer operand of any other instruction; of those that compute a value only a call has one,
      and its result is a number. */
  function FirstAddr(defs: map<nat, Item>, o: Operand, steps: nat): Option<Operand>
    decreases steps
  {
    if !o.Reg? || o.r !in defs then Some(o)
    else match defs[o.r]
      case InstrItem(Gep(_, base, _)) => if steps == 0 then None else FirstAddr(defs, base, steps - 1)
      case PhiItem(p) => if p.pairs == [] then Some(o) else if steps == 0 then None
           else FirstAddr(defs, p.pairs[0].0, steps - 1)
      case _ => Some(o)
  }

  predicate IsAlloca(defs: map<nat, Item>, o: Operand) {
    o.Reg? && o.r in defs && defs[o.r].InstrItem? && defs[o.r].i.Alloca?
  }

  predicate IsLocal(defs: map<nat, Item>, o: Operand) {
    var a := FirstAddr(defs, o, |defs|);
    a.Some? && IsAlloca(defs, a.value)
  }

  /** A load or store through anything that is not an alloca of the function. */
  predicate SideEffect(defs: map<nat, Item>, i: Instr) {
    (i.Store? || i.Load?) && !IsLocal(defs, i.ptr)
  }

  predicate SideEffects(defs: map<nat, Item>, f: seq<Block>) {
    exists b, i {:trigger i in f[b].body} :: 0 <= b < |f| && i in f[b].body && SideEffect(defs, i)
  }

  ghost predicate ModuleOk(m: Module) {
    && (forall f: nat :: f < |m| ==> UniqueDefs(m[f].blocks))
    && (forall f: nat, g: nat {:trigger Calls(m, f, g)} :: f < |m| && Calls(m, f, g) ==> g < |m|)
  }

  /** Impure by itself: a declaration, main, a pointer parameter, or a side effect. */
  predicate TrivialImpure(m: Module, f: nat)
    requires f < |m| && UniqueDefs(m[f].blocks)
  {
    m[f].blocks == [] || m[f].isMain || PtrParam in m[f].params || SideEffects(DefMap(m[f].blocks), m[f].blocks)
  }

  // ----- what a function is impure for ------------------------------------------------------------------------

  /** The address in `r` is computed from the one in `q`. */
  ghost predicate Follows(f: seq<Block>, r: nat, q: nat) {
    || (exists i :: InstrItem(i) in Items(f) && i.Gep? && i.dst == r && i.base == Reg(q))
    || (exists p :: PhiItem(p) in Items(f) && p.dst == r && p.pairs != [] && p.pairs[0].0 == Reg(q))
  }

  ghost predicate SetByAlloca(f: seq<Block>, r: nat) {
    exists i :: InstrItem(i) in Items(f) && i.Alloca? && i.dst == r
  }

  /** A way back from an address to the alloca that it is computed from. */
  ghost predicate Trace(f: seq<Block>, p: seq<nat>) {
    p != [] && SetByAlloca(f, p[|p| - 1]) && forall k :: 0 <= k < |p| - 1 ==> Follows(f, p[k], p[k + 1])
  }

  ghost predicate OwnAddress(f: seq<Block>, o: Operand) {
    o.Reg? && exists p :: Trace(f, p) && p[0] == o.r
  }

  lemma FollowsIs(f: seq<Block>, r: nat, q: nat)
    requires UniqueDefs(f)
    ensures Follows(f, r, q) <==>
            r in DefMap(f) && match DefMap(f)[r]
                              case InstrItem(i) => i.Gep? && i.base == Reg(q)
                              case PhiItem(p) => p.pairs != [] && p.pairs[0].0 == Reg(q)
  {
    hide UniqueDefs, Items;
    forall i | InstrItem(i) in Items(f) && i.Gep? && i.dst == r ensures r in DefMap(f) && DefMap(f)[r] == InstrItem(i) {
      assert ItemDst(InstrItem(i)) == r;
    }
    forall p | PhiItem(p) in Items(f) && p.dst == r ensures r in DefMap(f) && DefMap(f)[r] == PhiItem(p) {
      assert ItemDst(PhiItem(p)) == r;
    }
  }

  lemma SetByAllocaIs(f: seq<Block>, r: nat)
    requires UniqueDefs(f)
    ensures SetByAlloca(f, r) <==> IsAlloca(DefMap(f), Reg(r))
  {
    hide UniqueDefs, Items;
    forall i | InstrItem(i) in Items(f) && i.Alloca? && i.dst == r
      ensures r in DefMap(f) && DefMap(f)[r] == InstrItem(i)
    {
      assert ItemDst(InstrItem(i)) == r;
    }
  }

  lemma {:induction false} AddrTraced(f: seq<Block>, r: nat, n: nat) returns (p: seq<nat>)
    requires UniqueDefs(f) && FirstAddr(DefMap(f), Reg(r), n).Some?
             && IsAlloca(DefMap(f), FirstAddr(DefMap(f), Reg(r), n).value)
    ensures Trace(f, p) && p[0] == r
    decreases n
  {
    hide UniqueDefs, Items, Follows, SetByAlloca;
    var defs := DefMap(f);
    p := [r];
    if IsAlloca(defs, Reg(r)) {
      SetByAllocaIs(f, r);
    } else {
      var next := if defs[r].PhiItem? then defs[r].p.pairs[0].0 else defs[r].i.base;
      FollowsIs(f, r, next.r);
      var q := AddrTraced(f, next.r, n - 1);
      p := [r] + q;
      assert forall k :: 0 <= k < |q| ==> p[k + 1] == q[k];
      forall k | 0 <= k < |p| - 1 ensures Follows(f, p[k], p[k + 1]) {
        assert k > 0 ==> p[k] == q[k - 1];
      }
    }
  }

  lemma {:induction false} TracedAddr(f: seq<Block>, p: seq<nat>, n: nat)
    requires UniqueDefs(f) && Trace(f, p) && |p| <= n + 1
    ensures FirstAddr(DefMap(f), Reg(p[0]), n) == Some(Reg(p[|p| - 1])) && IsAlloca(DefMap(f), Reg(p[|p| - 1]))
    decreases |p|
  {
    hide UniqueDefs, Items, Follows, SetByAlloca;
    SetByAllocaIs(f, p[|p| - 1]);
    if |p| > 1 {
      FollowsIs(f, p[0], p[1]);
      assert Follows(f, p[0], p[0 + 1]);
      forall k | 0 <= k < |p[1..]| - 1 ensures Follows(f, p[1..][k], p[1..][k + 1]) {
        assert Follows(f, p[k + 1], p[k + 2]);
      }
      TracedAddr(f, p[1..], n - 1);
    }
  }

  /** A way back need not visit a register twice. */
  lemma {:induction false} ShortTrace(f: seq<Block>, p: seq<nat>) returns (q: seq<nat>)
    requires Trace(f, p)
    ensures Trace(f, q) && q[0] == p[0] && NoDuplicates(q)
    decreases |p|
  {
    hide Follows, SetByAlloca;
    q := p;
    if !NoDuplicates(p) {
      var i, j :| 0 <= i < j < |p| && p[i] == p[j];
      var c := p[..i] + p[j..];
      forall k | 0 <= k < |c| - 1 ensures Follows(f, c[k], c[k + 1]) {
        if k >= i { assert Follows(f, p[k + j - i], p[k + j - i + 1]); } else { assert Follows(f, p[k], p[k + 1]); }
      }
      q := ShortTrace(f, c);
    }
  }

  lemma TraceDefined(f: seq<Block>, p: seq<nat>)
    requires UniqueDefs(f) && Trace(f, p)
    ensures forall r :: r in p ==> r in DefMap(f)
  {
    hide UniqueDefs, Items, Follows, SetByAlloca;
    forall k | 0 <= k < |p| ensures p[k] in DefMap(f) {
      if k < |p| - 1 { FollowsIs(f, p[k], p[k + 1]); } else { SetByAllocaIs(f, p[k]); }
    }
  }

  /** The analysis finds exactly the addresses that lead back to an alloca. */
  lemma LocalIsOwn(f: seq<Block>, o: Operand)
    requires UniqueDefs(f)
    ensures IsLocal(DefMap(f), o) <==> OwnAddress(f, o)
  {
    hide UniqueDefs, Items, Follows, SetByAlloca;
    if IsLocal(DefMap(f), o) {
      LocalIsReg(DefMap(f), o, |DefMap(f)|);
      var p := AddrTraced(f, o.r, |DefMap(f)|);
    }
    if OwnAddress(f, o) {
      var p :| Trace(f, p) && p[0] == o.r;
      var q := ShortTrace(f, p);
      TraceDefined(f, q);
      DistinctSize(q);
      SubsetSize(Elements(q), DefMap(f).Keys);
      TracedAddr(f, q, |DefMap(f)|);
    }
  }

  lemma LocalIsReg(defs: map<nat, Item>, o: Operand, n: nat)
    requires FirstAddr(defs, o, n).Some? && IsAlloca(defs, FirstAddr(defs, o, n).value)
    ensures o.Reg?
  {}

  ghost predicate Accesses(f: seq<Block>, o: Operand) {
    exists b, i :: 0 <= b < |f| && i in f[b].body && (i.Load? || i.Store?) && i.ptr == o
  }

  /** Impure by itself, exactly: only declared, main, with an array parameter, or with a load or store
      through an address that does not lead back to an alloca. */
  lemma TrivialIs(m: Module, f: nat)
    requires f < |m| && UniqueDefs(m[f].blocks)
    ensures var fn := m[f];
            TrivialImpure(m, f) <==>
            || fn.blocks == [] || fn.isMain || (exists k :: 0 <= k < |fn.params| && fn.params[k].PtrParam?)
            || exists o :: Accesses(fn.blocks, o) && !OwnAddress(fn.blocks, o)
  {
    hide UniqueDefs, Items, OwnAddress;
    var fn := m[f];
    var defs := DefMap(fn.blocks);
    forall o ensures IsLocal(defs, o) <==> OwnAddress(fn.blocks, o) { LocalIsOwn(fn.blocks, o); }
    if SideEffects(defs, fn.blocks) {
      var b, i :| 0 <= b < |fn.blocks| && i in fn.blocks[b].body && SideEffect(defs, i);
      assert Accesses(fn.blocks, i.ptr);
    }
    if o :| Accesses(fn.blocks, o) && !OwnAddress(fn.blocks, o) {
      var b, i :| 0 <= b < |fn.blocks| && i in fn.blocks[b].body && (i.Load? || i.Store?) && i.ptr == o;
      assert SideEffect(defs, i);
    }
    if PtrParam in fn.params { var k :| 0 <= k < |fn.params| && fn.params[k] == PtrParam; }
  }

  /** A defined function other than main that takes numbers, loads and stores its own variables only, and
      calls nothing. */
  ghost predicate Simple(fn: Function) {
    && fn.blocks != [] && !fn.isMain
    && (forall k :: 0 <= k < |fn.params| ==> fn.params[k].IntParam? || fn.params[k].FloatParam?)
    && (forall b, i :: 0 <= b < |fn.blocks| && i in fn.blocks[b].body ==>
          !i.Call? && (i.Load? || i.Store? ==> i.ptr.Reg? && SetByAlloca(fn.blocks, i.ptr.r)))
  }

  lemma SimpleIsPure(m: Module, f: nat)
    requires ModuleOk(m) && f < |m| && Simple(m[f])
    ensures !Impure(m, f)
  {
    hide UniqueDefs, Items, SetByAlloca;
    if Impure(m, f) {
      var p :| ImpurePath(m, f, p);
      NoCalls(m, f, p);
      SimpleNotTrivial(m, f);
    }
  }

  lemma SimpleNotTrivial(m: Module, f: nat)
    requires ModuleOk(m) && f < |m| && Simple(m[f])
    ensures !TrivialImpure(m, f)
  {
    hide UniqueDefs, Items, SetByAlloca;
    var f0 := m[f].blocks;
    TrivialIs(m, f);
    forall o | Accesses(f0, o) ensures OwnAddress(f0, o) { assert Trace(f0, [o.r]); }
  }

  lemma NoCalls(m: Module, f: nat, p: seq<nat>)
    requires f < |m| && Simple(m[f]) && CallPath(m, p) && p[0] == f
    ensures |p| == 1
  {
    forall g ensures !Calls(m, f, g) {}
  }

  predicate CallsIn(body: seq<Instr>, g: nat) {
    exists i :: i in body && i.Call? && i.fn == g
  }

  predicate Calls(m: Module, f: nat, g: nat)
    requires f < |m|
  {
    exists b {:trigger m[f].blocks[b]} :: 0 <= b < |m[f].blocks| && CallsIn(m[f].blocks[b].body, g)
  }

  /** A function calls what its call instructions name. */
  lemma CallsIs(m: Module, f: nat, g: nat)
    requires f < |m|
    ensures Calls(m, f, g) <==>
            exists b, k, d, xs :: 0 <= b < |m[f].blocks| && 0 <= k < |m[f].blocks[b].body|
                                  && m[f].blocks[b].body[k] == Call(d, g, xs)
  {
    if Calls(m, f, g) {
      var b :| 0 <= b < |m[f].blocks| && CallsIn(m[f].blocks[b].body, g);
      var i :| i in m[f].blocks[b].body && i.Call? && i.fn == g;
      var k :| 0 <= k < |m[f].blocks[b].body| && m[f].blocks[b].body[k] == i;
      assert m[f].blocks[b].body[k] == Call(i.dst, g, i.args);
    }
    if b, k, d, xs :| 0 <= b < |m[f].blocks| && 0 <= k < |m[f].blocks[b].body|
                      && m[f].blocks[b].body[k] == Call(d, g, xs) {
      assert Call(d, g, xs) in m[f].blocks[b].body;
      assert CallsIn(m[f].blocks[b].body, g);
    }
  }

  /** `p` leads from its first to its last function by calls. */
  ghost predicate CallPath(m: Module, p: seq<nat>)
    decreases |p|
  {
    && p != [] && p[0] < |m|
    && (|p| > 1 ==> Calls(m, p[0], p[1]) && CallPath(m, p[1..]))
  }

  /** Some chain of calls leads to a function that is impure by itself. */
  ghost predicate Impure(m: Module, f: nat)
    requires ModuleOk(m)
  {
    exists p :: ImpurePath(m, f, p)
  }

  ghost predicate ImpurePath(m: Module, f: nat, p: seq<nat>)
    requires ModuleOk(m)
  {
    CallPath(m, p) && p[0] == f && p[|p| - 1] < |m| && TrivialImpure(m, p[|p| - 1])
  }

  lemma TrivialIsImpure(m: Module, f: nat)
    requires ModuleOk(m) && f < |m| && TrivialImpure(m, f)
    ensures Impure(m, f)
  {
    assert ImpurePath(m, f, [f]);
  }

  lemma ImpureCaller(m: Module, f: nat, g: nat)
    requires ModuleOk(m) && f < |m| && Calls(m, f, g) && Impure(m, g)
    ensures Impure(m, f)
  {
    var p :| ImpurePath(m, g, p);
    assert ([f] + p)[1..] == p;
    assert ImpurePath(m, f, [f] + p);
  }

  /** A set of functions that holds the trivially impure ones and all callers holds every impure one. */
  lemma {:induction false} ImpureInside(m: Module, T: set<nat>, p: seq<nat>)
    requires ModuleOk(m) && CallPath(m, p) && p[|p| - 1] < |m| && TrivialImpure(m, p[|p| - 1])
    requires forall f: nat :: f < |m| && TrivialImpure(m, f) ==> f in T
    requires forall f: nat, g: nat {:trigger Calls(m, f, g)} :: f < |m| && g in T && Calls(m, f, g) ==> f in T
    ensures p[0] in T
    decreases |p|
  {
    if |p| > 1 { ImpureInside(m, T, p[1..]); }
  }

  lemma AllFound(m: Module, isPure: map<nat, bool>, entered: seq<nat>)
    requires ModuleOk(m) && forall x: nat :: x < |m| ==> x in isPure
    requires forall x: nat :: x in entered <==> x < |m| && !isPure[x]
    requires forall x: nat :: x < |m| && TrivialImpure(m, x) ==> x in entered
    requires forall x: nat, y: nat {:trigger Calls(m, x, y)} :: x < |m| && y in entered && Calls(m, x, y) ==> !isPure[x]
    ensures forall x: nat :: x < |m| && Impure(m, x) ==> !isPure[x]
  {
    hide TrivialImpure, UniqueDefs, Calls;
    forall x: nat | x < |m| && Impure(m, x)
      ensures !isPure[x]
    {
      var p :| ImpurePath(m, x, p);
      ImpureInside(m, Elements(entered), p);
    }
  }

  class Analysis {
    const m: Module
    var isPure: map<nat, bool>
    var worklist: seq<nat>

    constructor (m: Module)
      ensures this.m == m && worklist == []
    {
      this.m, isPure, worklist := m, map[], [];
    }

    method TrivialMark(f: nat)
      requires f < |m| && UniqueDefs(m[f].blocks)
      modifies this`isPure
      ensures isPure == old(isPure)[f := !TrivialImpure(m, f)]
    {
      var fn := m[f];
      if fn.blocks == [] || fn.isMain {
        isPure := isPure[f := false];
        return;
      }
      var k := 0;
      while k < |fn.params|
        invariant 0 <= k <= |fn.params| && PtrParam !in fn.params[..k] && isPure == old(isPure)
      {
        if fn.params[k].PtrParam? {
          isPure := isPure[f := false];
          return;
        }
        assert fn.params[..k + 1] == fn.params[..k] + [fn.params[k]];
        k := k + 1;
      }
      assert fn.params[..k] == fn.params;
      var defs := DefMap(fn.blocks);
      var b := 0;
      while b < |fn.blocks|
        invariant 0 <= b <= |fn.blocks| && isPure == old(isPure)
        invariant forall a, i {:trigger i in fn.blocks[a].body} :: 0 <= a < b && i in fn.blocks[a].body ==>
                    !SideEffect(defs, i)
      {
        var body := fn.blocks[b].body;
        var j := 0;
        while j < |body|
          invariant 0 <= j <= |body| && isPure == old(isPure)
          invariant forall i :: i in body[..j] ==> !SideEffect(defs, i)
        {
          if SideEffect(defs, body[j]) {
            assert body[j] in fn.blocks[b].body;
            isPure := isPure[f := false];
            return;
          }
          assert body[..j + 1] == body[..j] + [body[j]];
          j := j + 1;
        }
        assert body[..j] == body;
        b := b + 1;
      }
      isPure := isPure[f := true];
    }

    /** All callers of an impure function become impure, and go on the worklist unless they were. */
    method Process(now: nat)
      requires forall f: nat :: f < |m| ==> f in isPure
      modifies this`isPure, this`worklist
      ensures isPure.Keys == old(isPure).Keys
      ensures forall f: nat :: f < |m| ==> isPure[f] == (old(isPure)[f] && !Calls(m, f, now))
      ensures old(worklist) <= worklist && NoDuplicates(worklist[|old(worklist)|..])
      ensures forall f: nat :: f in worklist[|old(worklist)|..] <==> f < |m| && old(isPure)[f] && Calls(m, f, now)
    {
      var f := 0;
      ghost var n := |worklist|;
      while f < |m|
        invariant 0 <= f <= |m| && isPure.Keys == old(isPure).Keys && forall x: nat :: x < |m| ==> x in isPure
        invariant forall x: nat :: x < |m| ==> isPure[x] == (old(isPure)[x] && !(x < f && Calls(m, x, now)))
        invariant n == |old(worklist)| && old(worklist) <= worklist && NoDuplicates(worklist[n..])
        invariant forall x: nat :: x in worklist[n..] <==> x < f && old(isPure)[x] && Calls(m, x, now)
      {
        if Calls(m, f, now) && isPure[f] {
          isPure := isPure[f := false];
          assert (worklist + [f])[n..] == worklist[n..] + [f];
          worklist := worklist + [f];
        }
        f := f + 1;
      }
    }

    /** Exact: what is left pure is what no chain of calls connects to an impure function. `entered`
        lists the functions that were on the worklist. */
    method Run() returns (ghost entered: seq<nat>)
      requires ModuleOk(m) && worklist == []
      modifies this
      ensures forall f: nat :: f < |m| ==> f in isPure && (isPure[f] <==> !Impure(m, f))
      ensures NoDuplicates(entered) && forall f: nat :: f in entered <==> f < |m| && !isPure[f]
      ensures forall f: nat :: f < |m| && Simple(m[f]) ==> isPure[f]
    {
      hide TrivialImpure, UniqueDefs, Impure;
      var f := 0;
      while f < |m|
        invariant 0 <= f <= |m| && forall x: nat :: x < f ==> x in isPure && isPure[x] == !TrivialImpure(m, x)
        invariant NoDuplicates(worklist) && forall x: nat :: x in worklist <==> x < f && TrivialImpure(m, x)
      {
        TrivialMark(f);
        if !isPure[f] {
          worklist := worklist + [f];
        }
        f := f + 1;
      }
      forall x: nat | x < |m| && TrivialImpure(m, x) ensures Impure(m, x) { TrivialIsImpure(m, x); }
      ghost var marked := isPure;
      entered := Spread();
      forall x: nat | x < |m| && TrivialImpure(m, x) ensures x in entered { assert !marked[x]; }
      AllFound(m, isPure, entered);
      forall f: nat | f < |m| && Simple(m[f]) ensures isPure[f] { SimpleIsPure(m, f); }
    }

    /** Empties the worklist: in the end all callers of an impure function are impure. */
    method Spread() returns (ghost entered: seq<nat>)
      requires ModuleOk(m) && NoDuplicates(worklist)
      requires forall x: nat :: x < |m| ==> x in isPure && (!isPure[x] ==> Impure(m, x))
      requires forall x: nat :: x in worklist <==> x < |m| && !isPure[x]
      modifies this
      ensures forall x: nat :: x < |m| ==> x in isPure && (!isPure[x] ==> Impure(m, x))
                                           && (isPure[x] ==> old(isPure)[x])
      ensures NoDuplicates(entered) && forall x: nat :: x in entered <==> x < |m| && !isPure[x]
      ensures forall x: nat, y: nat {:trigger Calls(m, x, y)} :: x < |m| && y in entered && Calls(m, x, y) ==>
                !isPure[x]
    {
      hide *;
      ghost var start, done: seq<nat> := isPure, [];
      entered := worklist;
      SpreadStarts(m, isPure, worklist);
      while worklist != []
        invariant ModuleOk(m) && Spreading(m, start, isPure, entered, done, worklist)
        decreases |m| - |done|
      {
        var now := worklist[0];
        ghost var pure0, rest, entered0, done0 := isPure, worklist[1..], entered, done;
        SpreadKnows(m, start, isPure, entered, done, worklist);
        assert worklist == [now] + rest;
        worklist := worklist[1..];
        Process(now);
        ghost var added := worklist[|rest|..];
        done, entered := done + [now], entered + added;
        assert worklist == rest + added;
        SpreadStep(m, start, pure0, isPure, entered0, done0, rest, now, added);
      }
      SpreadEnds(m, start, isPure, entered, done);
    }
  }

  /** The worklist under way: `done` are those taken from it, `entered` all that were ever on it. */
  ghost predicate Spreading(m: Module, start: map<nat, bool>, isPure: map<nat, bool>, entered: seq<nat>,
                            done: seq<nat>, worklist: seq<nat>)
    requires ModuleOk(m)
  {
    && (forall x: nat :: x < |m| ==> x in isPure && x in start && (!isPure[x] ==> Impure(m, x))
                                     && (isPure[x] ==> start[x]))
    && NoDuplicates(entered) && (forall x: nat :: x in entered <==> x < |m| && !isPure[x])
    && entered == done + worklist && |entered| <= |m|
    && (forall x: nat, y: nat {:trigger Calls(m, x, y)} :: x < |m| && y in done && Calls(m, x, y) ==> !isPure[x])
  }

  lemma SpreadStarts(m: Module, isPure: map<nat, bool>, worklist: seq<nat>)
    requires ModuleOk(m) && NoDuplicates(worklist)
    requires forall x: nat :: x < |m| ==> x in isPure && (!isPure[x] ==> Impure(m, x))
    requires forall x: nat :: x in worklist <==> x < |m| && !isPure[x]
    ensures Spreading(m, isPure, isPure, worklist, [], worklist)
  {
    hide ModuleOk, Impure, Calls, NoDuplicates;
    DistinctBounded(worklist, |m|);
    assert worklist == [] + worklist;
  }

  lemma SpreadKnows(m: Module, start: map<nat, bool>, isPure: map<nat, bool>, entered: seq<nat>, done: seq<nat>,
                    worklist: seq<nat>)
    requires ModuleOk(m) && Spreading(m, start, isPure, entered, done, worklist)
    ensures |done| + |worklist| <= |m| && forall x: nat :: x < |m| ==> x in isPure
  {}

  lemma SpreadStep(m: Module, start: map<nat, bool>, p: map<nat, bool>, q: map<nat, bool>, entered: seq<nat>,
                   done: seq<nat>, rest: seq<nat>, now: nat,
                   added: seq<nat>)
    requires ModuleOk(m) && Spreading(m, start, p, entered, done, [now] + rest) && NoDuplicates(added)
             && q.Keys == p.Keys
    requires forall x: nat :: x < |m| ==> q[x] == (p[x] && !Calls(m, x, now))
    requires forall x: nat :: x in added <==> x < |m| && p[x] && Calls(m, x, now)
    ensures Spreading(m, start, q, entered + added, done + [now], rest + added)
  {
    hide ModuleOk, Impure, Calls, NoDuplicates;
    assert now in entered;
    AppendDistinct(entered, added);
    DistinctBounded(entered + added, |m|);
    forall x: nat | x < |m| && !q[x] ensures Impure(m, x) {
      if p[x] { ImpureCaller(m, x, now); }
    }
  }

  lemma SpreadEnds(m: Module, start: map<nat, bool>, isPure: map<nat, bool>, entered: seq<nat>, done: seq<nat>)
    requires ModuleOk(m) && Spreading(m, start, isPure, entered, done, [])
    ensures forall x: nat :: x < |m| ==> x in isPure && x in start && (!isPure[x] ==> Impure(m, x))
                                         && (isPure[x] ==> start[x])
    ensures NoDuplicates(entered) && forall x: nat :: x in entered <==> x < |m| && !isPure[x]
    ensures forall x: nat, y: nat {:trigger Calls(m, x, y)} :: x < |m| && y in entered && Calls(m, x, y) ==> !isPure[x]
  {
    hide ModuleOk, Impure, Calls, NoDuplicates;
    assert done == entered;
  }

  lemma AppendDistinct(s: seq<nat>, t: seq<nat>)
    requires NoDuplicates(s) && NoDuplicates(t) && forall x :: x in t ==> x !in s
    ensures NoDuplicates(s + t)
  {
    forall i, j | 0 <= i < j < |s + t| ensures (s + t)[i] != (s + t)[j] {
      if i < |s| && j >= |s| { assert t[j - |s|] in t && s[i] in s; }
    }
  }

  ghost predicate NoDuplicates(s: seq<nat>) {
    forall i, j :: 0 <= i < j < |s| ==> s[i] != s[j]
  }

  function UpTo(n: nat): (s: set<nat>)
    ensures |s| == n && forall x: nat :: x in s <==> x < n
  {
    if n == 0 then {} else UpTo(n - 1) + {n - 1}
  }

  function Elements(s: seq<nat>): (r: set<nat>)
    ensures forall x: nat :: x in r <==> x in s
  {
    if s == [] then {} else {s[0]} + Elements(s[1..])
  }

  lemma {:induction false} DistinctSize(s: seq<nat>)
    requires NoDuplicates(s)
    ensures |Elements(s)| == |s|
  {
    if s != [] {
      DistinctSize(s[1..]);
      assert s[0] !in Elements(s[1..]);
    }
  }

  lemma DistinctBounded(s: seq<nat>, n: nat)
    requires NoDuplicates(s) && forall x :: x in s ==> x < n
    ensures |s| <= n
  {
    DistinctSize(s);
    SubsetSize(Elements(s), UpTo(n));
  }

  lemma {:induction false} SubsetSize(a: set<nat>, b: set<nat>)
    requires a <= b
    ensures |a| <= |b|
    decreases a
  {
    if a != {} {
      var x :| x in a;
      SubsetSize(a - {x}, b - {x});
    }
  }
}

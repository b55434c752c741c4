/** A source file: global variables and functions, and the module that is generated for it. */
module Toplevel {
  import opened IR
  import opened Cminus
  import opened Codegen
  import opened CodegenCfg
  import opened CodegenStmt
  import opened CodegenDefs
  import opened Program
  import opened CminusfBuilder
  import opened StaticCheck

  datatype TopDecl = GlobalDecl(d: Decl) | FunDef(id: string, fd: FunDecl)

  /** The cells of a global variable and the type of the numbers in them. */
  datatype Cells = Cells(t: Ty, n: nat)

  function CellsOf(d: Decl): Cells {
    Cells(d.ty, if d.num.Some? then d.num.value else 1)
  }

  // ----- as written -------------------------------------------------------------------------------------------

  /** `vars` are the names declared so far; `seen` are those that each function sees, itself included. */
  datatype Source = Source(vars: map<string, Var>, globals: seq<Cells>, funs: seq<FunDecl>, seen: seq<map<string, Var>>)

  /** Input and output, and the handler of negative indices. */
  const Externals: nat := 4

  function StartSource(): Source {
    Source(map["input" := FunVar(0, [], Some(IntT)), "output" := FunVar(1, [Scalar(IntT)], None),
               "outputFloat" := FunVar(2, [Scalar(FloatT)], None), NEG_IDX := FunVar(3, [], None)], [], [], [])
  }

  /** The first declaration of a name counts. */
  function WithName(vars: map<string, Var>, id: string, v: Var): map<string, Var> {
    if id in vars then vars else vars[id := v]
  }

  function DeclareTop(t: TopDecl, s: Source): Source {
    match t
    case GlobalDecl(d) =>
      var v := if d.num.None? then GlobalNum(d.ty, |s.globals|) else GlobalArr(d.ty, |s.globals|);
      s.(vars := WithName(s.vars, d.id, v), globals := s.globals + [CellsOf(d)])
    case FunDef(id, fd) =>
      var vars := WithName(s.vars, id, FunVar(Externals + |s.funs|, ParamTypes(fd.params), fd.ret));
      Source(vars, s.globals, s.funs + [fd], s.seen + [vars])
  }

  function DeclareAll(ts: seq<TopDecl>, s: Source): Source {
    if ts == [] then s else DeclareAll(ts[1..], DeclareTop(ts[0], s))
  }

  // ----- as generated -------------------------------------------------------------------------------------------

  datatype Module = Module(names: map<string, Binding>, globals: seq<Cells>, code: seq<Gen>)

  function StartModule(): Module {
    Module(map["input" := Fun(0, [], Some(IntT)), "output" := Fun(1, [Scalar(IntT)], None),
               "outputFloat" := Fun(2, [Scalar(FloatT)], None), NEG_IDX := Fun(3, [], None)], [], [])
  }

  function GlobalBinding(d: Decl, g: nat): Binding {
    Mem(GlobalAddr(g), if d.num.None? then NumK(d.ty) else ArrK(d.ty))
  }

  function GenTop(t: TopDecl, m: Module, base: nat): Option<Module> {
    match t
    case GlobalDecl(d) =>
      var names := if d.id in m.names then m.names else m.names[d.id := GlobalBinding(d, |m.globals|)];
      Some(Module(names, m.globals + [CellsOf(d)], m.code))
    case FunDef(id, fd) =>
      var names := NamesFor(m.names, id, Externals + |m.code|, fd);
      (match GenFun(fd, names, base) case None => None case Some(g) => Some(Module(names, m.globals, m.code + [g])))
  }

  function GenAll(ts: seq<TopDecl>, m: Module, base: nat): Option<Module> {
    if ts == [] then Some(m) else match GenTop(ts[0], m, base) case None => None case Some(m1) =>
      GenAll(ts[1..], m1, base)
  }

  /** The visitor does the same, with one scope stack for the whole file. */
  method VisitProgram(ts: seq<TopDecl>, base: nat) returns (ok: bool, m: Module)
    ensures ok <==> GenAll(ts, StartModule(), base).Some?
    ensures ok ==> GenAll(ts, StartModule(), base) == Some(m)
    ensures ok <==> ProgramFine(ts, BuiltIn)
  {
    hide GenFun, GenTop, ProgramFine;
    CompiledIfFine(ts, base);
    m := StartModule();
    var scope := new ScopeStack(m.names);
    var k := 0;
    assert ts[0..] == ts;
    while k < |ts|
      invariant 0 <= k <= |ts| && scope.inner == [m.names] && fresh(scope)
      invariant GenAll(ts[k..], m, base) == GenAll(ts, StartModule(), base)
    {
      assert ts[k..][0] == ts[k] && ts[k..][1..] == ts[k + 1..];
      ok, m := VisitTop(ts[k], scope, m, base);
      if !ok { return; }
      k := k + 1;
    }
    ok := true;
  }

  method VisitTop(t: TopDecl, scope: ScopeStack, m: Module, base: nat) returns (ok: bool, m': Module)
    requires scope.inner == [m.names]
    modifies scope
    ensures ok <==> GenTop(t, m, base).Some?
    ensures ok ==> GenTop(t, m, base) == Some(m') && scope.inner == [m'.names]
  {
    hide GenFun, Cfg;
    m' := m;
    match t
    case GlobalDecl(d) =>
      var _ := scope.Push(d.id, GlobalBinding(d, |m.globals|));
      m' := Module(scope.inner[0], m.globals + [CellsOf(d)], m.code);
      ok := true;
    case FunDef(id, fd) =>
      var builder := new Builder(fd.ret, scope, base);
      ok := builder.VisitFunDecl(id, Externals + |m.code|, fd, m.names, base);
      if ok {
        m' := Module(scope.inner[0], m.globals, m.code + [builder.State()]);
      }
  }

  // ----- which source files are compiled ----------------------------------------------------------------------

  /** A function can call itself and what was declared before it. */
  predicate ProgramFine(ts: seq<TopDecl>, names: Names)
    decreases ts
  {
    ts == [] ||
    match ts[0]
    case GlobalDecl(d) => ProgramFine(ts[1..], if d.id in names then names else names[d.id := DeclSort(d)])
    case FunDef(id, fd) =>
      var names' := if id in names then names else names[id := FunctionS(ParamSorts(fd.params), fd.ret)];
      FunctionFine(fd, names') && ProgramFine(ts[1..], names')
  }

  const BuiltIn: Names := map["input" := FunctionS([], Some(IntT)), "output" := FunctionS([Scalar(IntT)], None),
                              "outputFloat" := FunctionS([Scalar(FloatT)], None),
                              "neg_idx_except" := FunctionS([], None)]

  lemma {:induction false} AllIsFine(ts: seq<TopDecl>, m: Module, base: nat)
    ensures GenAll(ts, m, base).Some? <==> ProgramFine(ts, SortsOf(m.names))
    decreases ts
  {
    hide GenFun, FunctionFine;
    if ts != [] {
      match ts[0]
      case GlobalDecl(d) =>
        var names := if d.id in m.names then m.names else m.names[d.id := GlobalBinding(d, |m.globals|)];
        assert SortsOf(names) == if d.id in m.names then SortsOf(m.names) else SortsOf(m.names)[d.id := DeclSort(d)];
        AllIsFine(ts[1..], GenTop(ts[0], m, base).value, base);
      case FunDef(id, fd) =>
        var names := NamesFor(m.names, id, Externals + |m.code|, fd);
        ParamSortsAre(fd.params);
        assert SortsOf(names) == if id in m.names then SortsOf(m.names)
                                 else SortsOf(m.names)[id := FunctionS(ParamSorts(fd.params), fd.ret)];
        FunctionIsFine(fd, names, base);
        if GenTop(ts[0], m, base).Some? { AllIsFine(ts[1..], GenTop(ts[0], m, base).value, base); }
    }
  }

  /** A source file is compiled if and only if it passes the check. */
  lemma CompiledIfFine(ts: seq<TopDecl>, base: nat)
    ensures GenAll(ts, StartModule(), base).Some? <==> ProgramFine(ts, BuiltIn)
  {
    hide GenAll, ProgramFine;
    AllIsFine(ts, StartModule(), base);
    assert SortsOf(StartModule().names) == BuiltIn;
  }

  // ----- both together --------------------------------------------------------------------------------------------

  /** Sites of array declarations are as code generation needs them. */
  ghost predicate SitesFine(ts: seq<TopDecl>, base: nat) {
    forall k :: 0 <= k < |ts| && ts[k].FunDef? ==> SourceOk(ts[k].fd, base)
  }

  function Link(s: Source, m: Module): Program
    requires |m.code| == |s.funs|
  {
    Linked(Externals, s.funs, s.seen, seq(|m.code|, k requires 0 <= k < |m.code| => BlocksOf(m.code[k])))
  }

  /** Source and module have the same names and variables, and the code of each function implements it. */
  ghost predicate InStep(s: Source, m: Module) {
    && GlobalsOk(s.vars, m.names) && s.globals == m.globals && |m.code| == |s.funs| == |s.seen|
    && forall k: nat {:trigger m.code[k]} :: k < |m.code| ==> Implements(s.funs[k], s.seen[k], BlocksOf(m.code[k]))
  }

  lemma StartInStep()
    ensures InStep(StartSource(), StartModule())
  {}

  lemma TopInStep(t: TopDecl, s: Source, m: Module, base: nat)
    requires InStep(s, m) && GenTop(t, m, base).Some? && (t.FunDef? ==> SourceOk(t.fd, base))
    ensures InStep(DeclareTop(t, s), GenTop(t, m, base).value)
  {
    hide GenFun, SourceOk, Implements;
    var s', m' := DeclareTop(t, s), GenTop(t, m, base).value;
    if t.FunDef? {
      GeneratedImplements(t.fd, s'.vars, m'.names, base);
    }
  }

  lemma {:induction false} AllInStep(ts: seq<TopDecl>, s: Source, m: Module, base: nat)
    requires InStep(s, m) && GenAll(ts, m, base).Some? && SitesFine(ts, base)
    ensures InStep(DeclareAll(ts, s), GenAll(ts, m, base).value)
    decreases ts
  {
    hide InStep, GenTop, DeclareTop, SourceOk;
    if ts != [] {
      TopInStep(ts[0], s, m, base);
      assert SitesFine(ts[1..], base);
      AllInStep(ts[1..], DeclareTop(ts[0], s), GenTop(ts[0], m, base).value, base);
    }
  }

  function ZeroOf(t: Ty): Value {
    match t case IntT => Int(0) case FloatT => Flt(0.0)
  }

  function FillZero(m: map<(Region, int), Value>, g: nat, t: Ty, n: nat): map<(Region, int), Value> {
    if n == 0 then m else FillZero(m, g, t, n - 1)[(GlobalVar(g), n - 1) := ZeroOf(t)]
  }

  /** Memory before the program runs. */
  function StartMem(globals: seq<Cells>): map<(Region, int), Value> {
    if globals == [] then map[]
    else
      var g := |globals| - 1;
      FillZero(StartMem(globals[..g]), g, globals[g].t, globals[g].n)
  }

  lemma {:induction false} FillZeroIs(m: map<(Region, int), Value>, g: nat, t: Ty, n: nat)
    ensures forall c :: c in FillZero(m, g, t, n) <==> c in m || (c.0 == GlobalVar(g) && 0 <= c.1 < n)
    ensures forall c :: c in FillZero(m, g, t, n) ==>
              FillZero(m, g, t, n)[c] == if c.0 == GlobalVar(g) && 0 <= c.1 < n then ZeroOf(t) else m[c]
    decreases n
  {
    if n > 0 { FillZeroIs(m, g, t, n - 1); }
  }

  /** Exactly the cells of the global variables are there, and all hold the zero of their type. */
  lemma {:induction false} StartMemIs(globals: seq<Cells>)
    ensures forall c :: c in StartMem(globals) <==>
              c.0.GlobalVar? && c.0.g < |globals| && 0 <= c.1 < globals[c.0.g].n
    ensures forall c :: c in StartMem(globals) ==>
              c.0.GlobalVar? && c.0.g < |globals| && StartMem(globals)[c] == ZeroOf(globals[c.0.g].t)
    decreases |globals|
  {
    if globals != [] {
      var g := |globals| - 1;
      StartMemIs(globals[..g]);
      FillZeroIs(StartMem(globals[..g]), g, globals[g].t, globals[g].n);
    }
  }

  /** The global variables that a source file declares, in order. */
  function GlobalsIn(ts: seq<TopDecl>): seq<Decl> {
    if ts == [] then [] else (if ts[0].GlobalDecl? then [ts[0].d] else []) + GlobalsIn(ts[1..])
  }

  lemma {:induction false} GlobalsCount(ts: seq<TopDecl>, m: Module, base: nat)
    requires GenAll(ts, m, base).Some?
    ensures var m' := GenAll(ts, m, base).value;
            && |m'.globals| == |m.globals| + |GlobalsIn(ts)| && m.globals <= m'.globals
            && forall g :: 0 <= g < |GlobalsIn(ts)| ==> m'.globals[|m.globals| + g] == CellsOf(GlobalsIn(ts)[g])
    decreases ts
  {
    hide GenFun;
    if ts != [] {
      var m1 := GenTop(ts[0], m, base).value;
      GlobalsCount(ts[1..], m1, base);
      var m' := GenAll(ts, m, base).value;
      forall g | 0 <= g < |GlobalsIn(ts)| ensures m'.globals[|m.globals| + g] == CellsOf(GlobalsIn(ts)[g]) {
        if ts[0].GlobalDecl? && g == 0 { assert m'.globals[|m.globals|] == m1.globals[|m.globals|]; }
      }
    }
  }

  /** Memory starts with one zero for each global number and n zeroes for each global array of size n, of
      the type that the declaration gives, and with nothing else. */
  lemma DeclaredCells(ts: seq<TopDecl>, base: nat, c: (Region, int))
    requires GenAll(ts, StartModule(), base).Some?
    ensures var mem, ds := StartMem(GenAll(ts, StartModule(), base).value.globals), GlobalsIn(ts);
            && (c in mem <==> c.0.GlobalVar? && c.0.g < |ds| && 0 <= c.1
                              && (match ds[c.0.g].num case None => c.1 < 1 case Some(n) => c.1 < n))
            && (c in mem ==> c.0.GlobalVar? && c.0.g < |ds|
                             && mem[c] == match ds[c.0.g].ty case IntT => Int(0) case FloatT => Flt(0.0))
  {
    hide GenAll;
    var globals := GenAll(ts, StartModule(), base).value.globals;
    GlobalsCount(ts, StartModule(), base);
    StartMemIs(globals);
    if c.0.GlobalVar? && c.0.g < |globals| { assert globals[c.0.g] == CellsOf(GlobalsIn(ts)[c.0.g]); }
  }

  predicate Declares(t: TopDecl, id: string) {
    match t case GlobalDecl(d) => d.id == id case FunDef(name, _) => name == id
  }

  lemma {:induction false} NamesStay(ts: seq<TopDecl>, m: Module, base: nat, id: string)
    requires GenAll(ts, m, base).Some? && id in m.names
    ensures id in GenAll(ts, m, base).value.names && GenAll(ts, m, base).value.names[id] == m.names[id]
    decreases ts
  {
    hide GenFun;
    if ts != [] { NamesStay(ts[1..], GenTop(ts[0], m, base).value, base, id); }
  }

  /** A declaration of a new name binds it: a global variable to its number and kind, a function to its
      number, its parameters and what it returns. */
  lemma {:induction false} DeclaredName(ts: seq<TopDecl>, m: Module, base: nat, k: nat, id: string)
    requires GenAll(ts, m, base).Some? && k < |ts| && Declares(ts[k], id) && id !in m.names
    requires forall j :: 0 <= j < k ==> !Declares(ts[j], id)
    ensures var names := GenAll(ts, m, base).value.names; var g := |m.globals| + |GlobalsIn(ts[..k])|;
            var f := 4 + |m.code| + k - |GlobalsIn(ts[..k])|;
            && id in names
            && (match ts[k]
                case GlobalDecl(d) => names[id] == Mem(GlobalAddr(g), if d.num.Some? then ArrK(d.ty) else NumK(d.ty))
                case FunDef(_, fd) => f >= 0 && names[id] == Fun(f, ParamTypes(fd.params), fd.ret))
    decreases ts
  {
    hide GenFun;
    var m1 := GenTop(ts[0], m, base).value;
    if k == 0 {
      assert ts[..0] == [];
      NamesStay(ts[1..], m1, base, id);
    } else {
      assert ts[..k][0] == ts[0] && ts[..k][1..] == ts[1..][..k - 1];
      assert forall j :: 0 <= j < k - 1 ==> ts[1..][j] == ts[j + 1];
      assert !Declares(ts[0], id);
      DeclaredName(ts[1..], m1, base, k - 1, id);
    }
  }

  /** The compiler is correct: in the module generated for a source file, a call of any function from the
      start memory returns what it returns in the source, with the same memory and the same output. */
  lemma CompilerIsCorrect(ts: seq<TopDecl>, base: nat, ext: Oracle, k: nat, fn: nat, vs: seq<Value>,
                          trace: seq<(nat, seq<Value>)>)
    requires GenAll(ts, StartModule(), base).Some? && SitesFine(ts, base)
    ensures InStep(DeclareAll(ts, StartSource()), GenAll(ts, StartModule(), base).value)
    ensures var s, m := DeclareAll(ts, StartSource()), GenAll(ts, StartModule(), base).value;
            var p := Link(s, m);
            var r := SrcCall(p, ext, 0, k, fn, vs, World(StartMem(s.globals), trace));
            r.Some? ==> CodeCall(p, ext, 0, k, fn, vs, World(StartMem(m.globals), trace)) == r
  {
    StartInStep();
    AllInStep(ts, StartSource(), StartModule(), base);
    var s, m := DeclareAll(ts, StartSource()), GenAll(ts, StartModule(), base).value;
    LinkOk(s, m);
    hide *;
    var p, w := Link(s, m), World(StartMem(s.globals), trace);
    if SrcCall(p, ext, 0, k, fn, vs, w).Some? { ProgramPreservesMeaning(p, ext, 0, k, fn, vs, w); }
  }

  lemma LinkOk(s: Source, m: Module)
    requires InStep(s, m)
    ensures ProgramOk(Link(s, m)) && s.globals == m.globals
  {
    hide Implements;
  }
}

/** In every run of generated code a slot holds what it was reserved for: ints, floats or pointers. */
module SlotTypes {
  import opened IR
  import opened Cminus
  import opened Codegen
  import opened CodegenCfg
  import opened CodegenStmt
  import opened CodegenDefs

  /** Registers of allocas hold addresses of their slots, registers of getelementptr addresses in memory. */
  ghost predicate RegsFit(g: Gen, m: Marks, regs: map<nat, Value>) {
    forall r :: r in regs && Setter(g.blocks, m.def, r).Some? ==>
      var i := Setter(g.blocks, m.def, r).value;
      && (i.Alloca? && !i.ty.ArraySlot? ==> regs[r] == SlotPtr(r, i.ty))
      && (i.Gep? ==> regs[r].Ptr?)
  }

  ghost predicate SlotsFit(g: Gen, m: Marks, slots: map<nat, Value>) {
    forall r :: r in slots ==>
      && Setter(g.blocks, m.def, r).Some? && Setter(g.blocks, m.def, r).value.Alloca?
      && SlotHolds(Setter(g.blocks, m.def, r).value.ty, slots[r])
  }

  ghost predicate Fit(g: Gen, m: Marks, s: State) {
    RegsFit(g, m, s.regs) && SlotsFit(g, m, s.slots)
  }

  lemma SetterHere(g: Gen, m: Marks, b: nat, j: nat)
    requires Sound(g, m) && b < |g.blocks| && j < |g.blocks[b]|
    ensures KindsOk(g.blocks, m.def, g.blocks[b][j])
    ensures HasDst(g.blocks[b][j]) ==> Setter(g.blocks, m.def, g.blocks[b][j].dst) == Some(g.blocks[b][j])
  {
    assert InstrSound(g.blocks, m, b, j);
  }

  lemma StepFits(g: Gen, m: Marks, env: Env, b: nat, j: nat, s: State)
    requires Sound(g, m) && b < |g.blocks| && j < |g.blocks[b]| && Fit(g, m, s)
    requires Step(env, g.blocks[b][j], s).Some?
    ensures Fit(g, m, Step(env, g.blocks[b][j], s).value)
  {
    hide Sound, Setter, ValueKind, BaseKind, EvalAll;
    SetterHere(g, m, b, j);
    var i := g.blocks[b][j];
    if i.Store? {
      StoreFits(g, m, env, i, s);
    } else if Computes(i) {
      StepComputes(env, i, s);
    }
  }

  lemma StoreFits(g: Gen, m: Marks, env: Env, i: Instr, s: State)
    requires i.Store? && AddrKind(g.blocks, m.def, i.ptr) && Fit(g, m, s) && Step(env, i, s).Some?
    ensures Fit(g, m, Step(env, i, s).value)
  {
    hide Setter;
    EvalTwo(env, s.regs, i.val, i.ptr);
  }

  lemma {:induction false} StepsFit(g: Gen, m: Marks, env: Env, b: nat, j: nat, s: State, n: nat)
    requires Sound(g, m) && b < |g.blocks| && j + n <= |g.blocks[b]| && Fit(g, m, s)
    requires Steps(env, g.blocks[b][j..], s, n).Some?
    ensures Fit(g, m, Steps(env, g.blocks[b][j..], s, n).value)
    decreases n
  {
    hide Sound, Fit, Step;
    if n > 0 {
      StepFits(g, m, env, b, j, s);
      assert g.blocks[b][j..][0] == g.blocks[b][j] && g.blocks[b][j..][1..] == g.blocks[b][j + 1..];
      StepsFit(g, m, env, b, j + 1, Step(env, g.blocks[b][j], s).value, n - 1);
    }
  }

  lemma {:induction false} BodyFits(g: Gen, m: Marks, env: Env, b: nat, j: nat, s: State)
    requires Sound(g, m) && b < |g.blocks| && j <= |g.blocks[b]| && Fit(g, m, s)
    ensures ExecBody(env, g.blocks[b][j..], s).Goto? ==> Fit(g, m, ExecBody(env, g.blocks[b][j..], s).s)
    decreases |g.blocks[b]| - j
  {
    hide Sound, Fit, Step;
    if j < |g.blocks[b]| {
      assert g.blocks[b][j..][0] == g.blocks[b][j] && g.blocks[b][j..][1..] == g.blocks[b][j + 1..];
      if !IsTerminator(g.blocks[b][j]) && Step(env, g.blocks[b][j], s).Some? {
        StepFits(g, m, env, b, j, s);
        BodyFits(g, m, env, b, j + 1, Step(env, g.blocks[b][j], s).value);
      }
    }
  }

  lemma {:induction false} ReachedFits(g: Gen, m: Marks, env: Env, w: World, n: nat, b: nat, from: nat, s: State)
    requires Sound(g, m) && Reaches(env, BlocksOf(g), w, n, b, from, s)
    ensures Fit(g, m, s)
    decreases n
  {
    hide Sound, ExecBody;
    if n > 0 {
      var from0, s0 :| ReachesBy(env, BlocksOf(g), w, n, b, from, s, from0, s0);
      ReachedFits(g, m, env, w, n - 1, from, from0, s0);
      assert s0.(regs := EnterPhis(env, [], from0, s0.regs, s0.regs)) == s0;
      assert g.blocks[from][0..] == g.blocks[from];
      BodyFits(g, m, env, from, 0, s0);
    }
  }

  /** At every point of every run a slot that an alloca reserves for ints holds an int or nothing, and so for
      floats and pointers; no other register has a slot. */
  lemma SlotsKeepTypes(fd: FunDecl, names: map<string, Binding>, base: nat, env: Env, w: World, n: nat, b: nat,
                       from: nat, s: State, i: nat, r: nat)
    requires GenFun(fd, names, base).Some? && NamesOk(names) && OwnSitesOf(fd, base)
    requires Reaches(env, BlocksOf(GenFun(fd, names, base).value), w, n, b, from, s)
    requires var f := GenFun(fd, names, base).value.blocks;
             b < |f| && i <= |f[b]| && Steps(env, f[b], s, i).Some? && r in Steps(env, f[b], s, i).value.slots
    ensures var f := GenFun(fd, names, base).value.blocks; var v := Steps(env, f[b], s, i).value.slots[r];
            && (exists x, y :: 0 <= x < |f| && 0 <= y < |f[x]| && f[x][y].Alloca? && f[x][y].dst == r)
            && (forall x, y :: 0 <= x < |f| && 0 <= y < |f[x]| && f[x][y].Alloca? && f[x][y].dst == r ==>
                  && !f[x][y].ty.ArraySlot? && (f[x][y].ty.IntSlot? ==> v.Int?)
                  && (f[x][y].ty.FloatSlot? ==> v.Flt?) && (f[x][y].ty.PtrSlot? ==> v.Ptr?))
  {
    hide Sound, Reaches, Steps, OwnSitesOf, NamesOk;
    var g := GenFun(fd, names, base).value;
    var m := FunDefs(fd, names, base);
    hide GenFun;
    ReachedFits(g, m, env, w, n, b, from, s);
    assert g.blocks[b][0..] == g.blocks[b];
    StepsFit(g, m, env, b, 0, s, i);
    var a := Setter(g.blocks, m.def, r).value;
    var at := m.def[r];
    assert g.blocks[at.0][at.1] == a;
    forall x, y | 0 <= x < |g.blocks| && 0 <= y < |g.blocks[x]| && g.blocks[x][y].Alloca? && g.blocks[x][y].dst == r
      ensures g.blocks[x][y] == a
    {
      SetterHere(g, m, x, y);
    }
  }
}

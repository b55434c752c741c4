/** The def-use graph: operand slots, and the list of uses that each value keeps. */
module DefUse {

  datatype Use = Use(val: Value, argNo: nat)

  /** The uses that are kept when those by a selected user go. */
  function Kept(uses: seq<Use>, sel: Value -> bool): seq<Use> {
    if uses == [] then [] else (if sel(uses[0].val) then [] else [uses[0]]) + Kept(uses[1..], sel)
  }

  function Selected(uses: seq<Use>, sel: Value -> bool): seq<Use> {
    if uses == [] then [] else (if sel(uses[0].val) then [uses[0]] else []) + Selected(uses[1..], sel)
  }

  /** How often the use occurs in the list. */
  function Times(uses: seq<Use>, u: Use): nat {
    if uses == [] then 0 else (if uses[0] == u then 1 else 0) + Times(uses[1..], u)
  }

  lemma {:induction false} TimesIn(uses: seq<Use>, u: Use)
    ensures u in uses <==> Times(uses, u) > 0
  {
    if uses != [] { TimesIn(uses[1..], u); }
  }

  lemma {:induction false} TimesConcat(s: seq<Use>, t: seq<Use>, u: Use)
    ensures Times(s + t, u) == Times(s, u) + Times(t, u)
  {
    if s == [] {
      assert s + t == t;
    } else {
      assert (s + t)[1..] == s[1..] + t;
      TimesConcat(s[1..], t, u);
    }
  }

  lemma {:induction false} SplitCount(uses: seq<Use>, sel: Value -> bool, u: Use)
    ensures Times(Kept(uses, sel), u) == if sel(u.val) then 0 else Times(uses, u)
    ensures Times(Selected(uses, sel), u) == if sel(u.val) then Times(uses, u) else 0
  {
    if uses != [] {
      SplitCount(uses[1..], sel, u);
      TimesConcat(if sel(uses[0].val) then [] else [uses[0]], Kept(uses[1..], sel), u);
      TimesConcat(if sel(uses[0].val) then [uses[0]] else [], Selected(uses[1..], sel), u);
    }
  }

  lemma {:induction false} SplitMembers(uses: seq<Use>, sel: Value -> bool)
    ensures forall u :: u in Kept(uses, sel) <==> u in uses && !sel(u.val)
    ensures forall u :: u in Selected(uses, sel) <==> u in uses && sel(u.val)
  {
    if uses != [] { SplitMembers(uses[1..], sel); }
  }

  lemma SplitSnoc(uses: seq<Use>, sel: Value -> bool, k: nat)
    requires k < |uses|
    ensures Kept(uses[..k + 1], sel) == if sel(uses[k].val) then Kept(uses[..k], sel)
            else Kept(uses[..k], sel) + [uses[k]]
    ensures Selected(uses[..k + 1], sel) == if sel(uses[k].val) then Selected(uses[..k], sel) + [uses[k]]
            else Selected(uses[..k], sel)
  {
    hide Kept, Selected;
    assert uses[..k + 1] == uses[..k] + [uses[k]];
    SplitAppend(uses[..k], sel, uses[k]);
  }

  lemma {:induction false} SplitAppend(uses: seq<Use>, sel: Value -> bool, x: Use)
    ensures Kept(uses + [x], sel) == Kept(uses, sel) + (if sel(x.val) then [] else [x])
    ensures Selected(uses + [x], sel) == Selected(uses, sel) + (if sel(x.val) then [x] else [])
  {
    if uses == [] {
      assert [] + [x] == [x] && [x][1..] == [];
    } else {
      SplitAppend(uses[1..], sel, x);
      AppendTail(uses, x);
      var here := sel(uses[0].val);
      Rebracket(if here then [] else [uses[0]], Kept(uses[1..], sel), if sel(x.val) then [] else [x]);
      Rebracket(if here then [uses[0]] else [], Selected(uses[1..], sel), if sel(x.val) then [x] else []);
    }
  }

  lemma AppendTail(uses: seq<Use>, x: Use)
    requires uses != []
    ensures (uses + [x])[0] == uses[0] && (uses + [x])[1..] == uses[1..] + [x]
  {}

  lemma Rebracket(a: seq<Use>, b: seq<Use>, c: seq<Use>)
    ensures (a + b) + c == a + (b + c)
  {}

  lemma SplitNothing(sel: Value -> bool)
    ensures Kept([], sel) == Selected([], sel) == []
  {}

  lemma {:induction false} SelectAll(uses: seq<Use>)
    ensures Selected(uses, Anyone()) == uses && Kept(uses, Anyone()) == []
  {
    if uses != [] { SelectAll(uses[1..]); }
  }

  lemma {:induction false} KeptTwice(uses: seq<Use>, sel: Value -> bool)
    ensures Kept(Kept(uses, sel), sel) == Kept(uses, sel)
  {
    if uses != [] {
      KeptTwice(uses[1..], sel);
      if sel(uses[0].val) {
        assert Kept(uses, sel) == Kept(uses[1..], sel);
      } else {
        assert Kept(uses, sel)[1..] == Kept(uses[1..], sel);
      }
    }
  }

  lemma {:induction false} KeptNone(uses: seq<Use>, sel: Value -> bool)
    requires forall u :: u in uses ==> !sel(u.val)
    ensures Kept(uses, sel) == uses
  {
    if uses != [] { KeptNone(uses[1..], sel); }
  }

  function Anyone(): Value -> bool {
    _ => true
  }

  function Only(user: Value): Value -> bool {
    u => u == user
  }

  // ----- values --------------------------------------------------------------------------------------------

  /** A value, and the operands it has when it is a user as well. */
  class Value {
    var operands: seq<Value?>
    var uses: seq<Use>

    constructor (numOps: nat)
      ensures uses == [] && operands == seq(numOps, _ => null)
    {
      operands, uses := seq(numOps, _ => null), [];
    }

    method AddUse(user: Value, argNo: nat)
      modifies this`uses
      ensures uses == old(uses) + [Use(user, argNo)]
    {
      uses := uses + [Use(user, argNo)];
    }

    method SetOperand(i: nat, v: Value)
      requires i < |operands|
      modifies this`operands, v`uses
      ensures operands == old(operands)[i := v] && v.uses == old(v.uses) + [Use(this, i)]
    {
      operands := operands[i := v];
      v.AddUse(this, i);
    }

    method AddOperand(v: Value)
      modifies this`operands, v`uses
      ensures operands == old(operands) + [v] && v.uses == old(v.uses) + [Use(this, |old(operands)|)]
    {
      operands := operands + [v];
      v.AddUse(this, |operands| - 1);
    }

    method RemoveUse(user: Value)
      modifies this`uses
      ensures uses == Kept(old(uses), Only(user))
    {
      uses := Kept(uses, Only(user));
    }
  }

  // ----- the graph as a value, and its invariant ----------------------------------------------------------------

  datatype Graph = Graph(ops: map<Value, seq<Value?>>, uses: map<Value, seq<Use>>)

  ghost function GraphOf(all: set<Value>): Graph
    reads all
  {
    Graph(map v | v in all :: v.operands, map v | v in all :: v.uses)
  }

  /** Slot `i` of `u` holds `v` exactly when Use(u, i) is in the list of `v`, and then it is there once. */
  ghost predicate Mirrors(g: Graph, u: Value, i: nat, v: Value)
    requires u in g.ops && v in g.uses
  {
    i < |g.ops[u]| ==> Times(g.uses[v], Use(u, i)) == if g.ops[u][i] == v then 1 else 0
  }

  ghost predicate Consistent(g: Graph) {
    && g.ops.Keys == g.uses.Keys
    && (forall u, i :: u in g.ops && 0 <= i < |g.ops[u]| && g.ops[u][i] != null ==> g.ops[u][i] in g.uses)
    && (forall v, use :: v in g.uses && use in g.uses[v] ==> use.val in g.ops && use.argNo < |g.ops[use.val]|)
    && (forall u, i: nat, v {:trigger Mirrors(g, u, i, v)} :: u in g.ops && v in g.uses ==> Mirrors(g, u, i, v))
  }

  // ----- replacing uses ---------------------------------------------------------------------------------------

  function MoveSlots(ops: seq<Value?>, self: Value, newVal: Value): (r: seq<Value?>)
    ensures |r| == |ops| && forall i :: 0 <= i < |ops| ==> r[i] == if ops[i] == self then newVal else ops[i]
  {
    if ops == [] then [] else [if ops[0] == self then newVal else ops[0]] + MoveSlots(ops[1..], self, newVal)
  }

  /** The selected users have `newVal` wherever they had `self`; nothing else changes. */
  function Replaced(g: Graph, self: Value, newVal: Value, sel: Value -> bool): Graph
    requires self in g.uses && newVal in g.uses
  {
    Graph(map u | u in g.ops :: if sel(u) then MoveSlots(g.ops[u], self, newVal) else g.ops[u],
          g.uses[self := Kept(g.uses[self], sel)][newVal := g.uses[newVal] + Selected(g.uses[self], sel)])
  }

  lemma MirrorsReplaced(g: Graph, self: Value, newVal: Value, sel: Value -> bool, u: Value, i: nat, v: Value)
    requires Consistent(g) && self in g.uses && newVal in g.uses && newVal != self && u in g.ops && v in g.uses
    ensures Mirrors(Replaced(g, self, newVal, sel), u, i, v)
  {
    assert Mirrors(g, u, i, v) && Mirrors(g, u, i, self);
    SplitCount(g.uses[self], sel, Use(u, i));
    TimesConcat(g.uses[newVal], Selected(g.uses[self], sel), Use(u, i));
  }

  lemma ReplacedUses(g: Graph, self: Value, newVal: Value, sel: Value -> bool, v: Value, use: Use)
    requires self in g.uses && newVal in g.uses && v in g.uses && newVal != self
             && use in Replaced(g, self, newVal, sel).uses[v]
    ensures use in g.uses[v] || use in g.uses[self]
  {
    SplitMembers(g.uses[self], sel);
    if v == newVal { assert use in g.uses[newVal] || use in Selected(g.uses[self], sel); }
  }

  /** What a use in a list names exists. */
  lemma UseExists(g: Graph, v: Value, use: Use)
    requires Consistent(g) && v in g.uses && use in g.uses[v]
    ensures use.val in g.ops && use.argNo < |g.ops[use.val]|
  {}

  /** Replacing uses keeps the graph consistent. */
  lemma ReplaceKeepsConsistent(g: Graph, self: Value, newVal: Value, sel: Value -> bool)
    requires Consistent(g) && self in g.uses && newVal in g.uses && newVal != self
    ensures Consistent(Replaced(g, self, newVal, sel))
  {
    hide Times, Kept, Selected;
    var r := Replaced(g, self, newVal, sel);
    forall v, use | v in r.uses && use in r.uses[v] ensures use.val in r.ops && use.argNo < |r.ops[use.val]| {
      ReplacedUses(g, self, newVal, sel, v, use);
    }
    forall u, i: nat, v {:trigger Mirrors(r, u, i, v)} | u in r.ops && v in r.uses ensures Mirrors(r, u, i, v) {
      MirrorsReplaced(g, self, newVal, sel, u, i, v);
    }
  }

  /** The slots that the uses in `moved` name hold `newVal`. */
  ghost predicate Filled(g: Graph, moved: seq<Use>, newVal: Value, all: set<Value>)
    requires g.ops.Keys == all
    reads all
  {
    forall u {:trigger u.operands} :: u in all ==>
      && |u.operands| == |g.ops[u]|
      && forall i {:trigger u.operands[i]} :: 0 <= i < |u.operands| ==>
        u.operands[i] == if Use(u, i) in moved then newVal else g.ops[u][i]
  }

  ghost predicate OtherUses(g: Graph, self: Value, newVal: Value, all: set<Value>)
    requires g.uses.Keys == all
    reads all
  {
    forall u {:trigger u.uses} :: u in all && u != self && u != newVal ==> u.uses == g.uses[u]
  }

  /** Filling all slots named by the list of `self` is replacing. */
  lemma FilledIsReplaced(g: Graph, self: Value, newVal: Value, sel: Value -> bool, all: set<Value>)
    requires Consistent(g) && g.ops.Keys == all && self in all && newVal in all && newVal != self
    requires Filled(g, Selected(g.uses[self], sel), newVal, all) && OtherUses(g, self, newVal, all)
    requires self.uses == Kept(g.uses[self], sel) && newVal.uses == g.uses[newVal] + Selected(g.uses[self], sel)
    ensures GraphOf(all) == Replaced(g, self, newVal, sel)
  {
    var r, h := Replaced(g, self, newVal, sel), GraphOf(all);
    SplitMembers(g.uses[self], sel);
    forall u | u in all ensures h.ops[u] == r.ops[u] {
      assert h.ops[u] == u.operands;
      forall i: nat | i < |u.operands| ensures u.operands[i] == r.ops[u][i] {
        assert Mirrors(g, u, i, self);
        TimesIn(g.uses[self], Use(u, i));
      }
    }
    forall v | v in all ensures h.uses[v] == r.uses[v] { assert h.uses[v] == v.uses; }
    assert h.ops == r.ops && h.uses == r.uses;
  }

  lemma NothingFilled(g: Graph, newVal: Value, all: set<Value>)
    requires g == GraphOf(all)
    ensures Filled(g, [], newVal, all)
  {
    assert forall u :: u in all ==> g.ops[u] == u.operands;
  }

  /** The slot that `use` names gets `newVal`. */
  method FillSlot(use: Use, newVal: Value, ghost g: Graph, ghost moved: seq<Use>, ghost all: set<Value>)
    requires g.ops.Keys == all && use.val in all && newVal in all && use.argNo < |g.ops[use.val]|
    requires Filled(g, moved, newVal, all)
    modifies use.val`operands, newVal`uses
    ensures Filled(g, moved + [use], newVal, all) && newVal.uses == old(newVal.uses) + [use]
  {
    assert use.val.operands == use.val.operands;
    use.val.SetOperand(use.argNo, newVal);
  }

  /** Every use of `self` becomes one of `newVal`, which must be another value: on itself the loop
      appends to the list it walks, and never ends. */
  method ReplaceAllUseWith(self: Value, newVal: Value, ghost all: set<Value>)
    requires self in all && newVal in all && newVal != self && Consistent(GraphOf(all))
    modifies all
    ensures GraphOf(all) == Replaced(old(GraphOf(all)), self, newVal, Anyone()) && Consistent(GraphOf(all))
    ensures self.uses == []
  {
    hide Consistent, Times, Selected, Kept, Replaced;
    ghost var g := GraphOf(all);
    var k := 0;
    while k < |self.uses|
      invariant 0 <= k <= |self.uses| && self.uses == g.uses[self]
      invariant Filled(g, self.uses[..k], newVal, all) && OtherUses(g, self, newVal, all)
      invariant newVal.uses == g.uses[newVal] + self.uses[..k]
    {
      var use := self.uses[k];
      UseExists(g, self, use);
      assert self.uses[..k + 1] == self.uses[..k] + [use];
      FillSlot(use, newVal, g, self.uses[..k], all);
      k := k + 1;
    }
    assert self.uses[..k] == g.uses[self];
    self.uses := [];
    SelectAll(g.uses[self]);
    FilledIsReplaced(g, self, newVal, Anyone(), all);
    ReplaceKeepsConsistent(g, self, newVal, Anyone());
  }

  /** The use at `i` in the list of `self` goes to `newVal`. */
  method MoveUse(self: Value, i: nat, newVal: Value, ghost g: Graph, ghost moved: seq<Use>, ghost all: set<Value>)
    requires self in all && newVal in all && newVal != self && i < |self.uses| && g.ops.Keys == all
             && g.uses.Keys == all
    requires self.uses[i].val in all && self.uses[i].argNo < |g.ops[self.uses[i].val]|
    requires Filled(g, moved, newVal, all) && OtherUses(g, self, newVal, all)
    modifies all
    ensures Filled(g, moved + [old(self.uses[i])], newVal, all) && OtherUses(g, self, newVal, all)
    ensures newVal.uses == old(newVal.uses) + [old(self.uses[i])] && self.uses
            == old(self.uses)[..i] + old(self.uses)[i + 1..]
  {
    FillSlot(self.uses[i], newVal, g, moved, all);
    self.uses := self.uses[..i] + self.uses[i + 1..];
  }

  /** The same for the uses by selected users only; the other uses keep their order. */
  method ReplaceUseWithWhen(self: Value, newVal: Value, sel: Value -> bool, ghost all: set<Value>)
    requires self in all && newVal in all && newVal != self && Consistent(GraphOf(all))
    modifies all
    ensures GraphOf(all) == Replaced(old(GraphOf(all)), self, newVal, sel) && Consistent(GraphOf(all))
  {
    hide Consistent, Times, Selected, Kept, Replaced, Filled;
    ghost var g, k := GraphOf(all), 0;
    ghost var list := self.uses;
    SplitNothing(sel);
    NothingFilled(g, newVal, all);
    assert list[..0] == [];
    var i := 0;
    while i < |self.uses|
      invariant 0 <= k <= |list| && i == |Kept(list[..k], sel)| && self.uses == Kept(list[..k], sel) + list[k..]
      invariant Filled(g, Selected(list[..k], sel), newVal, all) && OtherUses(g, self, newVal, all)
      invariant newVal.uses == g.uses[newVal] + Selected(list[..k], sel)
      decreases |list| - k
    {
      var use := self.uses[i];
      assert use == list[k];
      UseExists(g, self, use);
      assert self.uses[i + 1..] == list[k + 1..] && self.uses[..i] == Kept(list[..k], sel);
      SplitSnoc(list, sel, k);
      if !sel(use.val) {
        i := i + 1;
      } else {
        MoveUse(self, i, newVal, g, Selected(list[..k], sel), all);
      }
      k := k + 1;
    }
    assert list[..k] == g.uses[self];
    FilledIsReplaced(g, self, newVal, sel, all);
    ReplaceKeepsConsistent(g, self, newVal, sel);
  }

  // ----- filling slots, and giving them up -----------------------------------------------------------------

  /** An empty slot, or one at the end of the list, gets a value. */
  function WithOperand(g: Graph, u: Value, i: nat, v: Value): Graph
    requires u in g.ops && v in g.uses && i <= |g.ops[u]|
  {
    Graph(g.ops[u := if i < |g.ops[u]| then g.ops[u][i := v] else g.ops[u] + [v]], g.uses[v := g.uses[v] + [Use(u, i)]])
  }

  lemma WithOperandConsistent(g: Graph, u: Value, i: nat, v: Value)
    requires Consistent(g) && u in g.ops && v in g.uses && i <= |g.ops[u]|
    ensures Consistent(WithOperand(g, u, i, v)) <==> i == |g.ops[u]| || g.ops[u][i] == null
  {
    if i < |g.ops[u]| && g.ops[u][i] != null {
      OldUseStays(g, u, i, v);
    } else {
      NewUseFits(g, u, i, v);
    }
  }

  /** The value that was in the slot keeps its use, or has it twice. */
  lemma OldUseStays(g: Graph, u: Value, i: nat, v: Value)
    requires Consistent(g) && u in g.ops && v in g.uses && i < |g.ops[u]| && g.ops[u][i] != null
    ensures !Consistent(WithOperand(g, u, i, v))
  {
    var r, was: Value := WithOperand(g, u, i, v), g.ops[u][i];
    assert Mirrors(g, u, i, was);
    TimesConcat(g.uses[v], [Use(u, i)], Use(u, i));
    assert r.ops[u][i] == v;
    assert !Mirrors(r, u, i, was);
  }

  lemma NewUseFits(g: Graph, u: Value, i: nat, v: Value)
    requires Consistent(g) && u in g.ops && v in g.uses && i <= |g.ops[u]| && (i < |g.ops[u]| ==> g.ops[u][i] == null)
    ensures Consistent(WithOperand(g, u, i, v))
  {
    var r := WithOperand(g, u, i, v);
    forall a, j: nat, x {:trigger Mirrors(r, a, j, x)} | a in r.ops && x in r.uses ensures Mirrors(r, a, j, x) {
      assert Mirrors(g, a, j, x);
      TimesConcat(g.uses[v], [Use(u, i)], Use(a, j));
      if a == u && j == |g.ops[u]| { TimesIn(g.uses[x], Use(a, j)); }
    }
  }

  /** Filling an empty slot keeps the invariant, and no other does: a value that was in the slot
      keeps its use. */
  method FillOperand(u: Value, i: nat, v: Value, ghost all: set<Value>)
    requires u in all && v in all && Consistent(GraphOf(all)) && i < |u.operands|
    modifies u`operands, v`uses
    ensures GraphOf(all) == WithOperand(old(GraphOf(all)), u, i, v)
    ensures Consistent(GraphOf(all)) <==> old(u.operands[i]) == null
  {
    ghost var g := GraphOf(all);
    u.SetOperand(i, v);
    assert GraphOf(all).ops == WithOperand(g, u, i, v).ops && GraphOf(all).uses == WithOperand(g, u, i, v).uses;
    WithOperandConsistent(g, u, i, v);
  }

  /** A phi gets another operand. */
  method AppendOperand(u: Value, v: Value, ghost all: set<Value>)
    requires u in all && v in all && Consistent(GraphOf(all))
    modifies u`operands, v`uses
    ensures GraphOf(all) == WithOperand(old(GraphOf(all)), u, |old(u.operands)|, v) && Consistent(GraphOf(all))
  {
    ghost var g := GraphOf(all);
    u.AddOperand(v);
    assert GraphOf(all).ops == WithOperand(g, u, |g.ops[u]|, v).ops && GraphOf(all).uses
           == WithOperand(g, u, |g.ops[u]|, v).uses;
    WithOperandConsistent(g, u, |g.ops[u]|, v);
  }

  /** The graph after `self` has given up its operands and has been erased. */
  function Erased(g: Graph, self: Value): Graph {
    Graph(g.ops - {self}, map v | v in g.uses && v != self :: Kept(g.uses[v], Only(self)))
  }

  lemma KeptUse(uses: seq<Use>, self: Value, use: Use)
    requires use in Kept(uses, Only(self))
    ensures use in uses && use.val != self
  {
    SplitMembers(uses, Only(self));
    assert Only(self)(use.val) == (use.val == self);
  }

  lemma ErasedMirrors(g: Graph, self: Value, u: Value, i: nat, v: Value)
    requires Consistent(g) && u in g.ops && v in g.uses && u != self && self in g.uses && g.uses[self] == []
    ensures v != self ==> Mirrors(Erased(g, self), u, i, v)
    ensures i < |g.ops[u]| ==> g.ops[u][i] != self
  {
    assert Mirrors(g, u, i, v) && Mirrors(g, u, i, self);
    SplitCount(g.uses[v], Only(self), Use(u, i));
  }

  /** Erasing a value that nothing uses leaves a consistent graph. */
  lemma EraseKeepsConsistent(g: Graph, self: Value)
    requires Consistent(g) && self in g.uses && g.uses[self] == []
    ensures Consistent(Erased(g, self))
  {
    hide Times, Kept, Mirrors;
    var r := Erased(g, self);
    forall u, i: nat | u in r.ops && i < |r.ops[u]| && r.ops[u][i] != null ensures r.ops[u][i] in r.uses {
      ErasedMirrors(g, self, u, i, g.ops[u][i]);
    }
    forall v, use | v in r.uses && use in r.uses[v] ensures use.val in r.ops && use.argNo < |r.ops[use.val]| {
      KeptUse(g.uses[v], self, use);
      UseExists(g, v, use);
    }
    forall u, i: nat, v {:trigger Mirrors(r, u, i, v)} | u in r.ops && v in r.uses ensures Mirrors(r, u, i, v) {
      ErasedMirrors(g, self, u, i, v);
    }
  }

  lemma NoUseElsewhere(g: Graph, self: Value, v: Value)
    requires Consistent(g) && self in g.ops && v in g.uses && v !in g.ops[self]
    ensures Kept(g.uses[v], Only(self)) == g.uses[v]
  {
    forall use | use in g.uses[v] ensures use.val != self {
      assert Mirrors(g, use.val, use.argNo, v);
      TimesIn(g.uses[v], use);
    }
    KeptNone(g.uses[v], Only(self));
  }

  lemma OperandsExist(g: Graph, u: Value)
    requires Consistent(g) && u in g.ops
    ensures forall v :: v in g.ops[u] && v != null ==> v in g.uses
  {}

  lemma ErasedIs(g: Graph, self: Value, all: set<Value>)
    requires g.ops.Keys == g.uses.Keys == all
    requires forall v {:trigger v.operands} {:trigger v.uses} :: v in all ==>
               v.operands == g.ops[v] && v.uses == Kept(g.uses[v], Only(self))
    ensures GraphOf(all - {self}) == Erased(g, self)
  {
    var h, r := GraphOf(all - {self}), Erased(g, self);
    forall v | v in all - {self} ensures h.ops[v] == r.ops[v] && h.uses[v] == r.uses[v] {
      assert h.ops[v] == v.operands && h.uses[v] == v.uses;
    }
    assert h.ops == r.ops && h.uses == r.uses;
  }

  /** The operands of `self` forget it. */
  method RemoveUseOfOps(self: Value, ghost all: set<Value>)
    requires self in all && Consistent(GraphOf(all)) && forall i :: 0 <= i < |self.operands| ==>
               self.operands[i] != null
    modifies all
    ensures forall v {:trigger v.operands} {:trigger v.uses} :: v in all ==>
              v.operands == old(v.operands) && v.uses == Kept(old(v.uses), Only(self))
    ensures old(self.uses) == [] ==> GraphOf(all - {self}) == Erased(old(GraphOf(all)), self)
                                     && Consistent(GraphOf(all - {self}))
  {
    hide Consistent, Kept, Erased;
    ghost var g := GraphOf(all);
    OperandsExist(g, self);
    var k := 0;
    while k < |self.operands|
      invariant 0 <= k <= |self.operands|
      invariant forall v {:trigger v.operands} :: v in all ==> v.operands == g.ops[v]
      invariant forall v {:trigger v.uses} :: v in all ==> v.uses == if v in self.operands[..k]
                then Kept(g.uses[v], Only(self)) else g.uses[v]
    {
      var op := self.operands[k];
      assert self.operands[..k + 1] == self.operands[..k] + [op];
      KeptTwice(g.uses[op], Only(self));
      op.RemoveUse(self);
      k := k + 1;
    }
    assert self.operands[..k] == self.operands;
    forall v {:trigger v.uses} | v in all ensures v.uses == Kept(g.uses[v], Only(self)) {
      if v !in self.operands { NoUseElsewhere(g, self, v); }
    }
    ErasedIs(g, self, all);
    if g.uses[self] == [] { EraseKeepsConsistent(g, self); }
  }
}

/** `maybeThunk` is a sound optimisation: a run that reuses environment slots and constants
    does what the run that suspends every expression does. */
module SharingSim {
  import opened Wrappers
  import opened SortedAttrs
  import opened Syntax
  import opened Scope
  import opened Machine
  import opened AddressedEval
  import opened FuelMono
  import opened Sharing

  /** The plain run is out of fuel, or both fail alike, or both end with `v` and `w`
      satisfying `related`. */
  ghost predicate Same<T(!new)>(k: Link, k': Link, t: AState, rt: Out<T, AState>, rs: Out<T, AState>) {
    match rt
    case OutOfFuel => true
    case Raised(err) => rs == Raised(err)
    case Done(v, t') => rs.Done? && rs.v == v && Stepped(k, k', t, t', rs.s)
  }

  ghost predicate SameValue(k: Link, k': Link, t: AState, rt: Out<AValue, AState>, rs: Out<AValue, AState>) {
    match rt
    case OutOfFuel => true
    case Raised(err) => rs == Raised(err)
    case Done(v, t') => rs.Done? && ValRel(k'.rho, v, rs.v) && Stepped(k, k', t, t', rs.s)
  }

  /** What corresponds after a first step corresponds from the start. */
  lemma SameAfter(k: Link, k1: Link, k': Link, t: AState, t1: AState, s1: AState, rt: Out<AValue, AState>, rs: Out<AValue, AState>)
    requires Stepped(k, k1, t, t1, s1) && SameValue(k1, k', t1, rt, rs)
    ensures SameValue(k, k', t, rt, rs)
  {
    if rt.Done? { SteppedTwice(k, k1, k', t, t1, rt.s, s1, rs.s); }
  }

  ghost predicate SameCell(k: Link, k': Link, t: AState, rt: Out<nat, AState>, rs: Out<nat, AState>) {
    match rt
    case OutOfFuel => true
    case Raised(err) => rs == Raised(err)
    case Done(c, t') => rs.Done? && c < |k'.rho| && rs.v == k'.rho[c] && Stepped(k, k', t, t', rs.s)
  }

  ghost predicate SameAttrs(k: Link, k': Link, t: AState, rt: Out<seq<Attr<nat>>, AState>, rs: Out<seq<Attr<nat>>, AState>) {
    match rt
    case OutOfFuel => true
    case Raised(err) => rs == Raised(err)
    case Done(xs, t') => rs.Done? && AttrsRel(k'.rho, xs, rs.v) && Stepped(k, k', t, t', rs.s)
  }

  ghost predicate TargetRel(rho: seq<nat>, x: Target<Addr, WithInfo>, y: Target<Addr, WithInfo>) {
    match x
    case Direct(v) => y.Direct? && ValRel(rho, v, y.v)
    case At(c) => c < |rho| && y == At(rho[c])
  }

  // ---- forcing ----

  /** The cells in `pending` are black holes waiting for the value of the cell that `a` stands for. */
  ghost predicate Waiting(k: Link, t: AState, pending: set<nat>, a: nat)
    requires |k.rho| == |t.cells| && a < |t.cells|
  {
    a !in pending && forall p :: p in pending ==> a < p < |t.cells| && t.cells[p].BlackHole? && k.rho[p] == k.rho[a]
  }

  ghost predicate Forced(k: Link, k': Link, pending: set<nat>, t: AState, x: nat, rt: Out<AValue, AState>, rs: Out<AValue, AState>) {
    match rt
    case OutOfFuel => true
    case Raised(err) => rs == Raised(err)
    case Done(v, t') =>
      && rs.Done? && ValRel(k'.rho, v, rs.v) && Extends(k, k') && Rel(k', t', rs.s, pending) && Later(t, t')
      && x < |rs.s.cells| && rs.s.cells[x] == Val(rs.v)
  }

  function Open(c: nat, t: AState): AState
    requires c < |t.cells|
  {
    t.(cells := t.cells[c := BlackHole])
  }

  function Store(c: nat, v: AValue, t: AState): AState
    requires c < |t.cells|
  {
    t.(cells := t.cells[c := Val(v)])
  }

  lemma HolesOfOpen(c: nat, t: AState)
    requires c < |t.cells|
    ensures Holes(Open(c, t)) == Holes(t) + {c}
  {
    assert forall a: nat :: a < |t.cells| && a != c ==> Open(c, t).cells[a] == t.cells[a];
  }

  lemma HolesOfStore(c: nat, v: AValue, t: AState)
    requires c < |t.cells|
    ensures Holes(Store(c, v, t)) == Holes(t) - {c}
  {
    assert forall a: nat :: a < |t.cells| && a != c ==> Store(c, v, t).cells[a] == t.cells[a];
  }

  /** Both runs start on the suspended expression of a cell and its image. */
  lemma OpenBoth(k: Link, t: AState, s: AState, pending: set<nat>, a: nat)
    requires Rel(k, t, s, pending) && a < |t.cells| && Waiting(k, t, pending, a)
    requires t.cells[a].Thunk? && s.cells[k.rho[a]] == t.cells[a] && k.root[k.rho[a]] == a
    ensures Rel(k, Open(a, t), Open(k.rho[a], s), {})
  {
    var x := k.rho[a];
    var t', s' := Open(a, t), Open(x, s);
    forall b | 0 <= b < |t'.cells| ensures CellRel(k, t'.envs, b, t'.cells[b], s'.cells[k.rho[b]]) {
      if b !in pending { assert CellRel(k, t.envs, b, t.cells[b], s.cells[k.rho[b]]); }
    }
  }

  /** Both runs store the value; the waiting cells still lack it. */
  lemma StoreBoth(k: Link, t: AState, s: AState, pending: set<nat>, a: nat, k1: Link, t1: AState, s1: AState, v: AValue, w: AValue)
    requires Rel(k, t, s, pending) && a < |t.cells| && Waiting(k, t, pending, a)
    requires s.cells[k.rho[a]].Thunk? && k.root[k.rho[a]] == a
    requires Extends(k, k1) && Rel(k1, t1, s1, {}) && Holes(t1) == Holes(t) + {a} && |t.cells| <= |t1.cells| && ValRel(k1.rho, v, w)
    ensures Rel(k1, Store(a, v, t1), Store(k.rho[a], w, s1), pending)
  {
    var x := k.rho[a];
    var t2, s2 := Store(a, v, t1), Store(x, w, s1);
    assert a in Holes(t1);
    assert CellRel(k1, t1.envs, a, t1.cells[a], s1.cells[x]);
    forall b | 0 <= b < |t.cells| && b !in pending && t.cells[b].BlackHole? ensures k.rho[b] != x {
      assert CellRel(k, t.envs, b, t.cells[b], s.cells[k.rho[b]]);
    }
    forall b: nat | b < |t1.cells| && t1.cells[b].BlackHole? && b != a && b !in pending ensures k1.rho[b] != x {
      assert b in Holes(t1) && b in Holes(t);
    }
    forall b | 0 <= b < |t2.cells| && b !in pending ensures CellRel(k1, t2.envs, b, t2.cells[b], s2.cells[k1.rho[b]]) {
      assert CellRel(k1, t1.envs, b, t1.cells[b], s1.cells[k1.rho[b]]);
    }
  }

  /** An alias got the value that its image holds. */
  lemma StoreAlias(k1: Link, t1: AState, s1: AState, pending: set<nat>, a: nat, v: AValue, w: AValue)
    requires Rel(k1, t1, s1, pending + {a}) && a < |t1.cells| && a !in pending
    requires s1.cells[k1.rho[a]] == Val(w) && ValRel(k1.rho, v, w)
    ensures Rel(k1, Store(a, v, t1), s1, pending)
  {
    var t2 := Store(a, v, t1);
    forall b | 0 <= b < |t2.cells| && b !in pending ensures CellRel(k1, t2.envs, b, t2.cells[b], s1.cells[k1.rho[b]]) {
      if b != a { assert CellRel(k1, t1.envs, b, t1.cells[b], s1.cells[k1.rho[b]]); }
    }
  }

  lemma OpenAlias(k: Link, t: AState, s: AState, pending: set<nat>, a: nat, c: nat)
    requires Rel(k, t, s, pending) && a < |t.cells| && Waiting(k, t, pending, a)
    requires c < a && k.rho[c] == k.rho[a] && c !in pending
    ensures Rel(k, Open(a, t), s, pending + {a}) && Waiting(k, Open(a, t), pending + {a}, c)
  {
    var t' := Open(a, t);
    forall b | 0 <= b < |t'.cells| && b !in pending + {a} ensures CellRel(k, t'.envs, b, t'.cells[b], s.cells[k.rho[b]]) {
      assert CellRel(k, t.envs, b, t.cells[b], s.cells[k.rho[b]]);
    }
  }

  lemma LaterStore(t: AState, t0: AState, t1: AState, a: nat, v: AValue)
    requires a < |t.cells| && !t.cells[a].BlackHole? && t0 == Open(a, t) && Later(t0, t1)
    ensures Later(t, Store(a, v, t1))
  {
    HolesOfOpen(a, t);
    HolesOfStore(a, v, t1);
    assert a !in Holes(t);
  }

  /** Forcing an alias is forcing the slot it names, two levels of fuel further down. */
  lemma AliasForce(n: nat, a: nat, t: AState, e: Bound, env: nat, c: nat)
    requires a < |t.cells| && t.cells[a] == Thunk(e, env) && Shared(e, env, t.envs) == Some(c)
    ensures ForceA(n, a, t) == if n < 2 then OutOfFuel else Stored(a, ForceA(n - 2, c, Open(a, t)))
  {
    if n >= 2 { assert EvalA(n - 1, e, env, Open(a, t)) == ForceA(n - 2, c, Open(a, t)); }
  }

  lemma SimForce(n: nat, a: nat, pending: set<nat>, k: Link, t: AState, s: AState) returns (k': Link)
    requires Rel(k, t, s, pending) && a < |t.cells| && Waiting(k, t, pending, a)
    ensures Forced(k, k', pending, t, k.rho[a], ForceA(n, a, t), ForceA(n, k.rho[a], s))
    decreases n, 1
  {
    k' := k;
    assert CellRel(k, t.envs, a, t.cells[a], s.cells[k.rho[a]]);
    EnvsSame(t.envs);
    if t.cells[a].Thunk? && !ForceA(n, a, t).OutOfFuel? {
      var e, env := t.cells[a].e, t.cells[a].env;
      if IsAlias(k, t.envs, a, e, env) {
        k' := SimAlias(n, a, pending, k, t, s);
      } else if s.cells[k.rho[a]].Thunk? {
        k' := SimThunk(n, a, pending, k, t, s);
      } else {
        SimConstant(n, a, pending, k, t, s);
      }
    }
  }

  lemma SimAlias(n: nat, a: nat, pending: set<nat>, k: Link, t: AState, s: AState) returns (k': Link)
    requires Rel(k, t, s, pending) && a < |t.cells| && Waiting(k, t, pending, a)
    requires t.cells[a].Thunk? && IsAlias(k, t.envs, a, t.cells[a].e, t.cells[a].env) && !ForceA(n, a, t).OutOfFuel?
    ensures Forced(k, k', pending, t, k.rho[a], ForceA(n, a, t), ForceA(n, k.rho[a], s))
    decreases n, 0
  {
    var c := Shared(t.cells[a].e, t.cells[a].env, t.envs).value;
    AliasForce(n, a, t, t.cells[a].e, t.cells[a].env, c);
    OpenAlias(k, t, s, pending, a, c);
    k' := SimForce(n - 2, c, pending + {a}, k, Open(a, t), s);
    AliasOutcome(n, a, c, pending, k, k', t, s);
  }

  /** Forcing the slot had corresponding outcomes, so forcing the alias has. */
  lemma AliasOutcome(n: nat, a: nat, c: nat, pending: set<nat>, k: Link, k': Link, t: AState, s: AState)
    requires n >= 2 && a < |t.cells| == |k.rho| && !t.cells[a].BlackHole? && a !in pending
    requires !ForceA(n - 2, c, Open(a, t)).OutOfFuel?
    requires ForceA(n, a, t) == Stored(a, ForceA(n - 2, c, Open(a, t)))
    requires Forced(k, k', pending + {a}, Open(a, t), k.rho[a], ForceA(n - 2, c, Open(a, t)), ForceA(n - 2, k.rho[a], s))
    ensures Forced(k, k', pending, t, k.rho[a], ForceA(n, a, t), ForceA(n, k.rho[a], s))
  {
    MoreForce(n - 2, n, k.rho[a], s);
    AliasForced(a, pending, k, k', t, ForceA(n - 2, c, Open(a, t)), ForceA(n, k.rho[a], s));
  }

  /** What forcing an alias makes of the outcome of forcing its slot. */
  function Stored(a: nat, r: Out<AValue, AState>): Out<AValue, AState> {
    match r
    case OutOfFuel => OutOfFuel
    case Raised(err) => Raised(err)
    case Done(v, t1) => if a < |t1.cells| then Done(v, Store(a, v, t1)) else Raised(Stuck)
  }

  lemma AliasForced(a: nat, pending: set<nat>, k: Link, k': Link, t: AState, rt: Out<AValue, AState>, rs: Out<AValue, AState>)
    requires a < |t.cells| == |k.rho| && !t.cells[a].BlackHole? && a !in pending && !rt.OutOfFuel?
    requires Forced(k, k', pending + {a}, Open(a, t), k.rho[a], rt, rs)
    ensures Forced(k, k', pending, t, k.rho[a], Stored(a, rt), rs)
  {
    if rt.Done? { AliasStored(a, pending, k, k', t, rt.s, rs.s, rt.v, rs.v); }
  }

  /** The slot has been forced; the alias gets its value. */
  lemma AliasStored(a: nat, pending: set<nat>, k: Link, k': Link, t: AState, t1: AState, s1: AState, v: AValue, w: AValue)
    requires a < |t.cells| == |k.rho| && !t.cells[a].BlackHole? && a !in pending
    requires Extends(k, k') && Rel(k', t1, s1, pending + {a}) && Later(Open(a, t), t1)
    requires k.rho[a] < |s1.cells| && s1.cells[k.rho[a]] == Val(w) && ValRel(k'.rho, v, w)
    ensures a < |t1.cells| && Rel(k', Store(a, v, t1), s1, pending) && Later(t, Store(a, v, t1))
  {
    StoreAlias(k', t1, s1, pending, a, v, w);
    LaterStore(t, Open(a, t), t1, a, v);
  }

  lemma SimThunk(n: nat, a: nat, pending: set<nat>, k: Link, t: AState, s: AState) returns (k': Link)
    requires Rel(k, t, s, pending) && a < |t.cells| && Waiting(k, t, pending, a)
    requires t.cells[a].Thunk? && s.cells[k.rho[a]] == t.cells[a] && k.root[k.rho[a]] == a && Clean(t.cells[a].e)
    ensures Forced(k, k', pending, t, k.rho[a], ForceA(n, a, t), ForceA(n, k.rho[a], s))
    decreases n, 0
  {
    k' := k;
    if n > 0 {
      var e, env, x := t.cells[a].e, t.cells[a].env, k.rho[a];
      OpenBoth(k, t, s, pending, a);
      k' := SimEval(n - 1, e, env, k, Open(a, t), Open(x, s));
      var rt, rs := EvalA(n - 1, e, env, Open(a, t)), EvalA(n - 1, e, env, Open(x, s));
      if rt.Done? {
        HolesOfOpen(a, t);
        StoreBoth(k, t, s, pending, a, k', rt.s, rs.s, rt.v, rs.v);
        LaterStore(t, Open(a, t), rt.s, a, rt.v);
      }
    }
  }

  lemma SimConstant(n: nat, a: nat, pending: set<nat>, k: Link, t: AState, s: AState)
    requires Rel(k, t, s, pending) && a < |t.cells| && Waiting(k, t, pending, a)
    requires t.cells[a].Thunk? && Constant(t.cells[a].e).Some? && s.cells[k.rho[a]] == Val(Constant(t.cells[a].e).value)
    ensures Forced(k, k, pending, t, k.rho[a], ForceA(n, a, t), ForceA(n, k.rho[a], s))
  {
    if n > 1 {
      var v := Constant(t.cells[a].e).value;
      assert EvalA(n - 1, t.cells[a].e, t.cells[a].env, Open(a, t)) == Done(v, Open(a, t));
      EnvsSame(t.envs);
      LaterStore(t, Open(a, t), Open(a, t), a, v);
      forall b | 0 <= b < |t.cells| && b !in pending ensures CellRel(k, t.envs, b, Store(a, v, t).cells[b], s.cells[k.rho[b]]) {
        assert CellRel(k, t.envs, b, t.cells[b], s.cells[k.rho[b]]);
      }
      assert Store(a, v, Open(a, t)) == Store(a, v, t);
    }
  }

  lemma SimCell(n: nat, a: nat, k: Link, t: AState, s: AState) returns (k': Link)
    requires Rel(k, t, s, {}) && a < |t.cells|
    ensures SameValue(k, k', t, ForceA(n, a, t), ForceA(n, k.rho[a], s))
    decreases n, 2
  {
    k' := SimForce(n, a, {}, k, t, s);
  }

  lemma SimBool(n: nat, e: Bound, env: nat, k: Link, t: AState, s: AState) returns (k': Link)
    requires Rel(k, t, s, {}) && Clean(e)
    ensures Same(k, k', t, BoolA(n, e, env, t), BoolA(n, e, env, s))
    decreases n, 3
  {
    k' := SimEval(n, e, env, k, t, s);
  }

  lemma SimEvalAttrs(n: nat, e: Bound, env: nat, k: Link, t: AState, s: AState) returns (k': Link)
    requires Rel(k, t, s, {}) && Clean(e)
    ensures SameAttrs(k, k', t, EvalAttrsA(n, e, env, t), EvalAttrsA(n, e, env, s))
    decreases n, 3
  {
    k' := SimEval(n, e, env, k, t, s);
  }

  lemma SimLookup(n: nat, name: Symbol, addr: Addr, env: nat, k: Link, t: AState, s: AState) returns (k': Link)
    requires Rel(k, t, s, {})
    ensures SameCell(k, k', t, LookupVar(n, name, addr, env, t), LookupVar(n, name, addr, env, s))
    decreases n, 4
  {
    k' := k;
    SteppedNot(k, t, s);
    match addr
    case Lexical(level, displ) => SlotSame(k.rho, t.envs, s.envs, env, level, displ);
    case FromWith(level, node) =>
      ClimbSame(k.rho, t.envs, s.envs, env, level);
      if Climb(t.envs, env, level).Some? {
        k' := SimWith(n, Climb(t.envs, env, level).value, node, name, k, t, s);
      }
  }

  lemma SimWith(n: nat, env: nat, node: WithInfo, name: Symbol, k: Link, t: AState, s: AState) returns (k': Link)
    requires Rel(k, t, s, {})
    ensures SameCell(k, k', t, WithA(n, env, node, name, t), WithA(n, env, node, name, s))
    decreases n, 3, node
  {
    k' := k;
    SlotSame(k.rho, t.envs, s.envs, env, 0, 0);
    var slot := Slot(t.envs, env, 0, 0);
    if slot.Some? {
      k' := SimCell(n, slot.value, k, t, s);
      var rt, rs := ForceA(n, slot.value, t), ForceA(n, k.rho[slot.value], s);
      if rt.Done? && rt.v.AttrsV? {
        GetBoth(k'.rho, rt.v.attrs, rs.v.attrs, name);
        if Get(rt.v.attrs, name).None? && node.parent.Some? {
          ClimbSame(k'.rho, rt.s.envs, rs.s.envs, env, node.prevWith);
          var f := Climb(rt.s.envs, env, node.prevWith);
          if f.Some? {
            var k1 := k';
            k' := SimWith(n, f.value, node.parent.value, name, k1, rt.s, rs.s);
            var qt, qs := WithA(n, f.value, node.parent.value, name, rt.s), WithA(n, f.value, node.parent.value, name, rs.s);
            if qt.Done? { SteppedTwice(k, k1, k', t, rt.s, qt.s, rs.s, qs.s); }
          }
        }
      }
    }
  }

  lemma SimTarget(n: nat, x: Target<Addr, WithInfo>, y: Target<Addr, WithInfo>, k: Link, t: AState, s: AState) returns (k': Link)
    requires Rel(k, t, s, {}) && TargetRel(k.rho, x, y)
    ensures SameValue(k, k', t, TargetA(n, x, t), TargetA(n, y, s))
    decreases n, 3
  {
    k' := k;
    SteppedNot(k, t, s);
    if x.At? { k' := SimCell(n, x.cell, k, t, s); }
  }

  lemma SimName(n: nat, a: AttrName<Addr, WithInfo>, env: nat, k: Link, t: AState, s: AState) returns (k': Link)
    requires Rel(k, t, s, {}) && (a.Dynamic? ==> Clean(a.e))
    ensures Same(k, k', t, NameA(n, a, env, t), NameA(n, a, env, s))
    decreases n, 3
  {
    k' := k;
    SteppedNot(k, t, s);
    if a.Dynamic? { k' := SimEval(n, a.e, env, k, t, s); }
  }

  lemma SimSelect(n: nat, x: Target<Addr, WithInfo>, y: Target<Addr, WithInfo>, path: List<AttrName<Addr, WithInfo>>, def: Option<Bound>,
                  env: nat, k: Link, t: AState, s: AState)
    returns (k': Link)
    requires Rel(k, t, s, {}) && TargetRel(k.rho, x, y) && CleanPath(path) && CleanOption(def)
    ensures SameValue(k, k', t, SelectA(n, x, path, def, env, t), SelectA(n, y, path, def, env, s))
    decreases n, 4, path, 0
  {
    match path
    case Nil => k' := SimTarget(n, x, y, k, t, s);
    case Cons(a, rest) =>
      var k1 := SimName(n, a, env, k, t, s);
      k' := k1;
      var nt, ns := NameA(n, a, env, t), NameA(n, a, env, s);
      if nt.Done? {
        k' := SimNamed(n, x, y, nt.v, rest, def, env, k1, nt.s, ns.s);
        var qt, qs := NamedA(n, nt.v, x, rest, def, env, nt.s), NamedA(n, nt.v, y, rest, def, env, ns.s);
        SelectIsA(n, x, path, def, env, t);
        SelectIsA(n, y, path, def, env, s);
        SameAfter(k, k1, k', t, nt.s, ns.s, qt, qs);
      }
  }

  lemma SimNamed(n: nat, x: Target<Addr, WithInfo>, y: Target<Addr, WithInfo>, name: Symbol, rest: List<AttrName<Addr, WithInfo>>,
                 def: Option<Bound>, env: nat, k: Link, t: AState, s: AState)
    returns (k': Link)
    requires Rel(k, t, s, {}) && TargetRel(k.rho, x, y) && CleanPath(rest) && CleanOption(def)
    ensures SameValue(k, k', t, NamedA(n, name, x, rest, def, env, t), NamedA(n, name, y, rest, def, env, s))
    decreases n, 4, rest, 2
  {
    var k1 := SimTarget(n, x, y, k, t, s);
    k' := k1;
    var rt, rs := TargetA(n, x, t), TargetA(n, y, s);
    if rt.Done? {
      k' := SimSelected(n, rt.v, rs.v, name, rest, def, env, k1, rt.s, rs.s);
      var qt, qs := SelectedA(n, name, rt.v, rest, def, env, rt.s), SelectedA(n, name, rs.v, rest, def, env, rs.s);
      if qt.Done? { SteppedTwice(k, k1, k', t, rt.s, qt.s, rs.s, qs.s); }
    }
  }

  lemma SimSelected(n: nat, v: AValue, w: AValue, name: Symbol, rest: List<AttrName<Addr, WithInfo>>, def: Option<Bound>,
                    env: nat, k: Link, t: AState, s: AState)
    returns (k': Link)
    requires Rel(k, t, s, {}) && ValRel(k.rho, v, w) && CleanPath(rest) && CleanOption(def)
    ensures SameValue(k, k', t, SelectedA(n, name, v, rest, def, env, t), SelectedA(n, name, w, rest, def, env, s))
    decreases n, 4, rest, 1
  {
    k' := k;
    if v.AttrsV? { GetBoth(k.rho, v.attrs, w.attrs, name); }
    if v.AttrsV? && Get(v.attrs, name).Some? {
      var c := Get(v.attrs, name).value;
      k' := SimSelect(n, At(c), At(k.rho[c]), rest, def, env, k, t, s);
    } else if def.Some? {
      k' := SimEval(n, def.value, env, k, t, s);
    }
  }

  lemma SimHasAttr(n: nat, x: Target<Addr, WithInfo>, y: Target<Addr, WithInfo>, path: List<AttrName<Addr, WithInfo>>,
                   env: nat, k: Link, t: AState, s: AState)
    returns (k': Link)
    requires Rel(k, t, s, {}) && TargetRel(k.rho, x, y) && CleanPath(path)
    ensures SameValue(k, k', t, HasAttrA(n, x, path, env, t), HasAttrA(n, y, path, env, s))
    decreases n, 4, path
  {
    k' := k;
    SteppedNot(k, t, s);
    if path.Cons? {
      var k1 := SimTarget(n, x, y, k, t, s);
      k' := k1;
      var rt, rs := TargetA(n, x, t), TargetA(n, y, s);
      if rt.Done? {
        var k2 := SimName(n, path.head, env, k1, rt.s, rs.s);
        k' := k2;
        var nt, ns := NameA(n, path.head, env, rt.s), NameA(n, path.head, env, rs.s);
        if nt.Done? {
          SteppedTwice(k, k1, k2, t, rt.s, nt.s, rs.s, ns.s);
          if rt.v.AttrsV? {
            GetBoth(k1.rho, rt.v.attrs, rs.v.attrs, nt.v);
            if Get(rt.v.attrs, nt.v).Some? {
              var c := Get(rt.v.attrs, nt.v).value;
              k' := SimHasAttr(n, At(c), At(k2.rho[c]), path.tail, env, k2, nt.s, ns.s);
              var qt, qs := HasAttrA(n, At(c), path.tail, env, nt.s), HasAttrA(n, At(k2.rho[c]), path.tail, env, ns.s);
              if qt.Done? { SteppedTwice(k, k2, k', t, nt.s, qt.s, ns.s, qs.s); }
            }
          }
        }
      }
    }
  }

  lemma SimDyn(n: nat, dyn: List<DynAttr<Addr, WithInfo>>, xs: seq<Attr<nat>>, ys: seq<Attr<nat>>, env: nat, k: Link, t: AState, s: AState)
    returns (k': Link)
    requires Rel(k, t, s, {}) && CleanDyn(dyn) && AttrsRel(k.rho, xs, ys)
    ensures SameValue(k, k', t, DynA(n, dyn, xs, env, t), DynA(n, dyn, ys, env, s))
    decreases n, 4, dyn, 0
  {
    k' := k;
    match dyn
    case Nil => SteppedNot(k, t, s);
    case Cons(d, rest) =>
      var k1 := SimEval(n, d.nameE, env, k, t, s);
      k' := k1;
      var rt, rs := EvalA(n, d.nameE, env, t), EvalA(n, d.nameE, env, s);
      if rt.Done? {
        if rt.v == Data(Null) {
          k' := SimDyn(n, rest, xs, ys, env, k1, rt.s, rs.s);
          var qt, qs := DynA(n, rest, xs, env, rt.s), DynA(n, rest, ys, env, rs.s);
          if qt.Done? { SteppedTwice(k, k1, k', t, rt.s, qt.s, rs.s, qs.s); }
        } else if rt.v.Data? && rt.v.c.Str? {
          GetBoth(k1.rho, xs, ys, rt.v.c.sym);
          if Get(xs, rt.v.c.sym).None? {
            k' := SimAdd(n, dyn, rt.v.c.sym, xs, ys, env, k1, rt.s, rs.s);
            var qt, qs := AddA(n, dyn, rt.v.c.sym, xs, env, rt.s), AddA(n, dyn, rt.v.c.sym, ys, env, rs.s);
            if qt.Done? { SteppedTwice(k, k1, k', t, rt.s, qt.s, rs.s, qs.s); }
          }
        }
      }
  }

  lemma SimAdd(n: nat, dyn: List<DynAttr<Addr, WithInfo>>, name: Symbol, xs: seq<Attr<nat>>, ys: seq<Attr<nat>>, env: nat,
               k: Link, t: AState, s: AState)
    returns (k': Link)
    requires Rel(k, t, s, {}) && dyn.Cons? && CleanDyn(dyn) && AttrsRel(k.rho, xs, ys)
    ensures SameValue(k, k', t, AddA(n, dyn, name, xs, env, t), AddA(n, dyn, name, ys, env, s))
    decreases n, 4, dyn.tail, 1
  {
    var e, rest := dyn.head.valueE, dyn.tail;
    var k1 := MaybeThunks(e, env, k, t, s);
    var (c, t1) := MaybeThunkA(e, env, t);
    var (d, s1) := MaybeThunkA(e, env, s);
    InsertBoth(k1.rho, xs, ys, name, c);
    var xs1, ys1 := Insert(xs, Attr(name, c)), Insert(ys, Attr(name, d));
    k' := SimDyn(n, rest, xs1, ys1, env, k1, t1, s1);
    var qt, qs := DynA(n, rest, xs1, env, t1), DynA(n, rest, ys1, env, s1);
    if qt.Done? { SteppedTwice(k, k1, k', t, t1, qt.s, s1, qs.s); }
  }

  lemma SimPlainAttrs(n: nat, attrs: AttrSet<Addr, WithInfo>, env: nat, k: Link, t: AState, s: AState) returns (k': Link)
    requires Rel(k, t, s, {}) && CleanSet(attrs) && !attrs.recursive
    ensures SameValue(k, k', t, AttrsA(n, attrs, env, t), AttrsA(n, attrs, env, s))
    decreases n, 5
  {
    var k1 := SourcesBoth(attrs.from, env, k, t, s);
    var (sources, t1) := SourcesA(attrs.from, env, t);
    var (_, s1) := SourcesA(attrs.from, env, s);
    var k2 := ThunkDefsBoth(attrs.defs, env, sources, k1, t1, s1);
    var (xs, t2) := ThunkDefsA(attrs.defs, env, sources, t1);
    var (ys, s2) := ThunkDefsA(attrs.defs, env, sources, s1);
    SteppedTwice(k, k1, k2, t, t1, t2, s1, s2);
    k' := SimDyn(n, attrs.dyn, xs, ys, env, k2, t2, s2);
    var qt, qs := DynA(n, attrs.dyn, xs, env, t2), DynA(n, attrs.dyn, ys, env, s2);
    if qt.Done? { SteppedTwice(k, k2, k', t, t2, qt.s, s2, qs.s); }
  }

  lemma SimOpenFrame(defs: List<AttrDef<Addr, WithInfo>>, from: List<Bound>, env: nat, k: Link, t: AState, s: AState) returns (k': Link)
    requires Rel(k, t, s, {}) && CleanDefs(defs) && CleanList(from)
    ensures
      var (xs, t') := OpenA(defs, from, false, env, t);
      var (ys, s') := OpenA(defs, from, false, env, s);
      |t.envs| == |s.envs| && AttrsRel(k'.rho, xs, ys) && Stepped(k, k', t, t', s')
  {
    var f: AFrame := AFrame(Some(env), seq(Length(defs), _ => None));
    PushBoth(k, t, s, f, f);
    var (inner, t1) := Push(f, t);
    var (_, s1) := Push(f, s);
    var k1 := SourcesBoth(from, inner, k, t1, s1);
    var (sources, t2) := SourcesA(from, inner, t1);
    var (_, s2) := SourcesA(from, inner, s1);
    assert t2.envs[inner] == t1.envs[inner] == f;
    SteppedTwice(k, k, k1, t, t1, t2, s1, s2);
    k' := FillBoth(defs, 0, inner, env, sources, k1, t2, s2);
    SteppedTwice(k, k1, k', t, t2, FillA(defs, 0, false, inner, env, sources, t2).1, s2, FillA(defs, 0, false, inner, env, sources, s2).1);
  }

  lemma SimRecAttrs(n: nat, attrs: AttrSet<Addr, WithInfo>, env: nat, k: Link, t: AState, s: AState) returns (k': Link)
    requires Rel(k, t, s, {}) && CleanSet(attrs) && attrs.recursive
    ensures SameValue(k, k', t, AttrsA(n, attrs, env, t), AttrsA(n, attrs, env, s))
    decreases n, 5
  {
    var k1 := SimOpenFrame(attrs.defs, attrs.from, env, k, t, s);
    var inner := |t.envs|;
    var (xs, t1) := OpenA(attrs.defs, attrs.from, false, env, t);
    var (ys, s1) := OpenA(attrs.defs, attrs.from, false, env, s);
    k' := SimDyn(n, attrs.dyn, xs, ys, inner, k1, t1, s1);
    var qt, qs := DynA(n, attrs.dyn, xs, inner, t1), DynA(n, attrs.dyn, ys, inner, s1);
    assert AttrsA(n, attrs, env, t) == qt && AttrsA(n, attrs, env, s) == qs;
    if qt.Done? { SteppedTwice(k, k1, k', t, t1, qt.s, s1, qs.s); }
  }

  lemma SimMatch(lam: Lam<Addr, WithInfo>, lamEnv: nat, arg: nat, xs: seq<Attr<nat>>, ys: seq<Attr<nat>>, k: Link, t: AState, s: AState)
    returns (k': Link)
    requires lam.Pattern? && CleanLam(lam) && Rel(k, t, s, {}) && arg < |k.rho| && AttrsRel(k.rho, xs, ys)
    ensures Same(k, k', t, MatchA(lam, lamEnv, arg, xs, t), MatchA(lam, lamEnv, k.rho[arg], ys, s))
  {
    var f, g := PatternFrameA(lam, lamEnv, arg), PatternFrameA(lam, lamEnv, k.rho[arg]);
    var displ := if lam.at.Some? then 1 else 0;
    PushBoth(k, t, s, f, g);
    var (inner, t1) := Push(f, t);
    var (_, s1) := Push(g, s);
    assert t1.envs[inner] == f;
    k' := FormalsBoth(lam.formals, displ, xs, ys, inner, k, t1, s1);
    UnexpectedBoth(k.rho, xs, ys, FormalNames(lam.formals));
    var rt, rs := FormalsA(lam.formals, displ, xs, inner, t1), FormalsA(lam.formals, displ, ys, inner, s1);
    if rt.Done? { SteppedTwice(k, k, k', t, t1, rt.s, s1, rs.s); }
  }

  lemma SimEnter(n: nat, lam: Lam<Addr, WithInfo>, lamEnv: nat, arg: nat, k: Link, t: AState, s: AState) returns (k': Link)
    requires Rel(k, t, s, {}) && CleanLam(lam) && arg < |k.rho|
    ensures Same(k, k', t, EnterA(n, lam, lamEnv, arg, t), EnterA(n, lam, lamEnv, k.rho[arg], s))
    decreases n, 3
  {
    match lam
    case ArgOnly(_, _) =>
      PushBoth(k, t, s, AFrame(Some(lamEnv), [Some(arg)]), AFrame(Some(lamEnv), [Some(k.rho[arg])]));
      k' := k;
    case Pattern(_, _, _, _) =>
      var k1 := SimCell(n, arg, k, t, s);
      k' := k1;
      var rt, rs := ForceA(n, arg, t), ForceA(n, k.rho[arg], s);
      if rt.Done? && rt.v.AttrsV? {
        k' := SimMatch(lam, lamEnv, arg, rt.v.attrs, rs.v.attrs, k1, rt.s, rs.s);
        var qt, qs := MatchA(lam, lamEnv, arg, rt.v.attrs, rt.s), MatchA(lam, lamEnv, k1.rho[arg], rs.v.attrs, rs.s);
        assert EnterA(n, lam, lamEnv, arg, t) == qt && EnterA(n, lam, lamEnv, k.rho[arg], s) == qs;
        if qt.Done? { SteppedTwice(k, k1, k', t, rt.s, qt.s, rs.s, qs.s); }
      }
  }

  lemma SimCall(n: nat, f: AValue, g: AValue, cs: seq<nat>, ds: seq<nat>, k: Link, t: AState, s: AState) returns (k': Link)
    requires Rel(k, t, s, {}) && ValRel(k.rho, f, g) && CellsRel(k.rho, cs, ds)
    ensures SameValue(k, k', t, CallA(n, f, cs, t), CallA(n, g, ds, s))
    decreases n, 4, |cs|, 1
  {
    k' := k;
    SteppedNot(k, t, s);
    if cs != [] {
      match f
      case Closure(_, _) => k' := SimApply(n, f, cs, ds, k, t, s);
      case AttrsV(attrs) =>
        GetBoth(k.rho, attrs, g.attrs, FUNCTOR);
        if n > 0 && Get(attrs, FUNCTOR).Some? { k' := SimFunctor(n, f, g, cs, ds, k, t, s); }
      case _ =>
    }
  }

  lemma SimApply(n: nat, f: AValue, cs: seq<nat>, ds: seq<nat>, k: Link, t: AState, s: AState) returns (k': Link)
    requires Rel(k, t, s, {}) && f.Closure? && CleanLam(f.lam) && CellsRel(k.rho, cs, ds) && cs != []
    ensures SameValue(k, k', t, CallA(n, f, cs, t), CallA(n, f, ds, s))
    decreases n, 4, |cs|, 0
  {
    var k1 := SimEnter(n, f.lam, f.env, cs[0], k, t, s);
    k' := k1;
    var rt, rs := EnterA(n, f.lam, f.env, cs[0], t), EnterA(n, f.lam, f.env, ds[0], s);
    if rt.Done? {
      var k2 := SimEval(n, f.lam.body, rt.v, k1, rt.s, rs.s);
      k' := k2;
      var qt, qs := EvalA(n, f.lam.body, rt.v, rt.s), EvalA(n, f.lam.body, rt.v, rs.s);
      if qt.Done? {
        SteppedTwice(k, k1, k2, t, rt.s, qt.s, rs.s, qs.s);
        k' := SimCall(n, qt.v, qs.v, cs[1..], ds[1..], k2, qt.s, qs.s);
        var pt, ps := CallA(n, qt.v, cs[1..], qt.s), CallA(n, qs.v, ds[1..], qs.s);
        if pt.Done? { SteppedTwice(k, k2, k', t, qt.s, pt.s, qs.s, ps.s); }
      }
    }
  }

  lemma SimFunctorStep(n: nat, f: AValue, g: AValue, c: nat, k: Link, t: AState, s: AState) returns (k': Link)
    requires Rel(k, t, s, {}) && ValRel(k.rho, f, g) && c < |k.rho|
    requires n > 0 && f.AttrsV? && Get(f.attrs, FUNCTOR).Some? && Get(g.attrs, FUNCTOR).Some?
    ensures SameValue(k, k', t, FunctorA(n, f, c, t), FunctorA(n, g, k.rho[c], s))
    decreases n, 0
  {
    GetBoth(k.rho, f.attrs, g.attrs, FUNCTOR);
    var k1 := AllocSelf(f, g, k, t, s);
    var self, t1 := |t.cells|, Alloc(Val(f), t).1;
    var self', s1 := |s.cells|, Alloc(Val(g), s).1;
    var x := Get(f.attrs, FUNCTOR).value;
    k' := SimCallCell(n - 1, x, [self, c], [self', k.rho[c]], k1, t1, s1);
    var qt, qs := CallCellA(n - 1, x, [self, c], t1), CallCellA(n - 1, k.rho[x], [self', k.rho[c]], s1);
    SameAfter(k, k1, k', t, t1, s1, qt, qs);
  }

  lemma AllocSelf(f: AValue, g: AValue, k: Link, t: AState, s: AState) returns (k': Link)
    requires Rel(k, t, s, {}) && ValRel(k.rho, f, g)
    ensures Stepped(k, k', t, Alloc(Val(f), t).1, Alloc(Val(g), s).1) && |t.cells| < |k'.rho| && k'.rho[|t.cells|] == |s.cells|
  {
    ValGrows(k.rho, k.rho + [|s.cells|], f, g);
    k' := AllocBoth(k, t, s, Val(f), Val(g));
  }

  lemma SimCallCell(n: nat, x: nat, cs: seq<nat>, ds: seq<nat>, k: Link, t: AState, s: AState) returns (k': Link)
    requires Rel(k, t, s, {}) && x < |k.rho| && CellsRel(k.rho, cs, ds)
    ensures SameValue(k, k', t, CallCellA(n, x, cs, t), CallCellA(n, k.rho[x], ds, s))
    decreases n, 5
  {
    var k1 := SimCell(n, x, k, t, s);
    k' := k1;
    var rt, rs := ForceA(n, x, t), ForceA(n, k.rho[x], s);
    if rt.Done? {
      k' := SimCall(n, rt.v, rs.v, cs, ds, k1, rt.s, rs.s);
      var qt, qs := CallA(n, rt.v, cs, rt.s), CallA(n, rs.v, ds, rs.s);
      if qt.Done? { SteppedTwice(k, k1, k', t, rt.s, qt.s, rs.s, qs.s); }
    }
  }

  lemma SimFunctor(n: nat, f: AValue, g: AValue, cs: seq<nat>, ds: seq<nat>, k: Link, t: AState, s: AState) returns (k': Link)
    requires Rel(k, t, s, {}) && ValRel(k.rho, f, g) && CellsRel(k.rho, cs, ds) && cs != []
    requires n > 0 && f.AttrsV? && Get(f.attrs, FUNCTOR).Some? && Get(g.attrs, FUNCTOR).Some?
    ensures SameValue(k, k', t, CallA(n, f, cs, t), CallA(n, g, ds, s))
    decreases n, 4, |cs|, 0
  {
    var k1 := SimFunctorStep(n, f, g, cs[0], k, t, s);
    k' := k1;
    var rt, rs := FunctorA(n, f, cs[0], t), FunctorA(n, g, ds[0], s);
    if rt.Done? {
      k' := SimCall(n, rt.v, rs.v, cs[1..], ds[1..], k1, rt.s, rs.s);
      var qt, qs := CallA(n, rt.v, cs[1..], rt.s), CallA(n, rs.v, ds[1..], rs.s);
      if qt.Done? { SteppedTwice(k, k1, k', t, rt.s, qt.s, rs.s, qs.s); }
    }
  }

  lemma SimVar(n: nat, e: Bound, env: nat, k: Link, t: AState, s: AState) returns (k': Link)
    requires n > 0 && e.Var? && Rel(k, t, s, {})
    ensures SameValue(k, k', t, EvalA(n, e, env, t), EvalA(n, e, env, s))
    decreases n, 0
  {
    var k1 := SimLookup(n - 1, e.name, e.addr, env, k, t, s);
    k' := k1;
    var rt, rs := LookupVar(n - 1, e.name, e.addr, env, t), LookupVar(n - 1, e.name, e.addr, env, s);
    if rt.Done? {
      k' := SimCell(n - 1, rt.v, k1, rt.s, rs.s);
      var qt, qs := ForceA(n - 1, rt.v, rt.s), ForceA(n - 1, rs.v, rs.s);
      SteppedCell(k, k1, k', t, rt, rs, qt, qs);
    }
  }

  lemma SteppedCell(k: Link, k1: Link, k': Link, t: AState, rt: Out<nat, AState>, rs: Out<nat, AState>, qt: Out<AValue, AState>, qs: Out<AValue, AState>)
    requires SameCell(k, k1, t, rt, rs) && rt.Done? && SameValue(k1, k', rt.s, qt, qs)
    ensures SameValue(k, k', t, qt, qs)
  {
    SameAfter(k, k1, k', t, rt.s, rs.s, qt, qs);
  }

  lemma SimInherit(n: nat, e: Bound, env: nat, k: Link, t: AState, s: AState) returns (k': Link)
    requires n > 0 && e.InheritFrom? && Rel(k, t, s, {})
    ensures SameValue(k, k', t, EvalA(n, e, env, t), EvalA(n, e, env, s))
    decreases n, 0
  {
    k' := k;
    SlotSame(k.rho, t.envs, s.envs, env, 0, e.displ);
    var slot := Slot(t.envs, env, 0, e.displ);
    if slot.Some? { k' := SimCell(n - 1, slot.value, k, t, s); }
  }

  lemma SimSelection(n: nat, e: Bound, env: nat, k: Link, t: AState, s: AState) returns (k': Link)
    requires n > 0 && (e.Select? || e.HasAttr?) && Rel(k, t, s, {}) && Clean(e)
    ensures SameValue(k, k', t, EvalA(n, e, env, t), EvalA(n, e, env, s))
    decreases n, 0
  {
    var k1 := SimEval(n - 1, e.e, env, k, t, s);
    k' := k1;
    var rt, rs := EvalA(n - 1, e.e, env, t), EvalA(n - 1, e.e, env, s);
    if rt.Done? {
      if e.Select? {
        k' := SimSelect(n - 1, Direct(rt.v), Direct(rs.v), e.path, e.def, env, k1, rt.s, rs.s);
      } else {
        k' := SimHasAttr(n - 1, Direct(rt.v), Direct(rs.v), e.path, env, k1, rt.s, rs.s);
      }
      var qt, qs := EvalA(n, e, env, t), EvalA(n, e, env, s);
      if qt.Done? { SteppedTwice(k, k1, k', t, rt.s, qt.s, rs.s, qs.s); }
    }
  }

  lemma SimCallE(n: nat, e: Bound, env: nat, k: Link, t: AState, s: AState) returns (k': Link)
    requires n > 0 && e.Call? && Rel(k, t, s, {}) && Clean(e)
    ensures SameValue(k, k', t, EvalA(n, e, env, t), EvalA(n, e, env, s))
    decreases n, 0
  {
    var k1 := SimEval(n - 1, e.fun, env, k, t, s);
    k' := k1;
    var rt, rs := EvalA(n - 1, e.fun, env, t), EvalA(n - 1, e.fun, env, s);
    if rt.Done? {
      var k2 := ThunksBoth(e.args, env, k1, rt.s, rs.s);
      var (cs, t2) := ThunksA(e.args, env, rt.s);
      var (ds, s2) := ThunksA(e.args, env, rs.s);
      ValGrows(k1.rho, k2.rho, rt.v, rs.v);
      SteppedTwice(k, k1, k2, t, rt.s, t2, rs.s, s2);
      k' := SimCall(n - 1, rt.v, rs.v, cs, ds, k2, t2, s2);
      var qt, qs := CallA(n - 1, rt.v, cs, t2), CallA(n - 1, rs.v, ds, s2);
      if qt.Done? { SteppedTwice(k, k2, k', t, t2, qt.s, s2, qs.s); }
    }
  }

  lemma SimLet(n: nat, e: Bound, env: nat, k: Link, t: AState, s: AState) returns (k': Link)
    requires n > 0 && e.Let? && Rel(k, t, s, {}) && Clean(e)
    ensures SameValue(k, k', t, EvalA(n, e, env, t), EvalA(n, e, env, s))
    decreases n, 0
  {
    var k1 := SimOpenFrame(e.defs, e.from, env, k, t, s);
    var inner, t1, s1 := |t.envs|, OpenA(e.defs, e.from, false, env, t).1, OpenA(e.defs, e.from, false, env, s).1;
    k' := SimEval(n - 1, e.body, inner, k1, t1, s1);
    var qt, qs := EvalA(n - 1, e.body, inner, t1), EvalA(n - 1, e.body, inner, s1);
    assert EvalA(n, e, env, t) == qt && EvalA(n, e, env, s) == qs;
    if qt.Done? { SteppedTwice(k, k1, k', t, t1, qt.s, s1, qs.s); }
  }

  lemma SimWithE(n: nat, e: Bound, env: nat, k: Link, t: AState, s: AState) returns (k': Link)
    requires n > 0 && e.With? && Rel(k, t, s, {}) && Clean(e)
    ensures SameValue(k, k', t, EvalA(n, e, env, t), EvalA(n, e, env, s))
    decreases n, 0
  {
    var k1 := MaybeThunks(e.scope, env, k, t, s);
    var (c, t1) := MaybeThunkA(e.scope, env, t);
    var (d, s1) := MaybeThunkA(e.scope, env, s);
    var f, g := AFrame(Some(env), [Some(c)]), AFrame(Some(env), [Some(d)]);
    PushBoth(k1, t1, s1, f, g);
    var (inner, t2) := Push(f, t1);
    var (_, s2) := Push(g, s1);
    SteppedTwice(k, k1, k1, t, t1, t2, s1, s2);
    k' := SimEval(n - 1, e.body, inner, k1, t2, s2);
    var qt, qs := EvalA(n - 1, e.body, inner, t2), EvalA(n - 1, e.body, inner, s2);
    if qt.Done? { SteppedTwice(k, k1, k', t, t2, qt.s, s2, qs.s); }
  }

  lemma SimCond(n: nat, e: Bound, env: nat, k: Link, t: AState, s: AState) returns (k': Link)
    requires n > 0 && (e.If? || e.Assert?) && Rel(k, t, s, {}) && Clean(e)
    ensures SameValue(k, k', t, EvalA(n, e, env, t), EvalA(n, e, env, s))
    decreases n, 0
  {
    var k1 := SimBool(n - 1, e.cond, env, k, t, s);
    k' := k1;
    var rt, rs := BoolA(n - 1, e.cond, env, t), BoolA(n - 1, e.cond, env, s);
    if rt.Done? && (e.If? || rt.v) {
      var next := if e.Assert? then e.body else if rt.v then e.thn else e.els;
      k' := SimEval(n - 1, next, env, k1, rt.s, rs.s);
      var qt, qs := EvalA(n - 1, next, env, rt.s), EvalA(n - 1, next, env, rs.s);
      if qt.Done? { SteppedTwice(k, k1, k', t, rt.s, qt.s, rs.s, qs.s); }
    }
  }

  lemma SimBoolOp(n: nat, e: Bound, env: nat, k: Link, t: AState, s: AState) returns (k': Link)
    requires n > 0 && (e.Not? || e.BinBool?) && Rel(k, t, s, {}) && Clean(e)
    ensures SameValue(k, k', t, EvalA(n, e, env, t), EvalA(n, e, env, s))
    decreases n, 0
  {
    var first := if e.Not? then e.e else e.e1;
    var k1 := SimBool(n - 1, first, env, k, t, s);
    k' := k1;
    var rt, rs := BoolA(n - 1, first, env, t), BoolA(n - 1, first, env, s);
    if rt.Done? && e.BinBool? && !(match e.op case And => !rt.v case Or => rt.v case Impl => !rt.v) {
      k' := SimBool(n - 1, e.e2, env, k1, rt.s, rs.s);
      var qt, qs := BoolA(n - 1, e.e2, env, rt.s), BoolA(n - 1, e.e2, env, rs.s);
      if qt.Done? { SteppedTwice(k, k1, k', t, rt.s, qt.s, rs.s, qs.s); }
    }
  }

  lemma SimUpdate(n: nat, e: Bound, env: nat, k: Link, t: AState, s: AState) returns (k': Link)
    requires n > 0 && e.Update? && Rel(k, t, s, {}) && Clean(e)
    ensures SameValue(k, k', t, EvalA(n, e, env, t), EvalA(n, e, env, s))
    decreases n, 0
  {
    var k1 := SimEvalAttrs(n - 1, e.e2, env, k, t, s);
    k' := k1;
    var rt, rs := EvalAttrsA(n - 1, e.e2, env, t), EvalAttrsA(n - 1, e.e2, env, s);
    if rt.Done? {
      k' := SimEvalAttrs(n - 1, e.e1, env, k1, rt.s, rs.s);
      var qt, qs := EvalAttrsA(n - 1, e.e1, env, rt.s), EvalAttrsA(n - 1, e.e1, env, rs.s);
      if qt.Done? {
        SteppedTwice(k, k1, k', t, rt.s, qt.s, rs.s, qs.s);
        MergeBoth(k'.rho, qt.v, rt.v, qs.v, rs.v);
      }
    }
  }

  lemma SimConcat(n: nat, e: Bound, env: nat, k: Link, t: AState, s: AState) returns (k': Link)
    requires n > 0 && e.ConcatLists? && Rel(k, t, s, {}) && Clean(e)
    ensures SameValue(k, k', t, EvalA(n, e, env, t), EvalA(n, e, env, s))
    decreases n, 0
  {
    var k1 := SimEval(n - 1, e.e1, env, k, t, s);
    k' := k1;
    var rt, rs := EvalA(n - 1, e.e1, env, t), EvalA(n - 1, e.e1, env, s);
    if rt.Done? {
      k' := SimEval(n - 1, e.e2, env, k1, rt.s, rs.s);
      var qt, qs := EvalA(n - 1, e.e2, env, rt.s), EvalA(n - 1, e.e2, env, rs.s);
      if qt.Done? {
        SteppedTwice(k, k1, k', t, rt.s, qt.s, rs.s, qs.s);
        if rt.v.ListV? && qt.v.ListV? { CellsConcat(k1.rho, k'.rho, rt.v.elems, rs.v.elems, qt.v.elems, qs.v.elems); }
      }
    }
  }

  lemma CellsConcat(rho: seq<nat>, rho': seq<nat>, cs: seq<nat>, ds: seq<nat>, cs': seq<nat>, ds': seq<nat>)
    requires CellsRel(rho, cs, ds) && rho <= rho' && CellsRel(rho', cs', ds')
    ensures CellsRel(rho', cs + cs', ds + ds')
  {}

  lemma SimOperator(n: nat, e: Bound, env: nat, k: Link, t: AState, s: AState) returns (k': Link)
    requires n > 0 && (e.Not? || e.BinBool? || e.Update? || e.ConcatLists?) && Rel(k, t, s, {}) && Clean(e)
    ensures SameValue(k, k', t, EvalA(n, e, env, t), EvalA(n, e, env, s))
    decreases n, 1
  {
    match e
    case Update(_, _) => k' := SimUpdate(n, e, env, k, t, s);
    case ConcatLists(_, _) => k' := SimConcat(n, e, env, k, t, s);
    case _ => k' := SimBoolOp(n, e, env, k, t, s);
  }

  lemma SimLeaf(n: nat, e: Bound, env: nat, k: Link, t: AState, s: AState) returns (k': Link)
    requires n > 0 && (e.Lit? || e.Lambda? || e.ListE?) && Rel(k, t, s, {}) && Clean(e)
    ensures SameValue(k, k', t, EvalA(n, e, env, t), EvalA(n, e, env, s))
  {
    k' := k;
    SteppedNot(k, t, s);
    if e.ListE? { k' := ThunksBoth(e.elems, env, k, t, s); }
  }

  lemma SimAttrs(n: nat, e: Bound, env: nat, k: Link, t: AState, s: AState) returns (k': Link)
    requires n > 0 && e.Attrs? && Rel(k, t, s, {}) && Clean(e)
    ensures SameValue(k, k', t, EvalA(n, e, env, t), EvalA(n, e, env, s))
    decreases n, 1
  {
    if e.attrs.recursive {
      k' := SimRecAttrs(n - 1, e.attrs, env, k, t, s);
    } else {
      k' := SimPlainAttrs(n - 1, e.attrs, env, k, t, s);
    }
  }

  lemma SimEval(n: nat, e: Bound, env: nat, k: Link, t: AState, s: AState) returns (k': Link)
    requires Rel(k, t, s, {}) && Clean(e)
    ensures SameValue(k, k', t, EvalA(n, e, env, t), EvalA(n, e, env, s))
    decreases n, 2
  {
    k' := k;
    if n > 0 {
      match e
      case Lit(_) => k' := SimLeaf(n, e, env, k, t, s);
      case Lambda(_) => k' := SimLeaf(n, e, env, k, t, s);
      case ListE(_) => k' := SimLeaf(n, e, env, k, t, s);
      case Var(_, _) => k' := SimVar(n, e, env, k, t, s);
      case InheritFrom(_) => k' := SimInherit(n, e, env, k, t, s);
      case Select(_, _, _) => k' := SimSelection(n, e, env, k, t, s);
      case HasAttr(_, _) => k' := SimSelection(n, e, env, k, t, s);
      case Attrs(_) => k' := SimAttrs(n, e, env, k, t, s);
      case Call(_, _) => k' := SimCallE(n, e, env, k, t, s);
      case Let(_, _, _) => k' := SimLet(n, e, env, k, t, s);
      case With(_, _, _) => k' := SimWithE(n, e, env, k, t, s);
      case If(_, _, _) => k' := SimCond(n, e, env, k, t, s);
      case Assert(_, _) => k' := SimCond(n, e, env, k, t, s);
      case _ => k' := SimOperator(n, e, env, k, t, s);
    }
  }
}

/** What the reuse of slots and constants by `maybeThunk` can and cannot change. */
module Reuse {
  import opened Wrappers
  import opened SortedAttrs
  import opened Syntax
  import opened Scope
  import opened Machine
  import opened AddressedEval
  import opened Observation
  import opened FuelMono
  import opened Sharing
  import opened SharingSim
  import opened SharingEnds

  /** In corresponding states, when the plain run ends, the reusing run ends with no more fuel;
      when the reusing run ends, the plain run does with enough. Either way they end alike. */
  lemma ReusePreservesEvaluation(n: nat, e: Bound, env: nat, k: Link, t: AState, s: AState)
    requires Rel(k, t, s, {}) && Clean(e)
    ensures !EvalA(n, e, env, t).OutOfFuel? ==>
      !EvalA(n, e, env, s).OutOfFuel? && exists k' :: SameValue(k, k', t, EvalA(n, e, env, t), EvalA(n, e, env, s))
    ensures !EvalA(n, e, env, s).OutOfFuel? ==>
      exists m, k' :: MeetsValue(n, m, k, k', t, EvalA(m, e, env, t), EvalA(n, e, env, s))
  {
    if !EvalA(n, e, env, t).OutOfFuel? { var k' := SimEval(n, e, env, k, t, s); }
    if !EvalA(n, e, env, s).OutOfFuel? { var m, k' := MeetEval(n, e, env, k, t, s); }
  }

  /** So does forcing any value later: the slot that was handed out forces to what the thunk
      would have, and the one ends if the other does. */
  lemma ReusePreservesForcing(n: nat, c: nat, k: Link, t: AState, s: AState)
    requires Rel(k, t, s, {}) && c < |t.cells|
    ensures !ForceA(n, c, t).OutOfFuel? ==>
      !ForceA(n, k.rho[c], s).OutOfFuel? && exists k' :: SameValue(k, k', t, ForceA(n, c, t), ForceA(n, k.rho[c], s))
    ensures !ForceA(n, k.rho[c], s).OutOfFuel? ==>
      exists m, k' :: MeetsValue(n, m, k, k', t, ForceA(m, c, t), ForceA(n, k.rho[c], s))
  {
    if !ForceA(n, c, t).OutOfFuel? { var k' := SimCell(n, c, k, t, s); }
    if !ForceA(n, k.rho[c], s).OutOfFuel? { var m, k' := MeetCell(n, c, k, t, s); }
  }

  // ---- what is seen of a program ----

  function Observed(picks: seq<Pick>, n: nat, b: Bound, env: nat, base: AState): Seen {
    LookA(picks, n, EvalA(n, b, env, base))
  }

  /** A state whose code is free of `__overrides` and whose cells and slots all exist. */
  ghost predicate CleanState(s: AState) {
    && (forall c :: 0 <= c < |s.cells| ==> CleanCell(s.cells[c], |s.cells|))
    && (forall i, d :: 0 <= i < |s.envs| && 0 <= d < |s.envs[i].values| && s.envs[i].values[d].Some? ==>
          s.envs[i].values[d].value < |s.cells|)
  }

  ghost predicate CleanCell(c: ACell, cells: nat) {
    match c
    case Thunk(e, _) => Clean(e)
    case BlackHole => true
    case Val(Data(_)) => true
    case Val(ListV(elems)) => forall i :: 0 <= i < |elems| ==> elems[i] < cells
    case Val(AttrsV(attrs)) => forall i :: 0 <= i < |attrs| ==> attrs[i].value < cells
    case Val(Closure(lam, _)) => CleanLam(lam)
  }

  function Suspending(s: AState): AState { s.(reuse := false) }

  function Reusing(s: AState): AState { s.(reuse := true) }

  /** Two runs from the same state start in correspondence. */
  lemma SameStart(base: AState) returns (k: Link)
    requires CleanState(base)
    ensures Rel(k, Suspending(base), Reusing(base), {})
  {
    var same := seq(|base.cells|, i => i);
    k := Link(same, same);
    forall i | 0 <= i < |base.envs| ensures FrameRel(k.rho, base.envs[i], base.envs[i]) {
      forall d | 0 <= d < |base.envs[i].values| ensures SlotRel(k.rho, base.envs[i].values[d], base.envs[i].values[d]) {}
    }
    forall a | 0 <= a < |base.cells| ensures CellRel(k, base.envs, a, base.cells[a], base.cells[k.rho[a]]) {
      assert CleanCell(base.cells[a], |base.cells|);
    }
  }

  lemma {:induction false} NamesBoth(rho: seq<nat>, xs: seq<Attr<nat>>, ys: seq<Attr<nat>>)
    requires AttrsRel(rho, xs, ys)
    ensures NamesOf(xs) == NamesOf(ys)
    decreases |xs|
  {
    if xs != [] { NamesBoth(rho, xs[1..], ys[1..]); }
  }

  lemma PartBoth(rho: seq<nat>, v: AValue, w: AValue, p: Pick)
    requires ValRel(rho, v, w)
    ensures Head(v) == Head(w) && SlotRel(rho, Part(v, p), Part(w, p))
  {
    if v.AttrsV? {
      NamesBoth(rho, v.attrs, w.attrs);
      if p.Field? { GetBoth(rho, v.attrs, w.attrs, p.name); }
    }
  }

  /** With the fuel the plain run needs, the reusing run shows the same. */
  lemma {:induction false} LooksSame(picks: seq<Pick>, n: nat, k: Link, k': Link, t: AState, rt: Out<AValue, AState>, rs: Out<AValue, AState>)
    requires SameValue(k, k', t, rt, rs)
    ensures LookA(picks, n, rt).Unfinished? || LookA(picks, n, rs) == LookA(picks, n, rt)
    decreases |picks|
  {
    if rt.Done? {
      PartBoth(k'.rho, rt.v, rs.v, if picks == [] then Elem(0) else picks[0]);
      if picks != [] && Part(rt.v, picks[0]).Some? {
        var c := Part(rt.v, picks[0]).value;
        var k'' := SimCell(n, c, k', rt.s, rs.s);
        LooksSame(picks[1..], n, k', k'', rt.s, ForceA(n, c, rt.s), ForceA(n, k'.rho[c], rs.s));
      }
    }
  }

  lemma {:induction false} MoreLook(picks: seq<Pick>, n: nat, m: nat, r: Out<AValue, AState>)
    requires n <= m
    ensures LookA(picks, n, r).Unfinished? || LookA(picks, m, r) == LookA(picks, n, r)
    decreases |picks|
  {
    if r.Done? && picks != [] && Part(r.v, picks[0]).Some? {
      var c := Part(r.v, picks[0]).value;
      MoreForce(n, m, c, r.s);
      MoreLook(picks[1..], n, m, ForceA(n, c, r.s));
    }
  }

  /** With enough fuel the plain run shows what the reusing run does. */
  lemma {:induction false} EndsLook(picks: seq<Pick>, n: nat, k: Link, k': Link, t: AState, rt: Out<AValue, AState>, rs: Out<AValue, AState>)
    returns (m: nat)
    requires SameValue(k, k', t, rt, rs) && !rt.OutOfFuel? && !LookA(picks, n, rs).Unfinished?
    ensures n <= m && LookA(picks, m, rt) == LookA(picks, n, rs)
    decreases |picks|
  {
    m := n;
    if rt.Done? {
      PartBoth(k'.rho, rt.v, rs.v, if picks == [] then Elem(0) else picks[0]);
      if picks != [] && Part(rt.v, picks[0]).Some? {
        var c := Part(rt.v, picks[0]).value;
        var m1, k'' := MeetCell(n, c, k', rt.s, rs.s);
        var m2 := EndsLook(picks[1..], n, k', k'', rt.s, ForceA(m1, c, rt.s), ForceA(n, k'.rho[c], rs.s));
        m := Max(m1, m2);
        MoreForce(m1, m, c, rt.s);
        MoreLook(picks[1..], m2, m, ForceA(m1, c, rt.s));
      }
    }
  }

  /** More fuel does not change what is seen. */
  lemma MoreObserved(picks: seq<Pick>, n: nat, m: nat, b: Bound, env: nat, base: AState)
    requires n <= m
    ensures Observed(picks, n, b, env, base).Unfinished? || Observed(picks, m, b, env, base) == Observed(picks, n, b, env, base)
  {
    MoreEval(n, m, b, env, base);
    MoreLook(picks, n, m, EvalA(n, b, env, base));
  }

  /** Reuse needs no more fuel. */
  lemma ReuseCostsNoFuel(picks: seq<Pick>, n: nat, b: Bound, env: nat, base: AState)
    requires Clean(b) && CleanState(base)
    ensures var plain := Observed(picks, n, b, env, Suspending(base));
      plain.Unfinished? || Observed(picks, n, b, env, Reusing(base)) == plain
  {
    var k := SameStart(base);
    var k' := SimEval(n, b, env, k, Suspending(base), Reusing(base));
    LooksSame(picks, n, k, k', Suspending(base), EvalA(n, b, env, Suspending(base)), EvalA(n, b, env, Reusing(base)));
  }

  /** What the reusing run shows is shown by the plain run with some fuel. */
  lemma SuspendingRunCatchesUp(picks: seq<Pick>, n: nat, b: Bound, env: nat, base: AState) returns (m: nat)
    requires Clean(b) && CleanState(base) && !Observed(picks, n, b, env, Reusing(base)).Unfinished?
    ensures n <= m && Observed(picks, m, b, env, Suspending(base)) == Observed(picks, n, b, env, Reusing(base))
  {
    var t, s := Suspending(base), Reusing(base);
    var k := SameStart(base);
    var m1, k' := MeetEval(n, b, env, k, t, s);
    var m2 := EndsLook(picks, n, k, k', t, EvalA(m1, b, env, t), EvalA(n, b, env, s));
    m := Max(m1, m2);
    MoreEval(m1, m, b, env, t);
    MoreLook(picks, m2, m, EvalA(m1, b, env, t));
  }

  /** `maybeThunk` is a sound optimisation: without `__overrides` in a `rec`, from any clean
      state, a run that reuses slots and constants shows something, in any part of its result,
      if and only if the run that suspends every expression does. */
  lemma ReuseIsSound(picks: seq<Pick>, b: Bound, env: nat, base: AState, o: Seen)
    requires Clean(b) && CleanState(base) && o != Unfinished
    ensures (exists m :: Observed(picks, m, b, env, Suspending(base)) == o) <==> (exists n :: Observed(picks, n, b, env, Reusing(base)) == o)
  {
    if m :| Observed(picks, m, b, env, Suspending(base)) == o {
      ReuseCostsNoFuel(picks, m, b, env, base);
      assert Observed(picks, m, b, env, Reusing(base)) == o;
    }
    if n :| Observed(picks, n, b, env, Reusing(base)) == o {
      var m := SuspendingRunCatchesUp(picks, n, b, env, base);
      assert Observed(picks, m, b, env, Suspending(base)) == o;
    }
  }

  /** Two runs that both show something agree, whatever fuel each of them had. */
  lemma FinishedRunsAgree(picks: seq<Pick>, n: nat, m: nat, b: Bound, env: nat, base: AState)
    requires Clean(b) && CleanState(base)
    requires !Observed(picks, n, b, env, Suspending(base)).Unfinished? && !Observed(picks, m, b, env, Reusing(base)).Unfinished?
    ensures Observed(picks, n, b, env, Suspending(base)) == Observed(picks, m, b, env, Reusing(base))
  {
    ReuseCostsNoFuel(picks, n, b, env, base);
    MoreObserved(picks, n, Max(n, m), b, env, Reusing(base));
    MoreObserved(picks, m, Max(n, m), b, env, Reusing(base));
  }

  // ---- with `__overrides` reuse can be seen ----

  const A: Symbol := 2
  const B: Symbol := 3

  // An environment without names.
  function Start(reuse: bool): AState {
    State([], [AFrame(None, [])], reuse)
  }

  // { a = b; b = 5; }
  function Overriding(): Named {
    Attrs(AttrSet(false, Cons(AttrDef(A, Plain, Var(B, ())), Cons(AttrDef(B, Plain, Lit(Int(5))), Nil)), Nil, Nil))
  }

  // (rec { __overrides = { a = b; b = 5; }; b = 1; }).a
  function Program(): Named {
    Select(Attrs(AttrSet(true, Cons(AttrDef(OVERRIDES, Plain, Overriding()), Cons(AttrDef(B, Plain, Lit(Int(1))), Nil)), Nil, Nil)),
           Cons(Static(A), Nil), None)
  }

  function BoundOverriding(): Bound {
    Attrs(AttrSet(false, Cons(AttrDef(A, Plain, Var(B, Lexical(0, 1))), Cons(AttrDef(B, Plain, Lit(Int(5))), Nil)), Nil, Nil))
  }

  function BoundProgram(): Bound {
    Select(Attrs(AttrSet(true, Cons(AttrDef(OVERRIDES, Plain, BoundOverriding()), Cons(AttrDef(B, Plain, Lit(Int(1))), Nil)), Nil, Nil)),
           Cons(Static(A), Nil), None)
  }

  function Defs(): List<AttrDef<Addr, WithInfo>> {
    Cons(AttrDef(OVERRIDES, Plain, BoundOverriding()), Cons(AttrDef(B, Plain, Lit(Int(1))), Nil))
  }

  // The state once the frame of the `rec` has been filled.
  function Filled(reuse: bool): AState {
    State([Thunk(BoundOverriding(), 1), Thunk(Lit(Int(1)), 1)],
          [AFrame(None, []), AFrame(Some(0), [Some(0), Some(1)])], reuse)
  }

  lemma FillsFrame(reuse: bool)
    ensures
      var s0: AState := Start(reuse);
      var (inner, s1) := Push(AFrame(Some(0), seq(Length(Defs()), _ => None)), s0);
      inner == 1 && FillA(Defs(), 0, true, 1, 0, 1, s1) == ([Attr(OVERRIDES, 0), Attr(B, 1)], Filled(reuse))
  {
    var s0: AState := Start(reuse);
    var (inner, s1) := Push(AFrame(Some(0), seq(Length(Defs()), _ => None)), s0);
    assert Length(Defs()) == 2;
    assert s1.envs[1].values == [None, None];
    var s2 := SetSlot(1, 0, 0, Alloc(Thunk(BoundOverriding(), 1), s1).1);
    assert s2.cells == [Thunk(BoundOverriding(), 1)];
    assert s2.envs[1].values == [Some(0), None];
    var s3 := SetSlot(1, 1, 1, Alloc(Thunk(Lit(Int(1)), 1), s2).1);
    assert s3.cells == Filled(reuse).cells;
    assert s3.envs[1].values == [Some(0), Some(1)];
    assert s3.envs == Filled(reuse).envs;
    assert FillA(Nil, 2, true, 1, 0, 1, s3) == ([], s3);
    assert [Attr(B, 1)] + [] == [Attr(B, 1)];
    assert [Attr(OVERRIDES, 0)] + [Attr(B, 1)] == [Attr(OVERRIDES, 0), Attr(B, 1)];
    assert FillA(Defs().tail, 1, true, 1, 0, 1, s2) == ([Attr(B, 1)], s3);
  }

  // The attributes of `__overrides` and the cells once it has been forced.
  function OverridingAttrs(reuse: bool): seq<Attr<nat>> {
    if reuse then [Attr(A, 1), Attr(B, 2)] else [Attr(A, 2), Attr(B, 3)]
  }

  function Forced(reuse: bool): AState {
    var v := Val(AttrsV(OverridingAttrs(reuse)));
    var rest := if reuse then [Val(Data(Int(5)))] else [Thunk(Var(B, Lexical(0, 1)), 1), Thunk(Lit(Int(5)), 1)];
    Filled(reuse).(cells := [v, Thunk(Lit(Int(1)), 1)] + rest)
  }

  lemma ForcesOverrides(reuse: bool)
    ensures ForceA(8, 0, Filled(reuse)) == Done(AttrsV(OverridingAttrs(reuse)), Forced(reuse))
  {
    var s0 := Filled(reuse).(cells := Filled(reuse).cells[0 := BlackHole]);
    var x: Bound := Var(B, Lexical(0, 1));
    assert Climb(s0.envs, 1, 0) == Some(1);
    assert Slot(s0.envs, 1, 0, 1) == Some(1);
    var (c, s1) := MaybeThunkA(x, 1, s0);
    var (d, s2) := MaybeThunkA(Lit(Int(5)), 1, s1);
    assert BoundOverriding().attrs.defs.tail.tail == Nil;
    assert ThunkDefsA(Nil, 1, 1, s2) == ([], s2);
    assert [Attr(B, d)] + [] == [Attr(B, d)];
    assert [Attr(A, c)] + [Attr(B, d)] == [Attr(A, c), Attr(B, d)];
    assert ThunkDefsA(BoundOverriding().attrs.defs.tail, 1, 1, s1) == ([Attr(B, d)], s2);
    assert ThunkDefsA(BoundOverriding().attrs.defs, 1, 1, s0) == ([Attr(A, c), Attr(B, d)], s2);
    assert [Attr(A, c), Attr(B, d)] == OverridingAttrs(reuse);
    assert AttrsA(6, BoundOverriding().attrs, 1, s0) == Done(AttrsV(OverridingAttrs(reuse)), s2);
    assert s2.cells[0 := Val(AttrsV(OverridingAttrs(reuse)))] == Forced(reuse).cells;
  }

  // The slot of `b` once it has been overridden.
  function Replaced(reuse: bool): AState {
    SetSlot(1, 1, OverridingAttrs(reuse)[1].value, Forced(reuse))
  }

  lemma ReplacesSlot(reuse: bool)
    ensures IndexOf([OVERRIDES, B], OVERRIDES) == Some(0)
    ensures OverrideSlotsA([OVERRIDES, B], OverridingAttrs(reuse), 1, Forced(reuse)) == Replaced(reuse)
  {
    var over := OverridingAttrs(reuse);
    assert [OVERRIDES, B][1..] == [B];
    assert IndexOf([OVERRIDES, B], A) == None && IndexOf([OVERRIDES, B], B) == Some(1);
    assert over[1..] == [over[1]] && over[1..][1..] == [];
    assert OverrideSlotsA([OVERRIDES, B], over[1..][1..], 1, Replaced(reuse)) == Replaced(reuse);
    assert OverrideSlotsA([OVERRIDES, B], over[1..], 1, Forced(reuse)) == Replaced(reuse);
  }

  lemma BuildsSet(reuse: bool)
    ensures
      var merged := Merge([Attr(OVERRIDES, 0), Attr(B, 1)], OverridingAttrs(reuse));
      AttrsA(8, AttrSet(true, Defs(), Nil, Nil), 0, Start(reuse)) == Done(AttrsV(merged), Replaced(reuse))
  {
    FillsFrame(reuse);
    ForcesOverrides(reuse);
    ReplacesSlot(reuse);
    assert DefNames(Defs()) == [OVERRIDES, B];
    var merged := Merge([Attr(OVERRIDES, 0), Attr(B, 1)], OverridingAttrs(reuse));
    assert DynA(8, Nil, merged, 1, Replaced(reuse)) == Done(AttrsV(merged), Replaced(reuse));
  }

  lemma OverridesResult(reuse: bool)
    ensures Observed([], 10, BoundProgram(), 0, Start(reuse)) == Seen.Constant(Int(if reuse then 1 else 5))
  {
    var s5, over := Replaced(reuse), OverridingAttrs(reuse);
    var merged := Merge([Attr(OVERRIDES, 0), Attr(B, 1)], over);
    BuildsSet(reuse);
    MergesOverrides(over);
    ReadsA(reuse, s5, over[0].value);
    SelectsA(merged, over[0].value, s5);
    assert EvalA(9, BoundProgram().e, 0, Start(reuse)) == Done(AttrsV(merged), s5);
  }

  lemma SelectsA(attrs: seq<Attr<nat>>, target: nat, s: AState)
    requires Get(attrs, A) == Some(target)
    ensures SelectA(9, Direct(AttrsV(attrs)), Cons(Static(A), Nil), None, 0, s) == ForceA(9, target, s)
  {
    assert SelectA(9, At(target), Nil, None, 0, s) == ForceA(9, target, s);
  }

  lemma MergesOverrides(over: seq<Attr<nat>>)
    requires |over| == 2 && over[0].name == A && over[1].name == B
    ensures Get(Merge([Attr(OVERRIDES, 0), Attr(B, 1)], over), A) == Some(over[0].value)
  {
    var xs := [Attr(OVERRIDES, 0), Attr(B, 1)];
    assert Sorted(xs) && Sorted(over);
    MergeGet(xs, over, A);
  }

  lemma ReadsA(reuse: bool, s5: AState, target: nat)
    requires s5 == SetSlot(1, 1, OverridingAttrs(reuse)[1].value, Forced(reuse)) && target == OverridingAttrs(reuse)[0].value
    ensures ForceA(9, target, s5).Done? && ForceA(9, target, s5).v == Data(Int(if reuse then 1 else 5))
  {
    if reuse {
      assert s5.cells[1] == Thunk(Lit(Int(1)), 1);
    } else {
      assert s5.cells[2] == Thunk(Var(B, Lexical(0, 1)), 1);
      var s6 := s5.(cells := s5.cells[2 := BlackHole]);
      assert Climb(s6.envs, 1, 0) == Some(1) && Slot(s6.envs, 1, 0, 1) == Some(3);
      assert s6.cells[3] == Thunk(Lit(Int(5)), 1);
      assert ForceA(7, 3, s6).Done? && ForceA(7, 3, s6).v == Data(Int(5));
      assert EvalA(8, Var(B, Lexical(0, 1)), 1, s6) == ForceA(7, 3, s6);
    }
  }

  lemma ProgramBinds()
    ensures Bind(Program(), Env(Vars([]), Empty)) == Ok(BoundProgram())
  {
    var base := Env(Vars([]), Empty);
    var names := [OVERRIDES, B];
    var inner := Env(Vars(names), base);
    assert names[1..] == [B];
    assert IndexOf(names, B) == Some(1);
    assert Resolve(B, inner) == Ok(Lexical(0, 1));
    assert DefNames(Overriding().attrs.defs) == [A, B];
    assert BindDefs(Overriding().attrs.defs, inner, inner, None) == Ok(BoundOverriding().attrs.defs);
    assert Bind(Overriding(), inner) == Ok(BoundOverriding());
    assert DefNames(Program().e.attrs.defs) == names;
    assert BindDefs(Program().e.attrs.defs, inner, base, None) == Ok(Defs());
  }

  /** `(rec { __overrides = { a = b; b = 5; }; b = 1; }).a` is 1 when the slot of `b` is handed
      out before the override replaces it, and 5 when `a` is suspended. */
  lemma OverridesMakeReuseVisible()
    ensures Bind(Program(), Env(Vars([]), Empty)) == Ok(BoundProgram())
    ensures Observed([], 10, BoundProgram(), 0, Start(true)) == Seen.Constant(Int(1))
    ensures Observed([], 10, BoundProgram(), 0, Start(false)) == Seen.Constant(Int(5))
  {
    OverridesResult(true);
    OverridesResult(false);
    ProgramBinds();
  }
}

/** How `{ ... }` and `rec { ... }` build their attribute array: static attributes in name
    order, then `__overrides`, then dynamic attributes, with a flag that says whether the
    array still has to be sorted. */
module AttrsEval {
  import opened Wrappers
  import opened SortedAttrs
  import opened LayeredSets

  // What the name of a dynamic attribute evaluates to.
  datatype DynName<V> = NullName | Named(name: Symbol, value: V) | NotAString

  datatype AttrsError = DuplicateDynamic(name: Symbol) | BadDynamicName

  ghost predicate DistinctNames<V>(xs: seq<Attr<V>>) {
    forall i, j :: 0 <= i < j < |xs| ==> xs[i].name != xs[j].name
  }

  /** Stands for `std::sort`. */
  function SortByName<V>(xs: seq<Attr<V>>): seq<Attr<V>> {
    if xs == [] then [] else Insert(SortByName(xs[1..]), xs[0])
  }

  lemma {:induction false} SortOk<V>(xs: seq<Attr<V>>)
    requires DistinctNames(xs)
    ensures Sorted(SortByName(xs)) && ToMap(SortByName(xs)) == ToMap(xs) && |SortByName(xs)| == |xs|
  {
    if xs != [] {
      var rest := SortByName(xs[1..]);
      SortOk(xs[1..]);
      InsertOk(rest, xs[0]);
      MapSize(SortByName(xs));
      MapSize(rest);
      ToMapKeys(xs[1..]);
      assert xs[0].name !in ToMap(rest);
      assert |ToMap(rest)[xs[0].name := xs[0].value]| == |ToMap(rest)| + 1;
    }
  }

  lemma SortedDistinct<V>(xs: seq<Attr<V>>)
    requires Sorted(xs)
    ensures DistinctNames(xs)
  {}

  lemma {:induction false} ToMapSnoc<V>(xs: seq<Attr<V>>, a: Attr<V>)
    requires forall k :: 0 <= k < |xs| ==> xs[k].name != a.name
    ensures ToMap(xs + [a]) == ToMap(xs)[a.name := a.value]
  {
    if xs == [] {
      assert [] + [a] == [a];
    } else {
      assert (xs + [a])[1..] == xs[1..] + [a];
      ToMapSnoc(xs[1..], a);
    }
  }

  lemma {:induction false} ToMapUpdate<V>(xs: seq<Attr<V>>, i: nat, a: Attr<V>)
    requires DistinctNames(xs) && i < |xs| && xs[i].name == a.name
    ensures ToMap(xs[i := a]) == ToMap(xs)[a.name := a.value]
  {
    if i == 0 {
      assert xs[0 := a][1..] == xs[1..];
    } else {
      assert xs[i := a][1..] == xs[1..][i - 1 := a];
      ToMapUpdate(xs[1..], i - 1, a);
    }
  }

  /** The attributes the dynamic definitions add. */
  function DynMap<V>(dyn: seq<DynName<V>>): map<Symbol, V> {
    if dyn == [] then map[]
    else
      var last := dyn[|dyn| - 1];
      var before := DynMap(dyn[..|dyn| - 1]);
      if last.Named? then before[last.name := last.value] else before
  }

  /** The k-th dynamic attribute is in error. */
  ghost predicate Bad<V>(defined: set<Symbol>, dyn: seq<DynName<V>>, k: nat)
    requires k < |dyn|
  {
    dyn[k].NotAString? || (dyn[k].Named? && dyn[k].name in defined + DynMap(dyn[..k]).Keys)
  }

  ghost predicate NoneBad<V>(defined: set<Symbol>, dyn: seq<DynName<V>>) {
    forall k :: 0 <= k < |dyn| ==> !Bad(defined, dyn, k)
  }

  ghost predicate FirstError<V>(defined: set<Symbol>, dyn: seq<DynName<V>>, err: AttrsError) {
    exists k :: 0 <= k < |dyn| && Bad(defined, dyn, k) && (forall j :: 0 <= j < k ==> !Bad(defined, dyn, j))
                && err == if dyn[k].NotAString? then BadDynamicName else DuplicateDynamic(dyn[k].name)
  }

  function Statics<V>(names: seq<Symbol>, vals: seq<V>): seq<Attr<V>>
    requires |names| == |vals|
  {
    seq(|names|, i requires 0 <= i < |names| => Attr(names[i], vals[i]))
  }

  /** `attrs->find`: the displacement of a static attribute. */
  method FindStatic(names: seq<Symbol>, name: Symbol) returns (r: Option<nat>)
    requires Ascending(names)
    ensures r.Some? ==> r.value < |names| && names[r.value] == name
    ensures r.None? ==> name !in names
  {
    var i := 0;
    while i < |names|
      invariant 0 <= i <= |names| && name !in names[..i]
    {
      if names[i] == name { return Some(i); }
      assert names[..i + 1] == names[..i] + [names[i]];
      i := i + 1;
    }
    assert names[..i] == names;
    return None;
  }

  /** Where `__overrides` have been applied up to the k-th one: the array stands for the
      static attributes with those overrides, and slots mirror it. */
  ghost predicate Overridden<V>(names: seq<Symbol>, statics: seq<Attr<V>>, over: seq<Attr<V>>, k: nat, bindings: seq<Attr<V>>, slots: seq<V>)
    requires k <= |over|
  {
    && |names| == |statics| == |slots| <= |bindings| <= |statics| + k
    && DistinctNames(bindings)
    && ToMap(bindings) == ToMap(statics) + ToMap(over[..k])
    && (forall d :: 0 <= d < |names| ==> bindings[d] == Attr(names[d], slots[d]))
    && (forall i :: |names| <= i < |bindings| ==> bindings[i] in over[..k])
  }

  lemma OverSnoc<V>(over: seq<Attr<V>>, k: nat)
    requires k < |over| && Sorted(over)
    ensures over[..k + 1] == over[..k] + [over[k]] && ToMap(over[..k + 1]) == ToMap(over[..k])[over[k].name := over[k].value]
    ensures forall a :: a in over[..k] ==> a.name < over[k].name
  {
    assert over[..k + 1] == over[..k] + [over[k]];
    assert forall i :: 0 <= i < k ==> over[..k][i].name < over[k].name;
    ToMapSnoc(over[..k], over[k]);
  }

  lemma OverrideStatic<V>(names: seq<Symbol>, statics: seq<Attr<V>>, over: seq<Attr<V>>, k: nat, bindings: seq<Attr<V>>, slots: seq<V>, d: nat)
    requires k < |over| && Sorted(over) && Overridden(names, statics, over, k, bindings, slots)
    requires d < |names| && names[d] == over[k].name
    ensures Overridden(names, statics, over, k + 1, bindings[d := over[k]], slots[d := over[k].value])
  {
    OverSnoc(over, k);
    ToMapUpdate(bindings, d, over[k]);
  }

  lemma OverrideNew<V>(names: seq<Symbol>, statics: seq<Attr<V>>, over: seq<Attr<V>>, k: nat, bindings: seq<Attr<V>>, slots: seq<V>)
    requires k < |over| && Sorted(over) && Overridden(names, statics, over, k, bindings, slots)
    requires over[k].name !in names
    ensures Overridden(names, statics, over, k + 1, bindings + [over[k]], slots)
  {
    OverSnoc(over, k);
    forall i | 0 <= i < |bindings| ensures bindings[i].name != over[k].name {
      if i < |names| { assert bindings[i].name == names[i] && names[i] in names; }
    }
    ToMapSnoc(bindings, over[k]);
  }

  method ApplyOverrides<V>(names: seq<Symbol>, statics: seq<Attr<V>>, over: seq<Attr<V>>, env: array<V>, capacity: nat)
    returns (bindings: seq<Attr<V>>)
    requires Ascending(names) && Sorted(over) && |names| == |statics| == env.Length && Sorted(statics)
    requires forall d :: 0 <= d < |names| ==> statics[d] == Attr(names[d], env[d])
    requires |statics| + |over| <= capacity
    modifies env
    ensures Overridden(names, statics, over, |over|, bindings, env[..])
  {
    bindings := statics;
    assert over[..0] == [];
    var k := 0;
    while k < |over|
      invariant 0 <= k <= |over|
      invariant Overridden(names, statics, over, k, bindings, env[..])
    {
      var at := FindStatic(names, over[k].name);
      if at.Some? {
        OverrideStatic(names, statics, over, k, bindings, env[..], at.value);
        bindings := bindings[at.value := over[k]];
        ghost var before := env[..];
        env[at.value] := over[k].value;
        assert env[..] == before[at.value := over[k].value];
      } else {
        OverrideNew(names, statics, over, k, bindings, env[..]);
        assert |bindings| < capacity;
        bindings := bindings + [over[k]];
      }
      k := k + 1;
    }
  }

  /** One dynamic attribute; none is added when its name is already defined. The array is
      sorted before the lookup. */
  method AddNamed<V>(start: seq<Attr<V>>, sort: bool, name: Symbol, value: V, capacity: nat) returns (r: Option<seq<Attr<V>>>)
    requires DistinctNames(start) && (!sort ==> Sorted(start)) && |start| < capacity
    ensures r.None? <==> name in ToMap(start)
    ensures r.Some? ==>
      DistinctNames(r.value) && ToMap(r.value) == ToMap(start)[name := value] && |r.value| == |start| + 1
  {
    var bindings := start;
    if sort {
      SortOk(bindings);
      bindings := SortByName(bindings);
    }
    var i := LowerBound(bindings, name);
    ToMapKeys(bindings);
    if i < |bindings| && bindings[i].name == name {
      return None;
    }
    assert |bindings| < capacity;
    ToMapSnoc(bindings, Attr(name, value));
    return Some(bindings + [Attr(name, value)]);
  }

  lemma DynStep<V>(dyn: seq<DynName<V>>, k: nat)
    requires k < |dyn|
    ensures DynMap(dyn[..k + 1]) == if dyn[k].Named? then DynMap(dyn[..k])[dyn[k].name := dyn[k].value] else DynMap(dyn[..k])
  {
    assert dyn[..k + 1][..k] == dyn[..k];
  }

  /** Adds the dynamic attributes. */
  method ApplyDynamic<V>(start: seq<Attr<V>>, needsSort: bool, dyn: seq<DynName<V>>, capacity: nat) returns (r: Result<seq<Attr<V>>, AttrsError>)
    requires DistinctNames(start) && (!needsSort ==> Sorted(start)) && |start| + |dyn| <= capacity
    ensures r.Ok? ==> Sorted(r.value) && ToMap(r.value) == ToMap(start) + DynMap(dyn)
    ensures r.Ok? ==> NoneBad(ToMap(start).Keys, dyn)
    ensures r.Err? ==> FirstError(ToMap(start).Keys, dyn, r.error)
  {
    var bindings, sort := start, needsSort;
    var k := 0;
    assert dyn[..0] == [];
    while k < |dyn|
      invariant 0 <= k <= |dyn| && |bindings| <= |start| + k
      invariant DistinctNames(bindings) && (!sort ==> Sorted(bindings))
      invariant ToMap(bindings) == ToMap(start) + DynMap(dyn[..k])
      invariant forall j :: 0 <= j < k ==> !Bad(ToMap(start).Keys, dyn, j)
    {
      DynStep(dyn, k);
      if dyn[k].NotAString? {
        assert Bad(ToMap(start).Keys, dyn, k);
        return Err(BadDynamicName);
      }
      if dyn[k].Named? {
        var added := AddNamed(bindings, sort, dyn[k].name, dyn[k].value, capacity);
        if added.None? {
          assert Bad(ToMap(start).Keys, dyn, k);
          return Err(DuplicateDynamic(dyn[k].name));
        }
        bindings, sort := added.value, true;
      }
      k := k + 1;
    }
    assert dyn[..k] == dyn;
    if sort {
      SortOk(bindings);
      bindings := SortByName(bindings);
    }
    return Ok(bindings);
  }

  /** The whole of `ExprAttrs::eval`. `vals` are the suspended static attributes, `over` is
      what `__overrides` evaluates to in a `rec` that has it. */
  method EvalAttrs<V>(names: seq<Symbol>, vals: seq<V>, over: Option<seq<Attr<V>>>, dyn: seq<DynName<V>>, env: array<V>)
    returns (r: Result<seq<Attr<V>>, AttrsError>)
    requires Ascending(names) && |names| == |vals| == env.Length
    requires over.Some? ==> Sorted(over.value)
    modifies env
    ensures var base := ToMap(Statics(names, vals)) + if over.Some? then ToMap(over.value) else map[];
      // sorted, without duplicates, and equal to the map the layers stand for
      && (r.Ok? ==> Sorted(r.value) && ToMap(r.value) == base + DynMap(dyn))
      // an error exactly on a repeated or ill-typed dynamic name, the first one
      && (r.Ok? <==> NoneBad(base.Keys, dyn))
      && (r.Err? ==> FirstError(base.Keys, dyn, r.error))
      // every slot of the environment ends as the final binding of its name
      && (forall d :: 0 <= d < |names| ==> names[d] in base && env[d] == base[names[d]])
      && (r.Ok? ==> forall d :: 0 <= d < |names| ==> names[d] in ToMap(r.value) && env[d] == ToMap(r.value)[names[d]])
  {
    var capacity := |names| + |dyn|;
    var bindings := FillStatics(names, vals, env, capacity);
    ghost var base := ToMap(bindings) + if over.Some? then ToMap(over.value) else map[];
    SortedDistinct(bindings);
    if over.Some? {
      capacity := capacity + |over.value|;
      bindings := ApplyOverrides(names, bindings, over.value, env, capacity);
      assert over.value[..|over.value|] == over.value;
    }
    assert ToMap(bindings) == base;
    SlotsMirror(names, bindings, env[..]);
    r := ApplyDynamic(bindings, over.Some?, dyn, capacity);
    ErrorIffBad(base, dyn, r);
  }

  /** The environment slot and the attribute of every static definition. */
  method FillStatics<V>(names: seq<Symbol>, vals: seq<V>, env: array<V>, capacity: nat) returns (statics: seq<Attr<V>>)
    requires Ascending(names) && |names| == |vals| == env.Length && |names| <= capacity
    modifies env
    ensures statics == Statics(names, vals) && Sorted(statics)
    ensures forall d :: 0 <= d < |names| ==> env[d] == vals[d]
  {
    statics := [];
    var displ := 0;
    while displ < |names|
      invariant 0 <= displ <= |names| && statics == Statics(names, vals)[..displ]
      invariant forall d :: 0 <= d < displ ==> env[d] == vals[d]
    {
      env[displ] := vals[displ];
      assert |statics| < capacity;
      statics := statics + [Attr(names[displ], vals[displ])];
      displ := displ + 1;
    }
  }

  /** Success and error exclude each other, and without an error nothing is redefined. */
  lemma ErrorIffBad<V>(base: map<Symbol, V>, dyn: seq<DynName<V>>, r: Result<seq<Attr<V>>, AttrsError>)
    requires r.Ok? ==> ToMap(r.value) == base + DynMap(dyn) && NoneBad(base.Keys, dyn)
    requires r.Err? ==> FirstError(base.Keys, dyn, r.error)
    ensures r.Ok? <==> NoneBad(base.Keys, dyn)
    ensures r.Ok? ==> forall n :: n in base ==> n in ToMap(r.value) && ToMap(r.value)[n] == base[n]
  {
    DynFresh(base.Keys, dyn);
  }

  lemma SlotsMirror<V>(names: seq<Symbol>, bindings: seq<Attr<V>>, slots: seq<V>)
    requires DistinctNames(bindings) && |names| == |slots| <= |bindings|
    requires forall d :: 0 <= d < |names| ==> bindings[d] == Attr(names[d], slots[d])
    ensures forall d :: 0 <= d < |names| ==> names[d] in ToMap(bindings) && ToMap(bindings)[names[d]] == slots[d]
  {
    forall d | 0 <= d < |names| ensures names[d] in ToMap(bindings) && ToMap(bindings)[names[d]] == slots[d] {
      ToMapUpdate(bindings, d, bindings[d]);
      assert bindings[d := bindings[d]] == bindings;
    }
  }

  /** Without an error, dynamic attributes redefine nothing. */
  lemma {:induction false} DynFresh<V>(defined: set<Symbol>, dyn: seq<DynName<V>>)
    ensures NoneBad(defined, dyn) ==> DynMap(dyn).Keys !! defined
  {
    if dyn != [] && NoneBad(defined, dyn) {
      var init := dyn[..|dyn| - 1];
      forall k | 0 <= k < |init| ensures !Bad(defined, init, k) {
        assert init[..k] == dyn[..k];
        assert !Bad(defined, dyn, k);
      }
      DynFresh(defined, init);
      assert !Bad(defined, dyn, |dyn| - 1);
    }
  }
}

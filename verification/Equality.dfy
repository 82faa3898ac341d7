/** `eqValues` and `assertEqValues`: two comparisons of possibly cyclic value graphs that
    must match. `depth` counts the calls left before the call-depth limit. */
module Equality {
  import opened Wrappers
  import opened SortedAttrs

  type Address = nat

  // What forcing the value at an address gives.
  datatype Node =
    | Fails
    | IntN(i: int)
    | BoolN(b: bool)
    | StringN(s: string)
    | PathN(accessor: nat, path: string)
    | NullN
    | ListN(elems: seq<Address>)
    | AttrsN(attrs: seq<Attr<Address>>)
    | FunctionN

  type Graph = Address -> Node

  const TYPE: Symbol := 0
  const OUT_PATH: Symbol := 1

  ghost predicate WellFormed(g: Graph) {
    forall a: Address :: g(a).AttrsN? ==> Sorted(g(a).attrs)
  }

  datatype EqOut = Answer(equal: bool) | ForceError | DepthExceeded

  // `Unreachable` is the `assert(false)` after a name mismatch.
  datatype AssertOut = Pass | Mismatch | ForceFailed | TooDeep | Unreachable

  predicate SameKind(n1: Node, n2: Node) {
    match n1
    case Fails => n2.Fails?
    case IntN(_) => n2.IntN?
    case BoolN(_) => n2.BoolN?
    case StringN(_) => n2.StringN?
    case PathN(_, _) => n2.PathN?
    case NullN => n2.NullN?
    case ListN(_) => n2.ListN?
    case AttrsN(_) => n2.AttrsN?
    case FunctionN => n2.FunctionN?
  }

  /** Forces the `type` attribute; None when that fails. */
  function IsDerivation(g: Graph, n: Node): Option<bool> {
    if !n.AttrsN? then Some(false) else
    match Get(n.attrs, TYPE)
    case None => Some(false)
    case Some(a) =>
      match g(a)
      case Fails => None
      case StringN(s) => Some(s == "derivation")
      case _ => Some(false)
  }

  /** Both sets are derivations; the second is looked at only if the first is one. */
  function BothDerivations(g: Graph, n1: Node, n2: Node): Option<bool> {
    match IsDerivation(g, n1)
    case Some(true) => IsDerivation(g, n2)
    case r => r
  }

  function EqValues(depth: nat, g: Graph, a1: Address, a2: Address): EqOut
    decreases depth, 0
  {
    if depth == 0 then DepthExceeded
    else if g(a1).Fails? || g(a2).Fails? then ForceError
    else if a1 == a2 then Answer(true)
    else if !SameKind(g(a1), g(a2)) then Answer(false)
    else match g(a1)
      case IntN(i) => Answer(i == g(a2).i)
      case BoolN(b) => Answer(b == g(a2).b)
      case StringN(s) => Answer(s == g(a2).s)
      case PathN(accessor, path) => Answer(accessor == g(a2).accessor && path == g(a2).path)
      case NullN => Answer(true)
      case ListN(elems) => if |elems| != |g(a2).elems| then Answer(false) else EqLists(depth - 1, g, elems, g(a2).elems)
      case AttrsN(attrs) => EqSets(depth - 1, g, attrs, g(a2).attrs)
      case FunctionN => Answer(false)
      case Fails => ForceError
  }

  function EqLists(depth: nat, g: Graph, xs: seq<Address>, ys: seq<Address>): EqOut
    requires |xs| == |ys|
    decreases depth, 1, |xs|
  {
    if xs == [] then Answer(true)
    else match EqValues(depth, g, xs[0], ys[0])
      case Answer(true) => EqLists(depth, g, xs[1..], ys[1..])
      case r => r
  }

  function EqSets(depth: nat, g: Graph, xs: seq<Attr<Address>>, ys: seq<Attr<Address>>): EqOut
    decreases depth, 2
  {
    match BothDerivations(g, AttrsN(xs), AttrsN(ys))
    case None => ForceError
    case Some(both) =>
      if both && Get(xs, OUT_PATH).Some? && Get(ys, OUT_PATH).Some? then
        EqValues(depth, g, Get(xs, OUT_PATH).value, Get(ys, OUT_PATH).value)
      else if |xs| != |ys| then Answer(false)
      else EqAttrs(depth, g, xs, ys)
  }

  function EqAttrs(depth: nat, g: Graph, xs: seq<Attr<Address>>, ys: seq<Attr<Address>>): EqOut
    requires |xs| == |ys|
    decreases depth, 1, |xs|
  {
    if xs == [] then Answer(true)
    else if xs[0].name != ys[0].name then Answer(false)
    else match EqValues(depth, g, xs[0].value, ys[0].value)
      case Answer(true) => EqAttrs(depth, g, xs[1..], ys[1..])
      case r => r
  }

  function Expect(r: EqOut): AssertOut {
    match r
    case Answer(true) => Pass
    case Answer(false) => Mismatch
    case ForceError => ForceFailed
    case DepthExceeded => TooDeep
  }

  function AssertEqValues(depth: nat, g: Graph, a1: Address, a2: Address): AssertOut
    decreases depth, 0
  {
    if depth == 0 then TooDeep
    else if g(a1).Fails? || g(a2).Fails? then ForceFailed
    else if a1 == a2 then Pass
    // numbers are handed to eqValues, one call deeper
    else if g(a1).IntN? && g(a2).IntN? then Expect(EqValues(depth - 1, g, a1, a2))
    else if !SameKind(g(a1), g(a2)) then Mismatch
    else match g(a1)
      case IntN(_) => assert false; Mismatch
      case BoolN(b) => if b != g(a2).b then Mismatch else Pass
      case StringN(s) => if s != g(a2).s then Mismatch else Pass
      case PathN(accessor, path) =>
        if accessor != g(a2).accessor then Mismatch else if path != g(a2).path then Mismatch else Pass
      case NullN => Pass
      case ListN(elems) => if |elems| != |g(a2).elems| then Mismatch else AssertLists(depth - 1, g, elems, g(a2).elems)
      case AttrsN(attrs) => AssertSets(depth - 1, g, attrs, g(a2).attrs)
      case FunctionN => Mismatch
      case Fails => ForceFailed
  }

  function AssertLists(depth: nat, g: Graph, xs: seq<Address>, ys: seq<Address>): AssertOut
    requires |xs| == |ys|
    decreases depth, 1, |xs|
  {
    if xs == [] then Pass
    else match AssertEqValues(depth, g, xs[0], ys[0])
      case Pass => AssertLists(depth, g, xs[1..], ys[1..])
      case r => r
  }

  function AssertSets(depth: nat, g: Graph, xs: seq<Attr<Address>>, ys: seq<Attr<Address>>): AssertOut
    decreases depth, 2
  {
    match BothDerivations(g, AttrsN(xs), AttrsN(ys))
    case None => ForceFailed
    case Some(both) =>
      if both && Get(xs, OUT_PATH).Some? && Get(ys, OUT_PATH).Some? then
        AssertEqValues(depth, g, Get(xs, OUT_PATH).value, Get(ys, OUT_PATH).value)
      else if |xs| != |ys| then Mismatch
      else AssertAttrs(depth, g, xs, ys, 0)
  }

  function AssertAttrs(depth: nat, g: Graph, xs: seq<Attr<Address>>, ys: seq<Attr<Address>>, k: nat): AssertOut
    requires k <= |xs| == |ys|
    decreases depth, 1, |xs| - k
  {
    if k == |xs| then Pass
    else if xs[k].name != ys[k].name then
      if Get(ys, xs[k].name).None? then Mismatch
      else if Get(xs, ys[k].name).None? then Mismatch
      else Unreachable
    else match AssertEqValues(depth, g, xs[k].value, ys[k].value)
      case Pass => AssertAttrs(depth, g, xs, ys, k + 1)
      case r => r
  }

  /** The first difference of two sorted sets of equal size is a name one of them lacks. */
  lemma MismatchIsMissing(xs: seq<Attr<Address>>, ys: seq<Attr<Address>>, k: nat)
    requires Sorted(xs) && Sorted(ys) && k < |xs| == |ys|
    requires forall j :: 0 <= j < k ==> xs[j].name == ys[j].name
    requires xs[k].name != ys[k].name
    ensures Get(ys, xs[k].name).None? || Get(xs, ys[k].name).None?
  {
    if xs[k].name < ys[k].name {
      forall j | 0 <= j < |ys| ensures ys[j].name != xs[k].name {
        if j < k { assert xs[j].name < xs[k].name; } else if k < j { assert ys[k].name < ys[j].name; }
      }
      GetNone(ys, xs[k].name);
    } else {
      forall j | 0 <= j < |xs| ensures xs[j].name != ys[k].name {
        if j < k { assert ys[j].name < ys[k].name; } else if k < j { assert xs[k].name < xs[j].name; }
      }
      GetNone(xs, ys[k].name);
    }
  }

  /** Whenever the assertion comes to a verdict, equality has the same one. */
  lemma {:induction false} AssertImpliesEq(depth: nat, g: Graph, a1: Address, a2: Address)
    requires WellFormed(g)
    ensures AssertEqValues(depth, g, a1, a2) != TooDeep ==>
      AssertEqValues(depth, g, a1, a2) == Expect(EqValues(depth, g, a1, a2))
    decreases depth, 0
  {
    if depth > 0 {
      if g(a1).ListN? && g(a2).ListN? && |g(a1).elems| == |g(a2).elems| {
        ListsImply(depth - 1, g, g(a1).elems, g(a2).elems);
      } else if g(a1).AttrsN? && g(a2).AttrsN? {
        SetsImply(depth - 1, g, g(a1).attrs, g(a2).attrs);
      }
    }
  }

  lemma {:induction false} ListsImply(depth: nat, g: Graph, xs: seq<Address>, ys: seq<Address>)
    requires WellFormed(g) && |xs| == |ys|
    ensures AssertLists(depth, g, xs, ys) != TooDeep ==> AssertLists(depth, g, xs, ys) == Expect(EqLists(depth, g, xs, ys))
    decreases depth, 1, |xs|
  {
    if xs != [] {
      AssertImpliesEq(depth, g, xs[0], ys[0]);
      ListsImply(depth, g, xs[1..], ys[1..]);
    }
  }

  lemma {:induction false} SetsImply(depth: nat, g: Graph, xs: seq<Attr<Address>>, ys: seq<Attr<Address>>)
    requires WellFormed(g) && Sorted(xs) && Sorted(ys)
    ensures AssertSets(depth, g, xs, ys) != TooDeep ==> AssertSets(depth, g, xs, ys) == Expect(EqSets(depth, g, xs, ys))
    decreases depth, 2
  {
    if Get(xs, OUT_PATH).Some? && Get(ys, OUT_PATH).Some? {
      AssertImpliesEq(depth, g, Get(xs, OUT_PATH).value, Get(ys, OUT_PATH).value);
    }
    if |xs| == |ys| {
      assert xs[0..] == xs && ys[0..] == ys;
      AttrsImply(depth, g, xs, ys, 0);
    }
  }

  lemma {:induction false} AttrsImply(depth: nat, g: Graph, xs: seq<Attr<Address>>, ys: seq<Attr<Address>>, k: nat)
    requires WellFormed(g) && Sorted(xs) && Sorted(ys) && k <= |xs| == |ys|
    requires forall j :: 0 <= j < k ==> xs[j].name == ys[j].name
    ensures AssertAttrs(depth, g, xs, ys, k) != TooDeep ==>
      AssertAttrs(depth, g, xs, ys, k) == Expect(EqAttrs(depth, g, xs[k..], ys[k..]))
    decreases depth, 1, |xs| - k
  {
    if k < |xs| {
      if xs[k].name != ys[k].name {
        MismatchIsMissing(xs, ys, k);
      } else {
        AssertImpliesEq(depth, g, xs[k].value, ys[k].value);
        assert xs[k..][1..] == xs[k + 1..] && ys[k..][1..] == ys[k + 1..];
        AttrsImply(depth, g, xs, ys, k + 1);
      }
    }
  }

  /** Whenever equality comes to a verdict, the assertion has the same one, given room for
      one call more. */
  lemma {:induction false} EqImpliesAssert(depth: nat, g: Graph, a1: Address, a2: Address)
    requires WellFormed(g)
    ensures EqValues(depth, g, a1, a2) != DepthExceeded ==>
      AssertEqValues(depth + 1, g, a1, a2) == Expect(EqValues(depth, g, a1, a2))
    decreases depth, 0
  {
    if depth > 0 {
      if g(a1).ListN? && g(a2).ListN? && |g(a1).elems| == |g(a2).elems| {
        ListsFollow(depth - 1, g, g(a1).elems, g(a2).elems);
      } else if g(a1).AttrsN? && g(a2).AttrsN? {
        SetsFollow(depth - 1, g, g(a1).attrs, g(a2).attrs);
      }
    }
  }

  lemma {:induction false} ListsFollow(depth: nat, g: Graph, xs: seq<Address>, ys: seq<Address>)
    requires WellFormed(g) && |xs| == |ys|
    ensures EqLists(depth, g, xs, ys) != DepthExceeded ==> AssertLists(depth + 1, g, xs, ys) == Expect(EqLists(depth, g, xs, ys))
    decreases depth, 1, |xs|
  {
    if xs != [] {
      EqImpliesAssert(depth, g, xs[0], ys[0]);
      ListsFollow(depth, g, xs[1..], ys[1..]);
    }
  }

  lemma {:induction false} SetsFollow(depth: nat, g: Graph, xs: seq<Attr<Address>>, ys: seq<Attr<Address>>)
    requires WellFormed(g) && Sorted(xs) && Sorted(ys)
    ensures EqSets(depth, g, xs, ys) != DepthExceeded ==> AssertSets(depth + 1, g, xs, ys) == Expect(EqSets(depth, g, xs, ys))
    decreases depth, 2
  {
    if Get(xs, OUT_PATH).Some? && Get(ys, OUT_PATH).Some? {
      EqImpliesAssert(depth, g, Get(xs, OUT_PATH).value, Get(ys, OUT_PATH).value);
    }
    if |xs| == |ys| {
      assert xs[0..] == xs && ys[0..] == ys;
      AttrsFollow(depth, g, xs, ys, 0);
    }
  }

  lemma {:induction false} AttrsFollow(depth: nat, g: Graph, xs: seq<Attr<Address>>, ys: seq<Attr<Address>>, k: nat)
    requires WellFormed(g) && Sorted(xs) && Sorted(ys) && k <= |xs| == |ys|
    requires forall j :: 0 <= j < k ==> xs[j].name == ys[j].name
    ensures EqAttrs(depth, g, xs[k..], ys[k..]) != DepthExceeded ==>
      AssertAttrs(depth + 1, g, xs, ys, k) == Expect(EqAttrs(depth, g, xs[k..], ys[k..]))
    decreases depth, 1, |xs| - k
  {
    if k < |xs| {
      if xs[k].name != ys[k].name {
        MismatchIsMissing(xs, ys, k);
      } else {
        EqImpliesAssert(depth, g, xs[k].value, ys[k].value);
        assert xs[k..][1..] == xs[k + 1..] && ys[k..][1..] == ys[k + 1..];
        AttrsFollow(depth, g, xs, ys, k + 1);
      }
    }
  }

  /** Apart from the depth limit the two comparisons decide alike, and the `assert(false)`
      in the attribute loop is never reached. */
  lemma ComparisonsMatch(depth: nat, g: Graph, a1: Address, a2: Address)
    requires WellFormed(g)
    ensures AssertEqValues(depth, g, a1, a2) == Pass ==> EqValues(depth, g, a1, a2) == Answer(true)
    ensures AssertEqValues(depth, g, a1, a2) == Mismatch ==> EqValues(depth, g, a1, a2) == Answer(false)
    ensures EqValues(depth, g, a1, a2) == Answer(true) ==> AssertEqValues(depth + 1, g, a1, a2) == Pass
    ensures EqValues(depth, g, a1, a2) == Answer(false) ==> AssertEqValues(depth + 1, g, a1, a2) == Mismatch
    ensures EqValues(depth, g, a1, a2) == ForceError ==> AssertEqValues(depth + 1, g, a1, a2) == ForceFailed
    ensures AssertEqValues(depth, g, a1, a2) != Unreachable
  {
    AssertImpliesEq(depth, g, a1, a2);
    EqImpliesAssert(depth, g, a1, a2);
  }

  /** The extra call is needed: at the limit, equal integers pass one comparison only. */
  lemma LastCallDiffers()
    ensures EqValues(1, (a: Address) => IntN(7), 0, 1) == Answer(true)
    ensures AssertEqValues(1, (a: Address) => IntN(7), 0, 1) == TooDeep
  {}

  // ---- the same depth ----

  // A call of `eqValues`, with the calls left at that point.
  datatype Comparison = Comparison(left: nat, a1: Address, a2: Address)

  /** The calls that a comparison makes, itself included. */
  function Calls(depth: nat, g: Graph, a1: Address, a2: Address): set<Comparison>
    decreases depth, 0
  {
    var inner: set<Comparison> :=
      if depth == 0 || a1 == a2 then {}
      else match (g(a1), g(a2))
        case (ListN(xs), ListN(ys)) => if |xs| == |ys| then CallsInLists(depth - 1, g, xs, ys) else {}
        case (AttrsN(xs), AttrsN(ys)) => CallsInSets(depth - 1, g, xs, ys)
        case _ => {};
    {Comparison(depth, a1, a2)} + inner
  }

  function CallsInLists(depth: nat, g: Graph, xs: seq<Address>, ys: seq<Address>): set<Comparison>
    requires |xs| == |ys|
    decreases depth, 1, |xs|
  {
    if xs == [] then {}
    else
      Calls(depth, g, xs[0], ys[0])
      + if EqValues(depth, g, xs[0], ys[0]) == Answer(true) then CallsInLists(depth, g, xs[1..], ys[1..]) else {}
  }

  function CallsInSets(depth: nat, g: Graph, xs: seq<Attr<Address>>, ys: seq<Attr<Address>>): set<Comparison>
    decreases depth, 2
  {
    match BothDerivations(g, AttrsN(xs), AttrsN(ys))
    case None => {}
    case Some(both) =>
      if both && Get(xs, OUT_PATH).Some? && Get(ys, OUT_PATH).Some? then
        Calls(depth, g, Get(xs, OUT_PATH).value, Get(ys, OUT_PATH).value)
      else if |xs| != |ys| then {}
      else CallsInAttrs(depth, g, xs, ys)
  }

  function CallsInAttrs(depth: nat, g: Graph, xs: seq<Attr<Address>>, ys: seq<Attr<Address>>): set<Comparison>
    requires |xs| == |ys|
    decreases depth, 1, |xs|
  {
    if xs == [] || xs[0].name != ys[0].name then {}
    else
      Calls(depth, g, xs[0].value, ys[0].value)
      + if EqValues(depth, g, xs[0].value, ys[0].value) == Answer(true) then CallsInAttrs(depth, g, xs[1..], ys[1..]) else {}
  }

  /** Two integers at different addresses, compared by the last call allowed. */
  predicate IsLastInts(g: Graph, c: Comparison) {
    c.left == 1 && c.a1 != c.a2 && g(c.a1).IntN? && g(c.a2).IntN?
  }

  ghost predicate LastInts(g: Graph, calls: set<Comparison>) {
    exists c :: c in calls && IsLastInts(g, c)
  }

  lemma LastIntsUnion(g: Graph, xs: set<Comparison>, ys: set<Comparison>)
    ensures LastInts(g, xs + ys) <==> LastInts(g, xs) || LastInts(g, ys)
  {
    if LastInts(g, xs) {
      var c :| c in xs && IsLastInts(g, c);
      assert c in xs + ys;
    }
    if LastInts(g, ys) {
      var c :| c in ys && IsLastInts(g, c);
      assert c in xs + ys;
    }
  }

  lemma LastIntsOne(g: Graph, c: Comparison)
    ensures LastInts(g, {c}) <==> IsLastInts(g, c)
  {
    if IsLastInts(g, c) { assert c in {c}; }
  }

  /** With the same depth the two comparisons have the same outcome if and only if equality
      runs out of depth itself or never compares two different integers by its last call. */
  lemma SameDepthExactly(depth: nat, g: Graph, a1: Address, a2: Address)
    requires WellFormed(g)
    ensures AssertEqValues(depth, g, a1, a2) == Expect(EqValues(depth, g, a1, a2)) <==>
      EqValues(depth, g, a1, a2) == DepthExceeded || !LastInts(g, Calls(depth, g, a1, a2))
  {
    AssertImpliesEq(depth, g, a1, a2);
    if EqValues(depth, g, a1, a2) != DepthExceeded { DecidedExactly(depth, g, a1, a2); }
  }

  lemma {:induction false} DecidedExactly(depth: nat, g: Graph, a1: Address, a2: Address)
    requires WellFormed(g) && EqValues(depth, g, a1, a2) != DepthExceeded
    ensures AssertEqValues(depth, g, a1, a2) == Expect(EqValues(depth, g, a1, a2)) <==> !LastInts(g, Calls(depth, g, a1, a2))
    decreases depth, 0
  {
    var here := Comparison(depth, a1, a2);
    LastIntsOne(g, here);
    if a1 != a2 && g(a1).ListN? && g(a2).ListN? && |g(a1).elems| == |g(a2).elems| {
      ListsExactly(depth - 1, g, g(a1).elems, g(a2).elems);
      LastIntsUnion(g, {here}, CallsInLists(depth - 1, g, g(a1).elems, g(a2).elems));
    } else if a1 != a2 && g(a1).AttrsN? && g(a2).AttrsN? {
      SetsExactly(depth - 1, g, g(a1).attrs, g(a2).attrs);
      LastIntsUnion(g, {here}, CallsInSets(depth - 1, g, g(a1).attrs, g(a2).attrs));
    } else {
      assert Calls(depth, g, a1, a2) == {here};
    }
  }

  lemma {:induction false} ListsExactly(depth: nat, g: Graph, xs: seq<Address>, ys: seq<Address>)
    requires WellFormed(g) && |xs| == |ys| && EqLists(depth, g, xs, ys) != DepthExceeded
    ensures AssertLists(depth, g, xs, ys) == Expect(EqLists(depth, g, xs, ys)) <==> !LastInts(g, CallsInLists(depth, g, xs, ys))
    decreases depth, 1, |xs|
  {
    if xs != [] {
      AssertImpliesEq(depth, g, xs[0], ys[0]);
      DecidedExactly(depth, g, xs[0], ys[0]);
      if EqValues(depth, g, xs[0], ys[0]) == Answer(true) {
        ListsExactly(depth, g, xs[1..], ys[1..]);
        LastIntsUnion(g, Calls(depth, g, xs[0], ys[0]), CallsInLists(depth, g, xs[1..], ys[1..]));
      } else {
        assert CallsInLists(depth, g, xs, ys) == Calls(depth, g, xs[0], ys[0]);
      }
    }
  }

  lemma {:induction false} SetsExactly(depth: nat, g: Graph, xs: seq<Attr<Address>>, ys: seq<Attr<Address>>)
    requires WellFormed(g) && Sorted(xs) && Sorted(ys) && EqSets(depth, g, xs, ys) != DepthExceeded
    ensures AssertSets(depth, g, xs, ys) == Expect(EqSets(depth, g, xs, ys)) <==> !LastInts(g, CallsInSets(depth, g, xs, ys))
    decreases depth, 2
  {
    match BothDerivations(g, AttrsN(xs), AttrsN(ys))
    case None =>
    case Some(both) =>
      if both && Get(xs, OUT_PATH).Some? && Get(ys, OUT_PATH).Some? {
        DecidedExactly(depth, g, Get(xs, OUT_PATH).value, Get(ys, OUT_PATH).value);
      } else if |xs| == |ys| {
        assert xs[0..] == xs && ys[0..] == ys;
        AttrsExactly(depth, g, xs, ys, 0);
      }
  }

  lemma {:induction false} AttrsExactly(depth: nat, g: Graph, xs: seq<Attr<Address>>, ys: seq<Attr<Address>>, k: nat)
    requires WellFormed(g) && Sorted(xs) && Sorted(ys) && k <= |xs| == |ys|
    requires forall j :: 0 <= j < k ==> xs[j].name == ys[j].name
    requires EqAttrs(depth, g, xs[k..], ys[k..]) != DepthExceeded
    ensures AssertAttrs(depth, g, xs, ys, k) == Expect(EqAttrs(depth, g, xs[k..], ys[k..])) <==>
      !LastInts(g, CallsInAttrs(depth, g, xs[k..], ys[k..]))
    decreases depth, 1, |xs| - k
  {
    if k < |xs| {
      if xs[k].name != ys[k].name {
        MismatchIsMissing(xs, ys, k);
      } else {
        AssertImpliesEq(depth, g, xs[k].value, ys[k].value);
        DecidedExactly(depth, g, xs[k].value, ys[k].value);
        assert xs[k..][1..] == xs[k + 1..] && ys[k..][1..] == ys[k + 1..];
        if EqValues(depth, g, xs[k].value, ys[k].value) == Answer(true) {
          AttrsExactly(depth, g, xs, ys, k + 1);
          LastIntsUnion(g, Calls(depth, g, xs[k].value, ys[k].value), CallsInAttrs(depth, g, xs[k + 1..], ys[k + 1..]));
        } else {
          assert CallsInAttrs(depth, g, xs[k..], ys[k..]) == Calls(depth, g, xs[k].value, ys[k].value);
        }
      }
    }
  }
}

/** `eqValues` on a value graph and on keys: where a graph unfolds to a key, the two agree, so
    the laws of the order hold of the comparison that walks the graph. */
module KeyEquality {
  import opened Wrappers
  import opened SortedAttrs
  import opened Equality
  import opened Ordering

  /** The key at an address whose lists nest less than `levels` deep; None for failures, sets
      and functions, anywhere inside. */
  function Unfold(levels: nat, g: Graph, a: Address): Option<Value>
    decreases levels, 0
  {
    if levels == 0 then None
    else match g(a)
      case IntN(i) => Some(IntV(i))
      case BoolN(b) => Some(BoolV(b))
      case StringN(s) => Some(StringV(s))
      case PathN(accessor, path) => Some(PathV(accessor, path))
      case NullN => Some(NullV)
      case ListN(elems) =>
        (match UnfoldAll(levels - 1, g, elems) case None => None case Some(vs) => Some(ListV(vs)))
      case _ => None
  }

  function UnfoldAll(levels: nat, g: Graph, elems: seq<Address>): (r: Option<seq<Value>>)
    ensures r.Some? ==> |r.value| == |elems|
    decreases levels, 1, |elems|
  {
    if elems == [] then Some([])
    else match (Unfold(levels, g, elems[0]), UnfoldAll(levels, g, elems[1..]))
      case (Some(v), Some(vs)) => Some([v] + vs)
      case _ => None
  }

  /** Given room, comparing the graphs decides, and as comparing the keys does. */
  lemma {:induction false} GraphIsKey(depth: nat, m: nat, n: nat, g: Graph, a: Address, b: Address)
    requires Unfold(m, g, a).Some? && Unfold(n, g, b).Some?
    ensures EqValues(depth, g, a, b) == DepthExceeded || EqValues(depth, g, a, b) == Answer(EqV(Unfold(m, g, a).value, Unfold(n, g, b).value))
    ensures depth >= m ==> EqValues(depth, g, a, b) != DepthExceeded
    decreases depth, 0, m
  {
    if depth > 0 {
      if a == b {
        UnfoldsToOne(m, n, g, a);
      } else if g(a).ListN? && g(b).ListN? && |g(a).elems| == |g(b).elems| {
        ListsAreKeys(depth - 1, m - 1, n - 1, g, g(a).elems, g(b).elems);
        EqFromStart(UnfoldAll(m - 1, g, g(a).elems).value, UnfoldAll(n - 1, g, g(b).elems).value);
      }
    }
  }

  // Equality of lists, from the front.
  predicate EqAll(xs: seq<Value>, ys: seq<Value>)
    requires |xs| == |ys|
  {
    xs == [] || (EqV(xs[0], ys[0]) && EqAll(xs[1..], ys[1..]))
  }

  lemma {:induction false} EqFromIsEqAll(xs: seq<Value>, ys: seq<Value>, i: nat)
    requires i <= |xs| == |ys|
    ensures EqFrom(xs, ys, i) <==> EqAll(xs[i..], ys[i..])
    decreases |xs| - i
  {
    if i < |xs| {
      EqFromIsEqAll(xs, ys, i + 1);
      assert xs[i..][1..] == xs[i + 1..] && ys[i..][1..] == ys[i + 1..];
    }
  }

  lemma EqFromStart(xs: seq<Value>, ys: seq<Value>)
    requires |xs| == |ys|
    ensures EqV(ListV(xs), ListV(ys)) <==> EqAll(xs, ys)
  {
    EqFromIsEqAll(xs, ys, 0);
    assert xs[0..] == xs && ys[0..] == ys;
  }

  lemma {:induction false} ListsAreKeys(depth: nat, m: nat, n: nat, g: Graph, xs: seq<Address>, ys: seq<Address>)
    requires |xs| == |ys| && UnfoldAll(m, g, xs).Some? && UnfoldAll(n, g, ys).Some?
    ensures EqLists(depth, g, xs, ys) == DepthExceeded
         || EqLists(depth, g, xs, ys) == Answer(EqAll(UnfoldAll(m, g, xs).value, UnfoldAll(n, g, ys).value))
    ensures depth >= m ==> EqLists(depth, g, xs, ys) != DepthExceeded
    decreases depth, 1, |xs|
  {
    if xs != [] {
      GraphIsKey(depth, m, n, g, xs[0], ys[0]);
      ListsAreKeys(depth, m, n, g, xs[1..], ys[1..]);
    }
  }

  /** An address unfolds to one key, and that key equals itself. */
  lemma {:induction false} UnfoldsToOne(m: nat, n: nat, g: Graph, a: Address)
    requires Unfold(m, g, a).Some? && Unfold(n, g, a).Some?
    ensures EqV(Unfold(m, g, a).value, Unfold(n, g, a).value)
    decreases m, 0
  {
    if g(a).ListN? {
      AllUnfoldToOne(m - 1, n - 1, g, g(a).elems);
      EqFromStart(UnfoldAll(m - 1, g, g(a).elems).value, UnfoldAll(n - 1, g, g(a).elems).value);
    }
  }

  lemma {:induction false} AllUnfoldToOne(m: nat, n: nat, g: Graph, xs: seq<Address>)
    requires UnfoldAll(m, g, xs).Some? && UnfoldAll(n, g, xs).Some?
    ensures EqAll(UnfoldAll(m, g, xs).value, UnfoldAll(n, g, xs).value)
    decreases m, 1, |xs|
  {
    if xs != [] {
      UnfoldsToOne(m, n, g, xs[0]);
      AllUnfoldToOne(m, n, g, xs[1..]);
    }
  }

  /** On keys of one comparable type all three comparisons of the source agree: `eqValues` and
      `assertEqValues` on the graph hold exactly when neither key is below the other. */
  lemma OneEquality(depth: nat, m: nat, n: nat, g: Graph, a: Address, b: Address, t: Type)
    requires WellFormed(g) && Unfold(m, g, a).Some? && Unfold(n, g, b).Some? && depth >= m
    requires HasType(Unfold(m, g, a).value, t) && HasType(Unfold(n, g, b).value, t)
    ensures
      var v, w := Unfold(m, g, a).value, Unfold(n, g, b).value;
      && EqValues(depth, g, a, b) == Answer(!Below(v, w) && !Below(w, v))
      && (AssertEqValues(depth + 1, g, a, b) == Pass <==> !Below(v, w) && !Below(w, v))
  {
    GraphIsKey(depth, m, n, g, a, b);
    Trichotomy(Unfold(m, g, a).value, Unfold(n, g, b).value, t);
    EqImpliesAssert(depth, g, a, b);
  }

  // ---- sets ----

  // What a value denotes; a derivation with an output path denotes that output.
  datatype Content =
    | IntC(i: int)
    | BoolC(b: bool)
    | StringC(s: string)
    | PathC(accessor: nat, path: string)
    | NullC
    | ListC(elems: seq<Content>)
    | SetC(fields: seq<Attr<Content>>)
    | PackageC(out: Content)

  /** The output path of a set whose `type` is the string "derivation". */
  function Output(g: Graph, attrs: seq<Attr<Address>>): Option<Address> {
    match Get(attrs, TYPE)
    case None => None
    case Some(a) => if g(a) == StringN("derivation") then Get(attrs, OUT_PATH) else None
  }

  /** What the value at an address denotes; None for failures and functions, anywhere that counts. */
  function Contents(levels: nat, g: Graph, a: Address): Option<Content>
    decreases levels, 0
  {
    if levels == 0 then None
    else match g(a)
      case IntN(i) => Some(IntC(i))
      case BoolN(b) => Some(BoolC(b))
      case StringN(s) => Some(StringC(s))
      case PathN(accessor, path) => Some(PathC(accessor, path))
      case NullN => Some(NullC)
      case ListN(elems) =>
        (match ContentsOfList(levels - 1, g, elems) case None => None case Some(cs) => Some(ListC(cs)))
      case AttrsN(attrs) =>
        (match Output(g, attrs)
         case Some(out) => (match Contents(levels - 1, g, out) case None => None case Some(c) => Some(PackageC(c)))
         case None => match ContentsOfSet(levels - 1, g, attrs) case None => None case Some(fs) => Some(SetC(fs)))
      case _ => None
  }

  function ContentsOfList(levels: nat, g: Graph, elems: seq<Address>): (r: Option<seq<Content>>)
    ensures r.Some? ==> |r.value| == |elems|
    decreases levels, 1, |elems|
  {
    if elems == [] then Some([])
    else match (Contents(levels, g, elems[0]), ContentsOfList(levels, g, elems[1..]))
      case (Some(c), Some(cs)) => Some([c] + cs)
      case _ => None
  }

  function ContentsOfSet(levels: nat, g: Graph, attrs: seq<Attr<Address>>): (r: Option<seq<Attr<Content>>>)
    ensures r.Some? ==> |r.value| == |attrs|
    decreases levels, 1, |attrs|
  {
    if attrs == [] then Some([])
    else match (Contents(levels, g, attrs[0].value), ContentsOfSet(levels, g, attrs[1..]))
      case (Some(c), Some(fs)) => Some([Attr(attrs[0].name, c)] + fs)
      case _ => None
  }

  /** A decided comparison says whether the values denote the same. Sets are compared name by
      name, and derivations by their output paths alone. */
  lemma {:induction false} EqualityIsSameContent(depth: nat, m: nat, n: nat, g: Graph, a: Address, b: Address)
    requires Contents(m, g, a).Some? && Contents(n, g, b).Some?
    ensures EqValues(depth, g, a, b).Answer? ==> EqValues(depth, g, a, b) == Answer(Contents(m, g, a) == Contents(n, g, b))
    decreases depth, 0, m
  {
    if depth > 0 {
      if a == b {
        OneContent(m, n, g, a);
      } else if g(a).ListN? && g(b).ListN? && |g(a).elems| == |g(b).elems| {
        ListContent(depth - 1, m - 1, n - 1, g, g(a).elems, g(b).elems);
      } else if g(a).AttrsN? && g(b).AttrsN? {
        SetContent(depth, m, n, g, a, b);
      }
    }
  }

  lemma {:induction false} ListContent(depth: nat, m: nat, n: nat, g: Graph, xs: seq<Address>, ys: seq<Address>)
    requires |xs| == |ys| && ContentsOfList(m, g, xs).Some? && ContentsOfList(n, g, ys).Some?
    ensures EqLists(depth, g, xs, ys).Answer? ==>
      EqLists(depth, g, xs, ys) == Answer(ContentsOfList(m, g, xs) == ContentsOfList(n, g, ys))
    decreases depth, 1, |xs|
  {
    if xs != [] {
      EqualityIsSameContent(depth, m, n, g, xs[0], ys[0]);
      ListContent(depth, m, n, g, xs[1..], ys[1..]);
      ConsSame(Contents(m, g, xs[0]).value, Contents(n, g, ys[0]).value, ContentsOfList(m, g, xs[1..]).value, ContentsOfList(n, g, ys[1..]).value);
    }
  }

  lemma ConsSame<T>(x: T, y: T, xs: seq<T>, ys: seq<T>)
    ensures [x] + xs == [y] + ys <==> x == y && xs == ys
  {
    assert ([x] + xs)[0] == x && ([x] + xs)[1..] == xs && ([y] + ys)[0] == y && ([y] + ys)[1..] == ys;
  }

  lemma {:induction false} SetContent(depth: nat, m: nat, n: nat, g: Graph, a: Address, b: Address)
    requires depth > 0 && a != b && g(a).AttrsN? && g(b).AttrsN? && Contents(m, g, a).Some? && Contents(n, g, b).Some?
    ensures EqValues(depth, g, a, b).Answer? ==> EqValues(depth, g, a, b) == Answer(Contents(m, g, a) == Contents(n, g, b))
    decreases depth - 1, 3
  {
    var xs, ys := g(a).attrs, g(b).attrs;
    var p, q := Output(g, xs), Output(g, ys);
    if p.Some? && q.Some? {
      PackagesByOutput(depth, g, a, b);
      EqualityIsSameContent(depth - 1, m - 1, n - 1, g, p.value, q.value);
    } else if EqValues(depth, g, a, b).Answer? {
      SetsByField(depth, g, a, b);
      if |xs| == |ys| {
        if p.None? && q.None? {
          FieldContent(depth - 1, m - 1, n - 1, g, xs, ys);
        } else {
          if EqAttrs(depth - 1, g, xs, ys) == Answer(true) { OutputsAgree(depth - 1, g, xs, ys); }
        }
      }
    }
  }

  /** Two derivations with output paths are compared by those alone, whatever else they hold. */
  lemma PackagesByOutput(depth: nat, g: Graph, a: Address, b: Address)
    requires depth > 0 && a != b && g(a).AttrsN? && g(b).AttrsN? && Output(g, g(a).attrs).Some? && Output(g, g(b).attrs).Some?
    ensures EqValues(depth, g, a, b) == EqValues(depth - 1, g, Output(g, g(a).attrs).value, Output(g, g(b).attrs).value)
    ensures AssertEqValues(depth, g, a, b) == AssertEqValues(depth - 1, g, Output(g, g(a).attrs).value, Output(g, g(b).attrs).value)
  {}

  /** Other sets are compared attribute by attribute, unless looking at their types fails. */
  lemma SetsByField(depth: nat, g: Graph, a: Address, b: Address)
    requires depth > 0 && a != b && g(a).AttrsN? && g(b).AttrsN? && (Output(g, g(a).attrs).None? || Output(g, g(b).attrs).None?)
    ensures var xs, ys := g(a).attrs, g(b).attrs;
      EqValues(depth, g, a, b) == ForceError
      || EqValues(depth, g, a, b) == if |xs| != |ys| then Answer(false) else EqAttrs(depth - 1, g, xs, ys)
  {}

  lemma {:induction false} FieldContent(depth: nat, m: nat, n: nat, g: Graph, xs: seq<Attr<Address>>, ys: seq<Attr<Address>>)
    requires |xs| == |ys| && ContentsOfSet(m, g, xs).Some? && ContentsOfSet(n, g, ys).Some?
    ensures EqAttrs(depth, g, xs, ys).Answer? ==>
      EqAttrs(depth, g, xs, ys) == Answer(ContentsOfSet(m, g, xs) == ContentsOfSet(n, g, ys))
    decreases depth, 1, |xs|
  {
    if xs != [] {
      EqualityIsSameContent(depth, m, n, g, xs[0].value, ys[0].value);
      FieldContent(depth, m, n, g, xs[1..], ys[1..]);
      ConsSame(Attr(xs[0].name, Contents(m, g, xs[0].value).value), Attr(ys[0].name, Contents(n, g, ys[0].value).value),
               ContentsOfSet(m, g, xs[1..]).value, ContentsOfSet(n, g, ys[1..]).value);
    }
  }

  /** Sets found equal have the same names, and values found equal. */
  lemma {:induction false} EqualFields(depth: nat, g: Graph, xs: seq<Attr<Address>>, ys: seq<Attr<Address>>)
    requires |xs| == |ys|
    ensures EqAttrs(depth, g, xs, ys) == Answer(true) <==>
      forall k :: 0 <= k < |xs| ==> xs[k].name == ys[k].name && EqValues(depth, g, xs[k].value, ys[k].value) == Answer(true)
    decreases |xs|
  {
    if xs != [] {
      EqualFields(depth, g, xs[1..], ys[1..]);
      if EqAttrs(depth, g, xs, ys) == Answer(true) {
        forall k | 0 <= k < |xs| ensures xs[k].name == ys[k].name && EqValues(depth, g, xs[k].value, ys[k].value) == Answer(true) {
          if k > 0 { assert xs[k] == xs[1..][k - 1] && ys[k] == ys[1..][k - 1]; }
        }
      } else {
        assert forall k :: 0 <= k < |xs| - 1 ==> xs[1..][k] == xs[k + 1] && ys[1..][k] == ys[k + 1];
      }
    }
  }

  lemma {:induction false} EqualGet(depth: nat, g: Graph, xs: seq<Attr<Address>>, ys: seq<Attr<Address>>, name: Symbol)
    requires |xs| == |ys| && EqAttrs(depth, g, xs, ys) == Answer(true)
    ensures match Get(xs, name)
      case None => Get(ys, name).None?
      case Some(x) => Get(ys, name).Some? && EqValues(depth, g, x, Get(ys, name).value) == Answer(true)
    decreases |xs|
  {
    if xs != [] && xs[0].name != name { EqualGet(depth, g, xs[1..], ys[1..], name); }
  }

  /** So if one is a derivation with an output path, the other is too. */
  lemma OutputsAgree(depth: nat, g: Graph, xs: seq<Attr<Address>>, ys: seq<Attr<Address>>)
    requires |xs| == |ys| && EqAttrs(depth, g, xs, ys) == Answer(true)
    ensures Output(g, xs).Some? <==> Output(g, ys).Some?
  {
    EqualGet(depth, g, xs, ys, TYPE);
    EqualGet(depth, g, xs, ys, OUT_PATH);
  }

  /** An address denotes one thing. */
  lemma {:induction false} OneContent(m: nat, n: nat, g: Graph, a: Address)
    requires Contents(m, g, a).Some? && Contents(n, g, a).Some?
    ensures Contents(m, g, a) == Contents(n, g, a)
    decreases m, 0
  {
    match g(a)
    case ListN(elems) => OneListContent(m - 1, n - 1, g, elems);
    case AttrsN(attrs) =>
      match Output(g, attrs) {
        case Some(out) => OneContent(m - 1, n - 1, g, out);
        case None => OneSetContent(m - 1, n - 1, g, attrs);
      }
    case _ =>
  }

  lemma {:induction false} OneListContent(m: nat, n: nat, g: Graph, xs: seq<Address>)
    requires ContentsOfList(m, g, xs).Some? && ContentsOfList(n, g, xs).Some?
    ensures ContentsOfList(m, g, xs) == ContentsOfList(n, g, xs)
    decreases m, 1, |xs|
  {
    if xs != [] {
      OneContent(m, n, g, xs[0]);
      OneListContent(m, n, g, xs[1..]);
    }
  }

  lemma {:induction false} OneSetContent(m: nat, n: nat, g: Graph, xs: seq<Attr<Address>>)
    requires ContentsOfSet(m, g, xs).Some? && ContentsOfSet(n, g, xs).Some?
    ensures ContentsOfSet(m, g, xs) == ContentsOfSet(n, g, xs)
    decreases m, 1, |xs|
  {
    if xs != [] {
      OneContent(m, n, g, xs[0].value);
      OneSetContent(m, n, g, xs[1..]);
    }
  }

  /** Nothing within `levels` fails, and nothing lies deeper. */
  ghost predicate Defined(levels: nat, g: Graph, a: Address)
    decreases levels, 0
  {
    && levels > 0
    && match g(a)
       case Fails => false
       case ListN(elems) => AllDefined(levels - 1, g, elems)
       case AttrsN(attrs) => FieldsDefined(levels - 1, g, attrs)
       case _ => true
  }

  ghost predicate AllDefined(levels: nat, g: Graph, elems: seq<Address>)
    decreases levels, 1
  {
    forall k :: 0 <= k < |elems| ==> Defined(levels, g, elems[k])
  }

  ghost predicate FieldsDefined(levels: nat, g: Graph, attrs: seq<Attr<Address>>)
    decreases levels, 1
  {
    forall k :: 0 <= k < |attrs| ==> Defined(levels, g, attrs[k].value)
  }

  lemma {:induction false} GetDefined(levels: nat, g: Graph, attrs: seq<Attr<Address>>, name: Symbol)
    requires FieldsDefined(levels, g, attrs) && Get(attrs, name).Some?
    ensures Defined(levels, g, Get(attrs, name).value)
    decreases |attrs|
  {
    if attrs[0].name != name {
      forall k | 0 <= k < |attrs| - 1 ensures Defined(levels, g, attrs[1..][k].value) { assert attrs[1..][k] == attrs[k + 1]; }
      GetDefined(levels, g, attrs[1..], name);
    }
  }

  /** Where nothing fails, room for the levels of one side is enough to decide. */
  lemma {:induction false} Decides(depth: nat, m: nat, n: nat, g: Graph, a: Address, b: Address)
    requires Defined(m, g, a) && Defined(n, g, b) && depth >= m
    ensures EqValues(depth, g, a, b).Answer?
    decreases depth, 0
  {
    if a != b && g(a).ListN? && g(b).ListN? && |g(a).elems| == |g(b).elems| {
      ListDecides(depth - 1, m - 1, n - 1, g, g(a).elems, g(b).elems);
    } else if a != b && g(a).AttrsN? && g(b).AttrsN? {
      SetDecides(depth - 1, m - 1, n - 1, g, g(a).attrs, g(b).attrs);
    }
  }

  lemma {:induction false} ListDecides(depth: nat, m: nat, n: nat, g: Graph, xs: seq<Address>, ys: seq<Address>)
    requires |xs| == |ys| && AllDefined(m, g, xs) && AllDefined(n, g, ys) && depth >= m
    ensures EqLists(depth, g, xs, ys).Answer?
    decreases depth, 1, |xs|
  {
    if xs != [] {
      Decides(depth, m, n, g, xs[0], ys[0]);
      ListDecides(depth, m, n, g, xs[1..], ys[1..]);
    }
  }

  lemma {:induction false} SetDecides(depth: nat, m: nat, n: nat, g: Graph, xs: seq<Attr<Address>>, ys: seq<Attr<Address>>)
    requires FieldsDefined(m, g, xs) && FieldsDefined(n, g, ys) && depth >= m
    ensures EqSets(depth, g, xs, ys).Answer?
    decreases depth, 2
  {
    TypeDefined(m, g, xs);
    TypeDefined(n, g, ys);
    if Get(xs, OUT_PATH).Some? && Get(ys, OUT_PATH).Some? {
      GetDefined(m, g, xs, OUT_PATH);
      GetDefined(n, g, ys, OUT_PATH);
      Decides(depth, m, n, g, Get(xs, OUT_PATH).value, Get(ys, OUT_PATH).value);
    }
    if |xs| == |ys| { FieldsDecide(depth, m, n, g, xs, ys); }
  }

  lemma TypeDefined(levels: nat, g: Graph, attrs: seq<Attr<Address>>)
    requires FieldsDefined(levels, g, attrs)
    ensures IsDerivation(g, AttrsN(attrs)).Some?
  {
    if Get(attrs, TYPE).Some? { GetDefined(levels, g, attrs, TYPE); }
  }

  lemma {:induction false} FieldsDecide(depth: nat, m: nat, n: nat, g: Graph, xs: seq<Attr<Address>>, ys: seq<Attr<Address>>)
    requires |xs| == |ys| && FieldsDefined(m, g, xs) && FieldsDefined(n, g, ys) && depth >= m
    ensures EqAttrs(depth, g, xs, ys).Answer?
    decreases depth, 1, |xs|
  {
    if xs != [] {
      Decides(depth, m, n, g, xs[0].value, ys[0].value);
      forall k | 0 <= k < |xs| - 1 ensures Defined(m, g, xs[1..][k].value) { assert xs[1..][k] == xs[k + 1]; }
      forall k | 0 <= k < |ys| - 1 ensures Defined(n, g, ys[1..][k].value) { assert ys[1..][k] == ys[k + 1]; }
      FieldsDecide(depth, m, n, g, xs[1..], ys[1..]);
    }
  }
}

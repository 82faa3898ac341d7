/** `CompareValues`, the order of keys: a strict weak order on values of one comparable type,
    in which exactly the equal values are equivalent. */
module Ordering {
  import opened Wrappers

  // Forced values; `Opaque` stands for functions and other values that cannot be ordered.
  datatype Value = IntV(i: int) | StringV(s: string) | PathV(accessor: nat, path: string) | ListV(elems: seq<Value>) | NullV | BoolV(b: bool) | Opaque

  datatype CompareError = Incomparable

  predicate EqV(a: Value, b: Value) {
    match (a, b)
    case (IntV(i), IntV(j)) => i == j
    case (StringV(s), StringV(t)) => s == t
    case (PathV(x, p), PathV(y, q)) => x == y && p == q
    case (NullV, NullV) => true
    case (BoolV(x), BoolV(y)) => x == y
    case (ListV(xs), ListV(ys)) => |xs| == |ys| && EqFrom(xs, ys, 0)
    case _ => false
  }

  predicate EqFrom(xs: seq<Value>, ys: seq<Value>, i: nat)
    requires i <= |xs| == |ys|
    decreases xs, |xs| - i
  {
    i == |xs| || (EqV(xs[i], ys[i]) && EqFrom(xs, ys, i + 1))
  }

  /** Comparison of strings by characters. */
  predicate StringLess(s: string, t: string) {
    t != [] && (s == [] || s[0] < t[0] || (s[0] == t[0] && StringLess(s[1..], t[1..])))
  }

  predicate SameType(a: Value, b: Value) {
    match a
    case IntV(_) => b.IntV?
    case StringV(_) => b.StringV?
    case PathV(_, _) => b.PathV?
    case ListV(_) => b.ListV?
    case NullV => b.NullV?
    case BoolV(_) => b.BoolV?
    case Opaque => b.Opaque?
  }

  function Less(a: Value, b: Value): Result<bool, CompareError>
    decreases a
  {
    if !SameType(a, b) then Err(Incomparable)
    else match a
      case IntV(i) => Ok(i < b.i)
      case StringV(s) => Ok(StringLess(s, b.s))
      case PathV(_, p) => Ok(StringLess(p, b.path))
      case ListV(xs) => LessFrom(xs, b.elems, 0)
      case _ => Err(Incomparable)
  }

  /** The loop over list positions. */
  function LessFrom(xs: seq<Value>, ys: seq<Value>, i: nat): Result<bool, CompareError>
    requires i <= |xs| && i <= |ys|
    decreases xs, |xs| - i
  {
    if i == |ys| then Ok(false)
    else if i == |xs| then Ok(true)
    else if !EqV(xs[i], ys[i]) then Less(xs[i], ys[i])
    else LessFrom(xs, ys, i + 1)
  }

  // A comparable type: lists fix the type of each position, paths the accessor.
  datatype Type = TInt | TString | TPath(accessor: nat) | TList(elem: nat -> Type)

  predicate HasType(v: Value, t: Type)
    decreases v
  {
    match v
    case IntV(_) => t.TInt?
    case StringV(_) => t.TString?
    case PathV(a, _) => t.TPath? && t.accessor == a
    case ListV(xs) => t.TList? && forall i :: 0 <= i < |xs| ==> HasType(xs[i], t.elem(i))
    case _ => false
  }

  /** On comparable values `eqValues` is identity. */
  lemma {:induction false} EqIsIdentity(a: Value, b: Value, t: Type)
    requires HasType(a, t) && HasType(b, t)
    ensures EqV(a, b) <==> a == b
    decreases a
  {
    if a.ListV? && |a.elems| == |b.elems| {
      EqFromIsIdentity(a.elems, b.elems, 0, t);
    }
  }

  lemma {:induction false} EqFromIsIdentity(xs: seq<Value>, ys: seq<Value>, i: nat, t: Type)
    requires HasType(ListV(xs), t) && HasType(ListV(ys), t) && i <= |xs| == |ys|
    ensures EqFrom(xs, ys, i) <==> xs[i..] == ys[i..]
    decreases xs, |xs| - i
  {
    if i < |xs| {
      EqIsIdentity(xs[i], ys[i], t.elem(i));
      EqFromIsIdentity(xs, ys, i + 1, t);
      assert xs[i..] == [xs[i]] + xs[i + 1..] && ys[i..] == [ys[i]] + ys[i + 1..];
    }
  }

  lemma {:induction false} StringTrichotomy(s: string, t: string)
    ensures !(StringLess(s, t) && StringLess(t, s))
    ensures s == t <==> !StringLess(s, t) && !StringLess(t, s)
  {
    if s != [] && t != [] {
      StringTrichotomy(s[1..], t[1..]);
      if s[0] == t[0] && s[1..] == t[1..] { assert s == [s[0]] + s[1..] && t == [t[0]] + t[1..]; }
    }
  }

  lemma {:induction false} StringTransitive(s: string, t: string, u: string)
    requires StringLess(s, t) && StringLess(t, u)
    ensures StringLess(s, u)
  {
    if s != [] && s[0] == t[0] == u[0] { StringTransitive(s[1..], t[1..], u[1..]); }
  }

  predicate Below(a: Value, b: Value) {
    Less(a, b) == Ok(true)
  }

  /** Exactly one of a < b, b < a and equality holds, and no comparison fails. */
  lemma {:induction false} Trichotomy(a: Value, b: Value, t: Type)
    requires HasType(a, t) && HasType(b, t)
    ensures Less(a, b).Ok? && Less(b, a).Ok?
    ensures !(Below(a, b) && Below(b, a))
    ensures EqV(a, b) <==> !Below(a, b) && !Below(b, a)
    decreases a
  {
    EqIsIdentity(a, b, t);
    match a
    case StringV(s) => StringTrichotomy(s, b.s);
    case PathV(_, p) => StringTrichotomy(p, b.path);
    case ListV(xs) => ListTrichotomy(xs, b.elems, 0, t);
    case _ =>
  }

  lemma {:induction false} ListTrichotomy(xs: seq<Value>, ys: seq<Value>, i: nat, t: Type)
    requires HasType(ListV(xs), t) && HasType(ListV(ys), t) && i <= |xs| && i <= |ys|
    ensures LessFrom(xs, ys, i).Ok? && LessFrom(ys, xs, i).Ok?
    ensures !(LessFrom(xs, ys, i).value && LessFrom(ys, xs, i).value)
    ensures xs[i..] == ys[i..] <==> !LessFrom(xs, ys, i).value && !LessFrom(ys, xs, i).value
    decreases xs, |xs| - i
  {
    if i < |xs| && i < |ys| {
      Trichotomy(xs[i], ys[i], t.elem(i));
      EqIsIdentity(xs[i], ys[i], t.elem(i));
      EqIsIdentity(ys[i], xs[i], t.elem(i));
      ListTrichotomy(xs, ys, i + 1, t);
      assert xs[i..] == [xs[i]] + xs[i + 1..] && ys[i..] == [ys[i]] + ys[i + 1..];
    }
  }

  // ---- all values, also of different types or of none ----

  /** Whatever `eqValues` takes for equal is the same value. */
  lemma {:induction false} EqIsSame(a: Value, b: Value)
    ensures EqV(a, b) ==> a == b
    decreases a
  {
    if a.ListV? && b.ListV? && |a.elems| == |b.elems| { EqFromIsSame(a.elems, b.elems, 0); }
  }

  lemma {:induction false} EqFromIsSame(xs: seq<Value>, ys: seq<Value>, i: nat)
    requires i <= |xs| == |ys|
    ensures EqFrom(xs, ys, i) ==> xs[i..] == ys[i..]
    decreases xs, |xs| - i
  {
    if i < |xs| {
      EqIsSame(xs[i], ys[i]);
      EqFromIsSame(xs, ys, i + 1);
      assert xs[i..] == [xs[i]] + xs[i + 1..] && ys[i..] == [ys[i]] + ys[i + 1..];
    }
  }

  lemma EqSymmetric(a: Value, b: Value)
    ensures EqV(a, b) <==> EqV(b, a)
  {
    EqIsSame(a, b);
    EqIsSame(b, a);
  }

  /** A comparison fails either way round or not at all, and the order is asymmetric. */
  lemma {:induction false} Asymmetric(a: Value, b: Value)
    ensures Less(a, b).Ok? <==> Less(b, a).Ok?
    ensures !(Below(a, b) && Below(b, a))
    decreases a
  {
    match a
    case StringV(s) => if b.StringV? { StringTrichotomy(s, b.s); }
    case PathV(_, p) => if b.PathV? { StringTrichotomy(p, b.path); }
    case ListV(xs) => if b.ListV? { ListAsymmetric(xs, b.elems, 0); }
    case _ =>
  }

  lemma {:induction false} ListAsymmetric(xs: seq<Value>, ys: seq<Value>, i: nat)
    requires i <= |xs| && i <= |ys|
    ensures LessFrom(xs, ys, i).Ok? <==> LessFrom(ys, xs, i).Ok?
    ensures !(LessFrom(xs, ys, i) == Ok(true) && LessFrom(ys, xs, i) == Ok(true))
    decreases xs, |xs| - i
  {
    if i < |xs| && i < |ys| {
      EqSymmetric(xs[i], ys[i]);
      Asymmetric(xs[i], ys[i]);
      ListAsymmetric(xs, ys, i + 1);
    }
  }

  /** Transitive on all values, whatever types occur in them. */
  lemma {:induction false} Transitive(a: Value, b: Value, c: Value)
    requires Below(a, b) && Below(b, c)
    ensures Below(a, c)
    decreases a
  {
    match a
    case StringV(s) => StringTransitive(s, b.s, c.s);
    case PathV(_, p) => StringTransitive(p, b.path, c.path);
    case ListV(xs) => ListTransitive(xs, b.elems, c.elems, 0);
    case _ =>
  }

  lemma {:induction false} ListTransitive(xs: seq<Value>, ys: seq<Value>, zs: seq<Value>, i: nat)
    requires i <= |xs| && i <= |ys| && i <= |zs|
    requires LessFrom(xs, ys, i) == Ok(true) && LessFrom(ys, zs, i) == Ok(true)
    ensures LessFrom(xs, zs, i) == Ok(true)
    decreases xs, |xs| - i
  {
    if i < |xs| {
      EqIsSame(xs[i], ys[i]);
      EqIsSame(ys[i], zs[i]);
      EqIsSame(xs[i], zs[i]);
      if EqV(xs[i], ys[i]) && EqV(ys[i], zs[i]) {
        ListTransitive(xs, ys, zs, i + 1);
      } else if !EqV(xs[i], ys[i]) && !EqV(ys[i], zs[i]) {
        Asymmetric(xs[i], ys[i]);
        Transitive(xs[i], ys[i], zs[i]);
      }
    }
  }

  /** Comparable, and neither is below the other. */
  predicate Alike(a: Value, b: Value) {
    Less(a, b) == Ok(false) && Less(b, a) == Ok(false)
  }

  lemma SelfAlike(k: Value)
    requires Less(k, k).Ok?
    ensures Alike(k, k)
  {
    Asymmetric(k, k);
    match Less(k, k) case Ok(below) => assert below ==> Below(k, k);
  }

  /** What is comparable with a value is comparable with those alike. */
  lemma {:induction false} AlikeCompare(a: Value, m: Value, k: Value)
    requires Below(a, m) && Alike(m, k)
    ensures Less(a, k).Ok?
    decreases a
  {
    if a.ListV? { ListAlikeCompare(a.elems, m.elems, k.elems, 0); }
  }

  lemma {:induction false} ListAlikeCompare(xs: seq<Value>, ms: seq<Value>, ks: seq<Value>, i: nat)
    requires i <= |xs| && i <= |ms| && i <= |ks|
    requires LessFrom(xs, ms, i) == Ok(true) && LessFrom(ms, ks, i) == Ok(false) && LessFrom(ks, ms, i) == Ok(false)
    ensures LessFrom(xs, ks, i).Ok?
    decreases xs, |xs| - i
  {
    if i < |xs| && i < |ks| {
      EqIsSame(xs[i], ms[i]);
      EqIsSame(ms[i], ks[i]);
      EqSymmetric(ms[i], ks[i]);
      EqIsSame(xs[i], ks[i]);
      if EqV(xs[i], ms[i]) && EqV(ms[i], ks[i]) {
        ListAlikeCompare(xs, ms, ks, i + 1);
      } else if !EqV(xs[i], ms[i]) && !EqV(ms[i], ks[i]) {
        AlikeCompare(xs[i], ms[i], ks[i]);
      }
    }
  }

  lemma {:induction false} AlikeCompareAbove(a: Value, m: Value, k: Value)
    requires Below(m, a) && Alike(m, k)
    ensures Less(k, a).Ok?
    decreases a
  {
    if a.ListV? { ListAlikeCompareAbove(a.elems, m.elems, k.elems, 0); }
  }

  lemma {:induction false} ListAlikeCompareAbove(xs: seq<Value>, ms: seq<Value>, ks: seq<Value>, i: nat)
    requires i <= |xs| && i <= |ms| && i <= |ks|
    requires LessFrom(ms, xs, i) == Ok(true) && LessFrom(ms, ks, i) == Ok(false) && LessFrom(ks, ms, i) == Ok(false)
    ensures LessFrom(ks, xs, i).Ok?
    decreases xs, |xs| - i
  {
    if i < |xs| && i < |ks| && i < |ms| {
      EqIsSame(ms[i], xs[i]);
      EqIsSame(ms[i], ks[i]);
      EqSymmetric(ms[i], ks[i]);
      EqIsSame(ks[i], xs[i]);
      if EqV(ms[i], xs[i]) && EqV(ms[i], ks[i]) {
        ListAlikeCompareAbove(xs, ms, ks, i + 1);
      } else if !EqV(ms[i], xs[i]) && !EqV(ms[i], ks[i]) {
        AlikeCompareAbove(xs[i], ms[i], ks[i]);
      }
    }
  }

  /** Equivalence under the order is an equivalence relation: the order is strict weak. */
  lemma StrictWeakOrder(a: Value, b: Value, c: Value, t: Type)
    requires HasType(a, t) && HasType(b, t) && HasType(c, t)
    ensures !Below(a, a)
    ensures Below(a, b) && Below(b, c) ==> Below(a, c)
    ensures !Below(a, b) && !Below(b, a) && !Below(b, c) && !Below(c, b) ==> !Below(a, c) && !Below(c, a)
  {
    Trichotomy(a, a, t);
    Trichotomy(a, b, t);
    Trichotomy(b, c, t);
    Trichotomy(a, c, t);
    EqIsIdentity(a, b, t);
    EqIsIdentity(b, c, t);
    EqIsIdentity(a, c, t);
    EqIsIdentity(a, a, t);
    if Below(a, b) && Below(b, c) { Transitive(a, b, c); }
  }

  /** Paths are ordered without their accessor: two paths that are equivalent in the order
      are equal exactly when their accessors are the same. */
  lemma PathsNeedOneAccessor(x: nat, y: nat, p: string, q: string)
    ensures !Below(PathV(x, p), PathV(y, q)) && !Below(PathV(y, q), PathV(x, p)) ==>
      (EqV(PathV(x, p), PathV(y, q)) <==> x == y)
    ensures !Below(PathV(0, p), PathV(1, p)) && !Below(PathV(1, p), PathV(0, p)) && !EqV(PathV(0, p), PathV(1, p))
  {
    StringTrichotomy(p, q);
    StringTrichotomy(p, p);
  }

  // ---- what the order is ----

  /** Integers are ordered by size. */
  lemma IntsBySize(i: int, j: int)
    ensures Less(IntV(i), IntV(j)) == Ok(i < j)
  {}

  /** The texts agree up to k, where `s` ends first or has the smaller character. */
  ghost predicate SmallerAt(s: string, t: string, k: nat) {
    k <= |s| && k < |t| && s[..k] == t[..k] && (k == |s| || s[k] < t[k])
  }

  lemma {:induction false} TextsByFirstDifference(s: string, t: string)
    ensures StringLess(s, t) <==> exists k: nat :: SmallerAt(s, t, k)
    decreases |s|
  {
    if s == [] {
      if t != [] { assert SmallerAt(s, t, 0); }
    } else if t != [] {
      if s[0] == t[0] {
        TextsByFirstDifference(s[1..], t[1..]);
        if k: nat :| SmallerAt(s[1..], t[1..], k) {
          assert s[..k + 1] == [s[0]] + s[1..][..k] && t[..k + 1] == [t[0]] + t[1..][..k];
          assert SmallerAt(s, t, k + 1);
        }
        if k: nat :| SmallerAt(s, t, k) {
          assert k > 0 && s[1..][..k - 1] == s[..k][1..] && t[1..][..k - 1] == t[..k][1..];
          assert SmallerAt(s[1..], t[1..], k - 1);
        }
      } else {
        if s[0] < t[0] { assert SmallerAt(s, t, 0); }
        if k: nat :| SmallerAt(s, t, k) {
          assert k == 0;
        }
      }
    }
  }

  /** Strings are ordered at the first difference, and paths as their texts are. */
  lemma TextsByFirst(s: string, t: string, x: nat, y: nat)
    ensures Below(StringV(s), StringV(t)) <==> exists k: nat :: SmallerAt(s, t, k)
    ensures Below(PathV(x, s), PathV(y, t)) <==> exists k: nat :: SmallerAt(s, t, k)
  {
    TextsByFirstDifference(s, t);
  }

  /** The lists agree up to k, where `xs` ends first or has an element that is below. */
  ghost predicate ListBelowAt(xs: seq<Value>, ys: seq<Value>, k: nat) {
    && k <= |xs| && k < |ys|
    && (forall i :: 0 <= i < k ==> EqV(xs[i], ys[i]))
    && (k == |xs| || (!EqV(xs[k], ys[k]) && Below(xs[k], ys[k])))
  }

  lemma {:induction false} ListsFrom(xs: seq<Value>, ys: seq<Value>, i: nat)
    requires i <= |xs| && i <= |ys| && forall j :: 0 <= j < i ==> EqV(xs[j], ys[j])
    ensures LessFrom(xs, ys, i) == Ok(true) <==> exists k: nat :: i <= k && ListBelowAt(xs, ys, k)
    decreases |xs| - i
  {
    if i < |xs| && i < |ys| && EqV(xs[i], ys[i]) {
      ListsFrom(xs, ys, i + 1);
    } else if LessFrom(xs, ys, i) == Ok(true) {
      assert ListBelowAt(xs, ys, i);
    }
  }

  /** Lists are ordered at the first position where `eqValues` tells them apart. */
  lemma ListsByFirstDifference(xs: seq<Value>, ys: seq<Value>)
    ensures Below(ListV(xs), ListV(ys)) <==> exists k: nat :: ListBelowAt(xs, ys, k)
  {
    ListsFrom(xs, ys, 0);
  }

  ghost predicate TypedListBelowAt(xs: seq<Value>, ys: seq<Value>, k: nat) {
    k <= |xs| && k < |ys| && xs[..k] == ys[..k] && (k == |xs| || Below(xs[k], ys[k]))
  }

  /** In one comparable type that is the first position where they differ. */
  lemma TypedListsByFirstDifference(xs: seq<Value>, ys: seq<Value>, t: Type)
    requires HasType(ListV(xs), t) && HasType(ListV(ys), t)
    ensures Below(ListV(xs), ListV(ys)) <==> exists k: nat :: TypedListBelowAt(xs, ys, k)
  {
    ListsByFirstDifference(xs, ys);
    forall i | 0 <= i < |xs| && i < |ys| ensures EqV(xs[i], ys[i]) <==> xs[i] == ys[i] {
      EqIsIdentity(xs[i], ys[i], t.elem(i));
    }
    forall i | 0 <= i < |xs| && i < |ys| ensures Below(xs[i], ys[i]) ==> !EqV(xs[i], ys[i]) {
      Trichotomy(xs[i], ys[i], t.elem(i));
    }
    if k: nat :| ListBelowAt(xs, ys, k) {
      assert xs[..k] == ys[..k];
      assert TypedListBelowAt(xs, ys, k);
    }
    if k: nat :| TypedListBelowAt(xs, ys, k) {
      forall i | 0 <= i < k ensures EqV(xs[i], ys[i]) { assert xs[..k][i] == ys[..k][i]; }
      assert ListBelowAt(xs, ys, k);
    }
  }

  /** Outside lists a comparison fails exactly when the two are not both integers, both strings
      or both paths. */
  lemma PlainComparable(a: Value, b: Value)
    requires !a.ListV? || !b.ListV?
    ensures Less(a, b).Ok? <==> (a.IntV? && b.IntV?) || (a.StringV? && b.StringV?) || (a.PathV? && b.PathV?)
  {}
}

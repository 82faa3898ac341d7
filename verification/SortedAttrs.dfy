/** Attribute arrays sorted by name: lookup, insertion and the right-biased merge of `//`,
    each related to the finite map the array stands for. */
module SortedAttrs {
  import opened Wrappers

  // Symbols are ordered by the number the symbol table gave them.
  type Symbol = nat

  datatype Attr<T> = Attr(name: Symbol, value: T)

  // The names a map keyed by symbol is walked through.
  predicate Ascending(xs: seq<Symbol>) {
    forall i, j :: 0 <= i < j < |xs| ==> xs[i] < xs[j]
  }

  ghost predicate Sorted<T>(xs: seq<Attr<T>>) {
    forall i, j :: 0 <= i < j < |xs| ==> xs[i].name < xs[j].name
  }

  /** The finite map an attribute array stands for; the first entry of a name counts. */
  function ToMap<T>(xs: seq<Attr<T>>): map<Symbol, T> {
    if xs == [] then map[] else ToMap(xs[1..])[xs[0].name := xs[0].value]
  }

  function Get<T>(xs: seq<Attr<T>>, name: Symbol): Option<T> {
    if xs == [] then None
    else if xs[0].name == name then Some(xs[0].value)
    else Get(xs[1..], name)
  }

  function Insert<T>(xs: seq<Attr<T>>, a: Attr<T>): seq<Attr<T>> {
    if xs == [] then [a]
    else if a.name < xs[0].name then [a] + xs
    else if a.name == xs[0].name then [a] + xs[1..]
    else [xs[0]] + Insert(xs[1..], a)
  }

  /** Two-pointer merge; on a common name the entry of `ys` is kept. */
  function Merge<T>(xs: seq<Attr<T>>, ys: seq<Attr<T>>): seq<Attr<T>>
    decreases |xs| + |ys|
  {
    if xs == [] then ys
    else if ys == [] then xs
    else if xs[0].name == ys[0].name then [ys[0]] + Merge(xs[1..], ys[1..])
    else if xs[0].name < ys[0].name then [xs[0]] + Merge(xs[1..], ys)
    else [ys[0]] + Merge(xs, ys[1..])
  }

  lemma {:induction false} ToMapGet<T>(xs: seq<Attr<T>>, name: Symbol)
    ensures Get(xs, name) == if name in ToMap(xs) then Some(ToMap(xs)[name]) else None
  {
    if xs != [] { ToMapGet(xs[1..], name); }
  }

  lemma {:induction false} ToMapKeys<T>(xs: seq<Attr<T>>)
    ensures forall n :: n in ToMap(xs) <==> exists i :: 0 <= i < |xs| && xs[i].name == n
  {
    if xs != [] {
      ToMapKeys(xs[1..]);
      forall n | n in ToMap(xs) ensures exists i :: 0 <= i < |xs| && xs[i].name == n {
        if n == xs[0].name {
        } else {
          assert n in ToMap(xs[1..]);
          var i :| 0 <= i < |xs[1..]| && xs[1..][i].name == n;
          assert xs[i + 1].name == n;
        }
      }
      forall n, i | 0 <= i < |xs| && xs[i].name == n ensures n in ToMap(xs) {
        if i > 0 { assert xs[1..][i - 1].name == n; }
      }
    }
  }

  lemma {:induction false} GetAt<T>(xs: seq<Attr<T>>, i: nat)
    requires Sorted(xs) && i < |xs|
    ensures Get(xs, xs[i].name) == Some(xs[i].value)
  {
    if i > 0 {
      assert xs[1..][i - 1] == xs[i];
      GetAt(xs[1..], i - 1);
    }
  }

  lemma {:induction false} GetNone<T>(xs: seq<Attr<T>>, name: Symbol)
    requires forall k :: 0 <= k < |xs| ==> xs[k].name != name
    ensures Get(xs, name) == None
  {
    if xs != [] { GetNone(xs[1..], name); }
  }

  lemma {:induction false} MergeNames<T>(xs: seq<Attr<T>>, ys: seq<Attr<T>>)
    ensures forall k :: 0 <= k < |Merge(xs, ys)| ==> Merge(xs, ys)[k] in xs || Merge(xs, ys)[k] in ys
    decreases |xs| + |ys|
  {
    if xs == [] || ys == [] {
    } else if xs[0].name == ys[0].name {
      MergeNames(xs[1..], ys[1..]);
    } else if xs[0].name < ys[0].name {
      MergeNames(xs[1..], ys);
    } else {
      MergeNames(xs, ys[1..]);
    }
  }

  lemma {:induction false} MergeSorted<T>(xs: seq<Attr<T>>, ys: seq<Attr<T>>)
    requires Sorted(xs) && Sorted(ys)
    ensures Sorted(Merge(xs, ys))
    decreases |xs| + |ys|
  {
    if xs == [] || ys == [] {
    } else if xs[0].name == ys[0].name {
      MergeSorted(xs[1..], ys[1..]);
      MergeNames(xs[1..], ys[1..]);
    } else if xs[0].name < ys[0].name {
      MergeSorted(xs[1..], ys);
      MergeNames(xs[1..], ys);
    } else {
      MergeSorted(xs, ys[1..]);
      MergeNames(xs, ys[1..]);
    }
  }

  /** In a sorted array no entry below the head's name exists. */
  lemma GetBelow<T>(xs: seq<Attr<T>>, name: Symbol)
    requires Sorted(xs)
    requires xs != [] ==> name < xs[0].name
    ensures Get(xs, name) == None
  {
    if xs != [] { GetBelow(xs[1..], name); }
  }

  /** Merging two sorted arrays is map override by the right operand. */
  lemma {:induction false} MergeGet<T>(xs: seq<Attr<T>>, ys: seq<Attr<T>>, name: Symbol)
    requires Sorted(xs) && Sorted(ys)
    ensures Get(Merge(xs, ys), name) == if Get(ys, name).Some? then Get(ys, name) else Get(xs, name)
    decreases |xs| + |ys|
  {
    if xs == [] || ys == [] {
    } else if xs[0].name == ys[0].name {
      MergeGet(xs[1..], ys[1..], name);
    } else if xs[0].name < ys[0].name {
      MergeGet(xs[1..], ys, name);
      if name == xs[0].name { GetBelow(ys, name); }
    } else {
      MergeGet(xs, ys[1..], name);
    }
  }

  lemma {:induction false} InsertIsMerge<T>(xs: seq<Attr<T>>, a: Attr<T>)
    ensures Insert(xs, a) == Merge(xs, [a])
  {
    if xs == [] {
    } else if a.name < xs[0].name {
      assert [a][1..] == [];
      assert Merge(xs, [a][1..]) == xs;
    } else if a.name == xs[0].name {
      assert [a][1..] == [];
      assert Merge(xs[1..], [a][1..]) == xs[1..];
    } else {
      InsertIsMerge(xs[1..], a);
    }
  }

  /** Insertion into a sorted array is map update. */
  lemma InsertOk<T>(xs: seq<Attr<T>>, a: Attr<T>)
    requires Sorted(xs)
    ensures Sorted(Insert(xs, a)) && ToMap(Insert(xs, a)) == ToMap(xs)[a.name := a.value]
  {
    InsertIsMerge(xs, a);
    MergeSorted(xs, [a]);
    forall n: nat ensures n in ToMap(Insert(xs, a)) <==> n in ToMap(xs)[a.name := a.value]
                  ensures n in ToMap(Insert(xs, a)) ==> ToMap(Insert(xs, a))[n] == ToMap(xs)[a.name := a.value][n] {
      MergeGet(xs, [a], n);
      ToMapGet(Insert(xs, a), n);
      ToMapGet(xs, n);
    }
  }
}

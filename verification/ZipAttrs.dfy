/** `builtins.zipAttrsWith`: count the values of each name, then fill lists of exactly that
    size. */
module ZipAttrs {
  import opened Wrappers
  import opened SortedAttrs

  datatype Item<V> = Item(size: nat, pos: nat, list: seq<Option<V>>)

  /** All attributes of the list, in list order. */
  function Flat<V>(sets: seq<seq<Attr<V>>>): seq<Attr<V>> {
    if sets == [] then [] else Flat(sets[..|sets| - 1]) + sets[|sets| - 1]
  }

  /** The values of one name, in order. */
  function Values<V>(attrs: seq<Attr<V>>, name: Symbol): seq<V> {
    if attrs == [] then []
    else
      var last := attrs[|attrs| - 1];
      Values(attrs[..|attrs| - 1], name) + if last.name == name then [last.value] else []
  }

  lemma ValuesSnoc<V>(attrs: seq<Attr<V>>, a: Attr<V>, name: Symbol)
    ensures Values(attrs + [a], name) == Values(attrs, name) + if a.name == name then [a.value] else []
  {
    assert (attrs + [a])[..|attrs|] == attrs;
  }

  lemma {:induction false} ValuesPrefix<V>(attrs: seq<Attr<V>>, k: nat, name: Symbol)
    requires k <= |attrs|
    ensures Values(attrs[..k], name) <= Values(attrs, name)
    decreases |attrs|
  {
    if k == |attrs| {
      assert attrs[..k] == attrs;
    } else {
      assert attrs[..|attrs| - 1][..k] == attrs[..k];
      ValuesPrefix(attrs[..|attrs| - 1], k, name);
    }
  }

  /** Counts after the attributes `done` have been seen. */
  ghost predicate Counted<V>(seen: seq<Attr<Item<V>>>, done: seq<Attr<V>>) {
    && Sorted(seen)
    && (forall n: nat :: CountRight(ToMap(seen), done, n))
  }

  /** Lists after the attributes `done` (of `all`) have been filled in: no position has
      passed its size, and what is filled is right. */
  ghost predicate Filling<V>(seen: seq<Attr<Item<V>>>, done: seq<Attr<V>>, all: seq<Attr<V>>) {
    Sorted(seen) && forall n: nat :: FillRight(ToMap(seen), done, all, n)
  }

  ghost predicate FillRight<V>(m: map<Symbol, Item<V>>, done: seq<Attr<V>>, all: seq<Attr<V>>, n: Symbol) {
    && (n in m <==> Values(all, n) != [])
    && (n in m ==> FilledTo(m[n], Values(done, n), Values(all, n)))
  }

  ghost predicate FilledTo<V>(item: Item<V>, done: seq<V>, all: seq<V>) {
    && item.size == |item.list| == |all| && item.pos == |done| <= item.size
    && (forall k :: 0 <= k < |done| ==> item.list[k] == Some(done[k]))
  }

  /** The item of a name with one more value counted. */
  function Bump<V>(seen: seq<Attr<Item<V>>>, name: Symbol): Item<V> {
    match Get(seen, name)
    case None => Item(1, 0, [])
    case Some(item) => item.(size := item.size + 1)
  }

  ghost predicate CountRight<V>(m: map<Symbol, Item<V>>, done: seq<Attr<V>>, n: Symbol) {
    && (n in m <==> Values(done, n) != [])
    && (n in m ==> m[n] == Item(|Values(done, n)|, 0, []))
  }

  lemma CountStep<V>(seen: seq<Attr<Item<V>>>, done: seq<Attr<V>>, a: Attr<V>)
    requires Counted(seen, done)
    ensures Counted(Insert(seen, Attr(a.name, Bump(seen, a.name))), done + [a])
  {
    var item := Bump(seen, a.name);
    ToMapGet(seen, a.name);
    InsertOk(seen, Attr(a.name, item));
    var m := ToMap(seen)[a.name := item];
    forall n: nat ensures CountRight(m, done + [a], n) {
      ValuesSnoc(done, a, n);
      assert CountRight(ToMap(seen), done, n);
    }
  }

  lemma FilledOne<V>(item: Item<V>, done: seq<V>, all: seq<V>, v: V)
    requires FilledTo(item, done, all) && done + [v] <= all
    ensures item.pos < item.size
    ensures FilledTo(item.(list := item.list[item.pos := Some(v)], pos := item.pos + 1), done + [v], all)
  {
    assert |done + [v]| <= |all|;
  }

  function Put<V>(item: Item<V>, v: V): Item<V>
    requires item.pos < |item.list|
  {
    item.(list := item.list[item.pos := Some(v)], pos := item.pos + 1)
  }

  /** Storing the next value keeps the lists right, and there is room for it. */
  lemma FillStep<V>(seen: seq<Attr<Item<V>>>, done: seq<Attr<V>>, a: Attr<V>, all: seq<Attr<V>>)
    requires Filling(seen, done, all) && Values(done + [a], a.name) <= Values(all, a.name)
    ensures Get(seen, a.name).Some?
    ensures
      var item := Get(seen, a.name).value;
      item.pos < item.size == |item.list| && Filling(Insert(seen, Attr(a.name, Put(item, a.value))), done + [a], all)
  {
    ToMapGet(seen, a.name);
    ValuesSnoc(done, a, a.name);
    assert FillRight(ToMap(seen), done, all, a.name);
    var item := ToMap(seen)[a.name];
    FilledOne(item, Values(done, a.name), Values(all, a.name), a.value);
    InsertOk(seen, Attr(a.name, Put(item, a.value)));
    FilledOthers(ToMap(seen), ToMap(seen)[a.name := Put(item, a.value)], a.name, Put(item, a.value), done, a, all);
  }

  lemma FilledOthers<V>(m: map<Symbol, Item<V>>, m': map<Symbol, Item<V>>, name: Symbol, item: Item<V>, done: seq<Attr<V>>, a: Attr<V>,
                        all: seq<Attr<V>>)
    requires m' == m[name := item]
    requires name in m && a.name == name && FilledTo(item, Values(done + [a], name), Values(all, name))
    requires forall n: nat :: FillRight(m, done, all, n)
    ensures forall n: nat :: FillRight(m', done + [a], all, n)
  {
    forall n: nat ensures FillRight(m', done + [a], all, n) {
      ValuesSnoc(done, a, n);
      assert FillRight(m, done, all, n);
    }
  }

  /** Every name with its values in list order, names ascending. */
  ghost predicate Zipped<V>(r: seq<Attr<seq<V>>>, all: seq<Attr<V>>) {
    && Sorted(r)
    && (forall n :: n in ToMap(r) <==> Values(all, n) != [])
    && (forall n :: n in ToMap(r) ==> ToMap(r)[n] == Values(all, n))
  }

  method CountPass<V>(sets: seq<seq<Attr<V>>>) returns (seen: seq<Attr<Item<V>>>)
    ensures Counted(seen, Flat(sets))
  {
    seen := [];
    var i := 0;
    assert sets[..0] == [];
    while i < |sets|
      invariant 0 <= i <= |sets| && Counted(seen, Flat(sets[..i]))
    {
      var j := 0;
      assert sets[..i + 1][..i] == sets[..i];
      assert Flat(sets[..i]) + sets[i][..0] == Flat(sets[..i]);
      while j < |sets[i]|
        invariant 0 <= j <= |sets[i]| && Counted(seen, Flat(sets[..i]) + sets[i][..j])
      {
        var a := sets[i][j];
        CountStep(seen, Flat(sets[..i]) + sets[i][..j], a);
        assert Flat(sets[..i]) + sets[i][..j] + [a] == Flat(sets[..i]) + sets[i][..j + 1];
        seen := Insert(seen, Attr(a.name, Bump(seen, a.name)));
        j := j + 1;
      }
      assert sets[i][..j] == sets[i];
      i := i + 1;
    }
    assert sets[..i] == sets;
  }

  function Allocated<V>(seen: seq<Attr<Item<V>>>): seq<Attr<Item<V>>> {
    seq(|seen|, i requires 0 <= i < |seen| =>
      Attr(seen[i].name, seen[i].value.(list := seq(seen[i].value.size, _ => None))))
  }

  lemma {:induction false} AllocatedMap<V>(seen: seq<Attr<Item<V>>>)
    ensures ToMap(Allocated(seen)).Keys == ToMap(seen).Keys
    ensures forall n :: n in ToMap(seen) ==>
      ToMap(Allocated(seen))[n] == ToMap(seen)[n].(list := seq(ToMap(seen)[n].size, _ => None))
  {
    if seen != [] {
      assert Allocated(seen)[1..] == Allocated(seen[1..]);
      AllocatedMap(seen[1..]);
    }
  }

  lemma StartFilling<V>(seen: seq<Attr<Item<V>>>, all: seq<Attr<V>>)
    requires Counted(seen, all)
    ensures Filling(Allocated(seen), [], all)
  {
    AllocatedMap(seen);
    forall n: nat ensures FillRight(ToMap(Allocated(seen)), [], all, n) {
      assert CountRight(ToMap(seen), all, n);
    }
  }

  lemma NextValues<V>(done: seq<Attr<V>>, attrs: seq<Attr<V>>, j: nat, all: seq<Attr<V>>)
    requires j < |attrs| && done + attrs <= all
    ensures (done + attrs[..j]) + [attrs[j]] == done + attrs[..j + 1]
    ensures Values((done + attrs[..j]) + [attrs[j]], attrs[j].name) <= Values(all, attrs[j].name)
  {
    var longer := done + attrs[..j + 1];
    assert longer == all[..|longer|];
    ValuesPrefix(all, |longer|, attrs[j].name);
  }

  /** Fills in the attributes of one set, which come right after `done`. */
  method FillSet<V>(attrs: seq<Attr<V>>, start: seq<Attr<Item<V>>>, ghost done: seq<Attr<V>>, ghost all: seq<Attr<V>>) returns (seen: seq<Attr<Item<V>>>)
    requires done + attrs <= all && Filling(start, done, all)
    ensures Filling(seen, done + attrs, all)
  {
    seen := start;
    var j := 0;
    assert done + attrs[..0] == done;
    while j < |attrs|
      invariant 0 <= j <= |attrs| && Filling(seen, done + attrs[..j], all)
    {
      var a := attrs[j];
      NextValues(done, attrs, j, all);
      seen := FillNext(a, seen, done + attrs[..j], all);
      j := j + 1;
    }
    assert attrs[..j] == attrs;
  }

  /** `(*item.list)[item.pos++] = attr.value` */
  method FillNext<V>(a: Attr<V>, start: seq<Attr<Item<V>>>, ghost done: seq<Attr<V>>, ghost all: seq<Attr<V>>) returns (seen: seq<Attr<Item<V>>>)
    requires Filling(start, done, all) && Values(done + [a], a.name) <= Values(all, a.name)
    ensures Filling(seen, done + [a], all)
  {
    FillStep(start, done, a, all);
    var item := Get(start, a.name).value;
    seen := Insert(start, Attr(a.name, Put(item, a.value)));
  }

  method FillPass<V>(sets: seq<seq<Attr<V>>>, start: seq<Attr<Item<V>>>) returns (seen: seq<Attr<Item<V>>>)
    requires Filling(start, [], Flat(sets))
    ensures Filling(seen, Flat(sets), Flat(sets))
  {
    seen := start;
    var i := 0;
    assert sets[..0] == [];
    while i < |sets|
      invariant 0 <= i <= |sets| && Filling(seen, Flat(sets[..i]), Flat(sets))
    {
      FlatPrefix(sets, i);
      assert sets[..i + 1][..i] == sets[..i];
      seen := FillSet(sets[i], seen, Flat(sets[..i]), Flat(sets));
      i := i + 1;
    }
    assert sets[..i] == sets;
  }

  lemma {:induction false} FlatPrefix<V>(sets: seq<seq<Attr<V>>>, i: nat)
    requires i < |sets|
    ensures Flat(sets[..i]) + sets[i] <= Flat(sets)
    decreases |sets|
  {
    var init := sets[..|sets| - 1];
    if i == |sets| - 1 {
    } else {
      assert init[..i] == sets[..i];
      FlatPrefix(init, i);
    }
  }

  method ZipAttrs<V>(sets: seq<seq<Attr<V>>>) returns (r: seq<Attr<seq<V>>>)
    ensures Zipped(r, Flat(sets))
  {
    var seen := CountPass(sets);
    StartFilling(seen, Flat(sets));
    seen := FillPass(sets, Allocated(seen));
    FullItems(seen, Flat(sets));
    r := seq(|seen|, i requires 0 <= i < |seen| && Complete(seen[i].value) => Attr(seen[i].name, Unwrap(seen[i].value.list)));
    ResultMap(seen, r);
    Finished(seen, r, Flat(sets));
  }

  lemma Finished<V>(seen: seq<Attr<Item<V>>>, r: seq<Attr<seq<V>>>, all: seq<Attr<V>>)
    requires Filling(seen, all, all) && ToMap(r).Keys == ToMap(seen).Keys && Sorted(r)
    requires forall n :: n in ToMap(seen) ==> Complete(ToMap(seen)[n]) && ToMap(r)[n] == Unwrap(ToMap(seen)[n].list)
    ensures Zipped(r, all)
  {
    forall n: nat ensures (n in ToMap(r) <==> Values(all, n) != []) && (n in ToMap(r) ==> ToMap(r)[n] == Values(all, n)) {
      assert FillRight(ToMap(seen), all, all, n);
    }
  }

  predicate Complete<V>(item: Item<V>) {
    forall k :: 0 <= k < |item.list| ==> item.list[k].Some?
  }

  function Unwrap<V>(list: seq<Option<V>>): seq<V>
    requires forall k :: 0 <= k < |list| ==> list[k].Some?
  {
    seq(|list|, k requires 0 <= k < |list| && list[k].Some? => list[k].value)
  }

  /** At the end every position equals its counted size and every slot is filled. */
  lemma FullItems<V>(seen: seq<Attr<Item<V>>>, all: seq<Attr<V>>)
    requires Filling(seen, all, all)
    ensures forall i :: 0 <= i < |seen| ==>
      && Complete(seen[i].value) && seen[i].value.pos == seen[i].value.size
      && Unwrap(seen[i].value.list) == Values(all, seen[i].name)
  {
    forall i | 0 <= i < |seen| ensures Complete(seen[i].value) && seen[i].value.pos == seen[i].value.size
                                 && Unwrap(seen[i].value.list) == Values(all, seen[i].name) {
      EntryInMap(seen, i);
      assert FillRight(ToMap(seen), all, all, seen[i].name);
      assert FilledTo(seen[i].value, Values(all, seen[i].name), Values(all, seen[i].name));
    }
  }

  lemma EntryInMap<T>(xs: seq<Attr<T>>, i: nat)
    requires Sorted(xs) && i < |xs|
    ensures xs[i].name in ToMap(xs) && ToMap(xs)[xs[i].name] == xs[i].value
  {
    GetAt(xs, i);
    ToMapGet(xs, xs[i].name);
  }

  lemma {:induction false} ResultMap<V>(seen: seq<Attr<Item<V>>>, r: seq<Attr<seq<V>>>)
    requires |r| == |seen| && forall i :: 0 <= i < |seen| ==> Complete(seen[i].value) && r[i] == Attr(seen[i].name, Unwrap(seen[i].value.list))
    ensures ToMap(r).Keys == ToMap(seen).Keys
    ensures forall n :: n in ToMap(seen) ==> Complete(ToMap(seen)[n]) && ToMap(r)[n] == Unwrap(ToMap(seen)[n].list)
  {
    if seen != [] { ResultMap(seen[1..], r[1..]); }
  }

  function TotalLength<V>(r: seq<Attr<seq<V>>>): nat {
    if r == [] then 0 else |r[0].value| + TotalLength(r[1..])
  }

  lemma {:induction false} TotalSnoc<V>(names: seq<Symbol>, all: seq<Attr<V>>, a: Attr<V>)
    requires forall i, j :: 0 <= i < j < |names| ==> names[i] != names[j]
    ensures Total(names, all + [a]) == Total(names, all) + if a.name in names then 1 else 0
  {
    if names != [] {
      ValuesSnoc(all, a, names[0]);
      TotalSnoc(names[1..], all, a);
      assert names[0] !in names[1..];
    }
  }

  function Total<V>(names: seq<Symbol>, all: seq<Attr<V>>): nat {
    if names == [] then 0 else |Values(all, names[0])| + Total(names[1..], all)
  }

  lemma {:induction false} TotalIsLength<V>(names: seq<Symbol>, all: seq<Attr<V>>)
    requires forall i, j :: 0 <= i < j < |names| ==> names[i] != names[j]
    requires forall k :: 0 <= k < |all| ==> all[k].name in names
    ensures Total(names, all) == |all|
  {
    if all == [] {
      TotalOfNone<V>(names);
    } else {
      var init := all[..|all| - 1];
      assert all == init + [all[|all| - 1]];
      TotalIsLength(names, init);
      TotalSnoc(names, init, all[|all| - 1]);
    }
  }

  lemma {:induction false} TotalOfNone<V>(names: seq<Symbol>)
    ensures Total<V>(names, []) == 0
  {
    if names != [] { TotalOfNone<V>(names[1..]); }
  }

  lemma {:induction false} ValuesOfPresent<V>(all: seq<Attr<V>>, k: nat)
    requires k < |all|
    ensures Values(all, all[k].name) != []
  {
    if k < |all| - 1 { ValuesOfPresent(all[..|all| - 1], k); }
  }

  /** No value is lost or repeated: the list lengths add up to the number of attributes. */
  lemma NothingLost<V>(r: seq<Attr<seq<V>>>, all: seq<Attr<V>>)
    requires Zipped(r, all)
    ensures TotalLength(r) == |all|
  {
    var names := seq(|r|, i requires 0 <= i < |r| => r[i].name);
    ToMapKeys(r);
    forall k | 0 <= k < |all| ensures all[k].name in names {
      ValuesOfPresent(all, k);
      var i :| 0 <= i < |r| && r[i].name == all[k].name;
      assert names[i] == all[k].name;
    }
    TotalIsLength(names, all);
    forall i | 0 <= i < |r| ensures r[i].value == Values(all, r[i].name) { EntryInMap(r, i); }
    TotalsAgree(r, names, all);
  }

  lemma {:induction false} TotalsAgree<V>(r: seq<Attr<seq<V>>>, names: seq<Symbol>, all: seq<Attr<V>>)
    requires |r| == |names| && forall i :: 0 <= i < |r| ==> r[i].name == names[i] && r[i].value == Values(all, names[i])
    ensures TotalLength(r) == Total(names, all)
  {
    if r != [] { TotalsAgree(r[1..], names[1..], all); }
  }
}

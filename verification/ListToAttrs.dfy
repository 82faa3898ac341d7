/** `builtins.listToAttrs`: one array serves as sort buffer and as result, and is unpacked in
    place. */
module ListToAttrs {
  import opened Wrappers
  import opened SortedAttrs

  // An element of the list; a missing attribute (or a name that is no string) is None.
  datatype Elem<V> = Elem(name: Option<Symbol>, value: Option<V>)

  datatype ListError = NoName | NoValue

  // An entry refers to its list element first and to the element's value later.
  datatype Slot<V> = Ref(name: Symbol, index: nat) | Pair(name: Symbol, value: V) | Blank

  /** The first list position of a name. */
  function FirstIndex<V>(list: seq<Elem<V>>, name: Symbol): (r: Option<nat>)
    ensures r.Some? ==> r.value < |list| && list[r.value].name == Some(name)
    ensures r.Some? ==> forall j :: 0 <= j < r.value ==> list[j].name != Some(name)
    ensures r.None? ==> forall j :: 0 <= j < |list| ==> list[j].name != Some(name)
  {
    if list == [] then None
    else if list[0].name == Some(name) then Some(0)
    else match FirstIndex(list[1..], name)
      case None => None
      case Some(i) => Some(i + 1)
  }

  predicate RefLess<V>(a: Slot<V>, b: Slot<V>)
    requires a.Ref? && b.Ref?
  {
    a.name < b.name || (a.name == b.name && a.index < b.index)
  }

  ghost predicate AllRefs<V>(s: seq<Slot<V>>) {
    forall k :: 0 <= k < |s| ==> s[k].Ref?
  }

  ghost predicate RefsSorted<V>(s: seq<Slot<V>>)
    requires AllRefs(s)
  {
    forall i, j :: 0 <= i < j < |s| ==> RefLess(s[i], s[j])
  }

  function InsertRef<V>(s: seq<Slot<V>>, a: Slot<V>): (r: seq<Slot<V>>)
    requires AllRefs(s) && a.Ref?
    ensures AllRefs(r) && |r| == |s| + 1 && multiset(r) == multiset(s) + multiset{a}
  {
    if s == [] then [a]
    else if RefLess(a, s[0]) then
      assert multiset([a] + s) == multiset{a} + multiset(s);
      [a] + s
    else
      assert s == [s[0]] + s[1..];
      [s[0]] + InsertRef(s[1..], a)
  }

  /** Stands for `std::sort`. */
  function SortRefs<V>(s: seq<Slot<V>>): (r: seq<Slot<V>>)
    requires AllRefs(s)
    ensures AllRefs(r) && |r| == |s| && multiset(r) == multiset(s)
  {
    if s == [] then []
    else
      assert s == [s[0]] + s[1..];
      InsertRef(SortRefs(s[1..]), s[0])
  }

  lemma {:induction false} InsertRefSorted<V>(s: seq<Slot<V>>, a: Slot<V>)
    requires AllRefs(s) && RefsSorted(s) && a.Ref?
    requires forall k :: 0 <= k < |s| ==> s[k].name != a.name || s[k].index != a.index
    ensures RefsSorted(InsertRef(s, a))
  {
    if s != [] && !RefLess(a, s[0]) {
      InsertRefSorted(s[1..], a);
      var rest := InsertRef(s[1..], a);
      forall k | 0 <= k < |rest| ensures RefLess(s[0], rest[k]) {
        assert rest[k] in multiset(rest);
        assert rest[k] == a || rest[k] in s[1..];
      }
    }
  }

  lemma {:induction false} SortRefsSorted<V>(s: seq<Slot<V>>)
    requires AllRefs(s)
    requires forall i, j :: 0 <= i < j < |s| ==> s[i].index != s[j].index
    ensures RefsSorted(SortRefs(s))
  {
    if s != [] {
      SortRefsSorted(s[1..]);
      var rest := SortRefs(s[1..]);
      forall k | 0 <= k < |rest| ensures rest[k].index != s[0].index {
        assert rest[k] in multiset(rest) && rest[k] in s[1..];
        var j :| 0 <= j < |s[1..]| && s[1..][j] == rest[k];
        assert s[j + 1] == rest[k];
      }
      InsertRefSorted(rest, s[0]);
    }
  }

  ghost predicate Listed<V>(list: seq<Elem<V>>, p: seq<Slot<V>>, i: nat)
    requires i < |list|
  {
    list[i].name.Some? ==> Ref(list[i].name.value, i) in p
  }

  /** The sort buffer: every list position once, ordered by (name, position). */
  ghost predicate Buffer<V>(list: seq<Elem<V>>, p: seq<Slot<V>>) {
    && |p| == |list| && AllRefs(p) && RefsSorted(p)
    && (forall k :: 0 <= k < |p| ==> p[k].index < |list| && list[p[k].index].name == Some(p[k].name))
    && (forall i :: 0 <= i < |list| ==> Listed(list, p, i))
  }

  function Refs<V>(list: seq<Elem<V>>): seq<Slot<V>>
    requires forall i :: 0 <= i < |list| ==> list[i].name.Some?
  {
    seq(|list|, i requires 0 <= i < |list| => Ref(list[i].name.value, i))
  }

  lemma SortedIsBuffer<V>(list: seq<Elem<V>>)
    requires forall i :: 0 <= i < |list| ==> list[i].name.Some?
    ensures Buffer(list, SortRefs(Refs(list)))
  {
    var refs := Refs(list);
    SortRefsSorted(refs);
    var p := SortRefs(refs);
    forall k | 0 <= k < |p| ensures p[k].index < |list| && list[p[k].index].name == Some(p[k].name) {
      assert p[k] in multiset(p) && p[k] in refs;
    }
    forall i | 0 <= i < |list| ensures Listed(list, p, i) {
      assert refs[i] in multiset(refs);
    }
  }

  /** The first entry of a run of equal names refers to the first list position. */
  lemma RunStart<V>(list: seq<Elem<V>>, p: seq<Slot<V>>, n: nat)
    requires Buffer(list, p) && n < |p| && (n > 0 ==> p[n - 1].name != p[n].name)
    ensures FirstIndex(list, p[n].name) == Some(p[n].index)
  {
    var first := FirstIndex(list, p[n].name);
    assert first.Some?;
    assert Listed(list, p, first.value);
    var k :| 0 <= k < |p| && p[k] == Ref(p[n].name, first.value);
  }

  /** Every entry kept has the value of the first list element of its name. */
  ghost predicate KeptRight<V>(list: seq<Elem<V>>, out: seq<Slot<V>>) {
    forall k :: 0 <= k < |out| ==> KeptOne(list, out[k])
  }

  ghost predicate KeptOne<V>(list: seq<Elem<V>>, s: Slot<V>) {
    && s.Pair? && FirstIndex(list, s.name).Some?
    && list[FirstIndex(list, s.name).value].value == Some(s.value)
  }

  ghost predicate KeptSorted<V>(out: seq<Slot<V>>)
    requires forall k :: 0 <= k < |out| ==> out[k].Pair?
  {
    forall i, j :: 0 <= i < j < |out| ==> out[i].name < out[j].name
  }

  /** The name of every one of the first n buffer entries has been kept. */
  ghost predicate KeptAll<V>(p: seq<Slot<V>>, n: nat, out: seq<Slot<V>>)
    requires n <= |p| && AllRefs(p) && forall k :: 0 <= k < |out| ==> out[k].Pair?
  {
    forall k {:trigger HasName(out, p[k].name)} :: 0 <= k < n ==> HasName(out, p[k].name)
  }

  ghost predicate HasName<V>(out: seq<Slot<V>>, name: Symbol)
    requires forall k :: 0 <= k < |out| ==> out[k].Pair?
  {
    exists j :: 0 <= j < |out| && out[j].name == name
  }

  /** What the first n buffer entries have been unpacked to. */
  ghost predicate Unpacked<V>(list: seq<Elem<V>>, p: seq<Slot<V>>, n: nat, out: seq<Slot<V>>)
    requires n <= |p| && AllRefs(p)
  {
    && |out| <= n
    && KeptRight(list, out) && KeptSorted(out) && KeptAll(p, n, out)
    && (n > 0 ==> out != [] && out[|out| - 1].name == p[n - 1].name)
    && (n == 0 ==> out == [])
  }

  lemma UnpackSame<V>(list: seq<Elem<V>>, p: seq<Slot<V>>, n: nat, out: seq<Slot<V>>)
    requires Buffer(list, p) && n < |p| && Unpacked(list, p, n, out) && n > 0 && p[n - 1].name == p[n].name
    ensures Unpacked(list, p, n + 1, out)
  {
    assert out[|out| - 1].name == p[n].name;
    assert HasName(out, p[n].name);
  }

  lemma KeptAllSnoc<V>(p: seq<Slot<V>>, n: nat, out: seq<Slot<V>>, s: Slot<V>)
    requires n < |p| && AllRefs(p) && (forall k :: 0 <= k < |out| ==> out[k].Pair?) && KeptAll(p, n, out)
    requires s.Pair? && s.name == p[n].name
    ensures KeptAll(p, n + 1, out + [s])
  {
    var out' := out + [s];
    assert out'[|out|].name == p[n].name;
    forall k | 0 <= k < n ensures HasName(out', p[k].name) {
      assert HasName(out, p[k].name);
      var j :| 0 <= j < |out| && out[j].name == p[k].name;
      assert out'[j].name == p[k].name;
    }
  }

  lemma UnpackNew<V>(list: seq<Elem<V>>, p: seq<Slot<V>>, n: nat, out: seq<Slot<V>>)
    requires Buffer(list, p) && n < |p| && Unpacked(list, p, n, out) && (n > 0 ==> p[n - 1].name != p[n].name)
    requires list[p[n].index].value.Some?
    ensures Unpacked(list, p, n + 1, out + [Pair(p[n].name, list[p[n].index].value.value)])
  {
    var s := Pair(p[n].name, list[p[n].index].value.value);
    RunStart(list, p, n);
    assert KeptOne(list, s);
    if n > 0 { assert RefLess(p[n - 1], p[n]); }
    KeptAllSnoc(p, n, out, s);
  }

  /** The first element of some name lacks a value. */
  ghost predicate MissingValue<V>(list: seq<Elem<V>>) {
    exists name, i :: FirstIndex(list, name) == Some(i) && list[i].value.None?
  }

  /** The result as an attribute array. */
  function Pairs<V>(out: seq<Slot<V>>): seq<Attr<V>>
    requires forall k :: 0 <= k < |out| ==> out[k].Pair?
  {
    seq(|out|, i requires 0 <= i < |out| => Attr(out[i].name, out[i].value))
  }

  /** `xs` is sorted and maps exactly the list's names, each to the value of its first occurrence. */
  ghost predicate FirstWins<V>(list: seq<Elem<V>>, xs: seq<Attr<V>>) {
    && Sorted(xs)
    && (forall name: nat :: Get(xs, name) ==
          match FirstIndex(list, name) case None => None case Some(i) => list[i].value)
  }

  lemma UnpackedName<V>(list: seq<Elem<V>>, p: seq<Slot<V>>, out: seq<Slot<V>>, name: Symbol)
    requires Buffer(list, p) && Unpacked(list, p, |p|, out) && Sorted(Pairs(out))
    ensures Get(Pairs(out), name) == match FirstIndex(list, name) case None => None case Some(i) => list[i].value
    ensures FirstIndex(list, name).Some? ==> list[FirstIndex(list, name).value].value.Some?
  {
    match FirstIndex(list, name)
    case None =>
      forall k | 0 <= k < |out| ensures Pairs(out)[k].name != name { assert KeptOne(list, out[k]); }
      GetNone(Pairs(out), name);
    case Some(i) =>
      assert Listed(list, p, i);
      var k :| 0 <= k < |p| && p[k] == Ref(name, i);
      assert HasName(out, p[k].name);
      var j :| 0 <= j < |out| && out[j].name == p[k].name;
      assert KeptOne(list, out[j]);
      GetAt(Pairs(out), j);
  }

  lemma UnpackedAll<V>(list: seq<Elem<V>>, p: seq<Slot<V>>, out: seq<Slot<V>>)
    requires Buffer(list, p) && Unpacked(list, p, |p|, out)
    ensures FirstWins(list, Pairs(out))
    ensures !MissingValue(list)
  {
    forall name: nat ensures Get(Pairs(out), name) == match FirstIndex(list, name) case None => None case Some(i) => list[i].value {
      UnpackedName(list, p, out, name);
    }
    forall name, i | FirstIndex(list, name) == Some(i) ensures list[i].value.Some? {
      UnpackedName(list, p, out, name);
    }
  }

  method ListToAttrs<V>(list: seq<Elem<V>>) returns (r: Result<seq<Attr<V>>, ListError>)
    ensures r.Ok? ==> FirstWins(list, r.value)
    ensures r == Err(NoName) <==> exists i :: 0 <= i < |list| && list[i].name.None?
    ensures r == Err(NoValue) <==>
      && (forall i :: 0 <= i < |list| ==> list[i].name.Some?)
      && MissingValue(list)
  {
    var bindings := new Slot<V>[|list|](_ => Blank);
    var n := 0;
    while n < |list|
      invariant 0 <= n <= |list|
      invariant forall i :: 0 <= i < n ==> list[i].name.Some? && bindings[i] == Ref(list[i].name.value, i)
    {
      if list[n].name.None? { return Err(NoName); }
      bindings[n] := Ref(list[n].name.value, n);
      n := n + 1;
    }
    assert bindings[..] == Refs(list);
    SortedIsBuffer(list);
    var p := SortRefs(bindings[..]);
    forall i | 0 <= i < |list| { bindings[i] := p[i]; }
    r := Unpack(list, bindings, p);
  }

  /** The in-place loop: the write position never passes the read position. */
  method Unpack<V>(list: seq<Elem<V>>, bindings: array<Slot<V>>, ghost p: seq<Slot<V>>) returns (r: Result<seq<Attr<V>>, ListError>)
    requires Buffer(list, p) && bindings[..] == p
    modifies bindings
    ensures r.Ok? ==> FirstWins(list, r.value) && !MissingValue(list)
    ensures r.Err? ==> r == Err(NoValue) && MissingValue(list)
  {
    var ok, size, prev, out := UnpackLoop(list, bindings, p);
    if !ok { return Err(NoValue); }
    r := Finish(list, bindings, p, size, prev, out);
  }

  method UnpackLoop<V>(list: seq<Elem<V>>, bindings: array<Slot<V>>, ghost p: seq<Slot<V>>)
      returns (ok: bool, size: nat, prev: Option<Symbol>, ghost out: seq<Slot<V>>)
    requires Buffer(list, p) && bindings[..] == p
    modifies bindings
    ensures bindings.Length == |p|
    ensures ok ==> Shared(list, p, bindings, |p|, size, prev, out)
    ensures !ok ==> MissingValue(list)
  {
    var n := 0;
    ok, size, prev, out := true, 0, None, [];
    SharedAtStart(list, p, bindings);
    while n < bindings.Length
      invariant ok && n <= bindings.Length == |p| && Shared(list, p, bindings, n, size, prev, out)
    {
      ok, size, prev, out := UnpackNext(list, bindings, p, n, size, prev, out);
      if !ok { return; }
      n := n + 1;
    }
  }

  lemma SharedAtStart<V>(list: seq<Elem<V>>, p: seq<Slot<V>>, bindings: array<Slot<V>>)
    requires AllRefs(p) && bindings[..] == p
    ensures bindings.Length == |p| && Shared(list, p, bindings, 0, 0, None, [])
  {}

  /** One round of the loop. */
  method UnpackNext<V>(list: seq<Elem<V>>, bindings: array<Slot<V>>, ghost p: seq<Slot<V>>, n: nat, size: nat, prev: Option<Symbol>,
                       ghost out: seq<Slot<V>>)
      returns (ok: bool, size': nat, prev': Option<Symbol>, ghost out': seq<Slot<V>>)
    requires Buffer(list, p) && n < |p| == bindings.Length && Shared(list, p, bindings, n, size, prev, out)
    modifies bindings
    ensures ok ==> Shared(list, p, bindings, n + 1, size', prev', out')
    ensures !ok ==> MissingValue(list)
  {
    ok, size', prev', out' := true, size, prev, out;
    if prev == Some(bindings[n].name) {
      UnpackSame(list, p, n, out);
    } else {
      prev' := Some(bindings[n].name);
      ok := UnpackEntry(list, bindings, p, n, size, prev, out);
      if ok { size', out' := size + 1, out + [Pair(p[n].name, list[p[n].index].value.value)]; }
    }
  }

  /** A name seen for the first time: its element's value goes behind the entries kept. */
  method UnpackEntry<V>(list: seq<Elem<V>>, bindings: array<Slot<V>>, ghost p: seq<Slot<V>>, n: nat, size: nat, prev: Option<Symbol>,
                        ghost out: seq<Slot<V>>)
      returns (ok: bool)
    requires Buffer(list, p) && n < |p| == bindings.Length && Shared(list, p, bindings, n, size, prev, out)
    requires n > 0 ==> p[n - 1].name != p[n].name
    modifies bindings
    ensures ok <==> list[p[n].index].value.Some?
    ensures !ok ==> MissingValue(list)
    ensures ok ==> Shared(list, p, bindings, n + 1, size + 1, Some(p[n].name), out + [Pair(p[n].name, list[p[n].index].value.value)])
  {
    var attr := bindings[n];
    var value := list[attr.index].value;
    RunStart(list, p, n);
    if value.None? { return false; }
    UnpackNew(list, p, n, out);
    PushBack(bindings, size, n, Pair(attr.name, value.value));
    return true;
  }

  /** The array in the middle of the loop: the entries kept, and from n on the sort buffer. */
  ghost predicate Shared<V>(list: seq<Elem<V>>, p: seq<Slot<V>>, bindings: array<Slot<V>>, n: nat, size: nat, prev: Option<Symbol>,
                            out: seq<Slot<V>>)
    requires AllRefs(p) && n <= |p| == bindings.Length
    reads bindings
  {
    && size == |out| <= n && bindings[..size] == out && Unpacked(list, p, n, out)
    && prev == (if n == 0 then None else Some(p[n - 1].name))
    && forall k :: n <= k < |p| ==> bindings[k] == p[k]
  }

  method Finish<V>(list: seq<Elem<V>>, bindings: array<Slot<V>>, ghost p: seq<Slot<V>>, size: nat, ghost prev: Option<Symbol>,
                   ghost out: seq<Slot<V>>)
      returns (r: Result<seq<Attr<V>>, ListError>)
    requires Buffer(list, p) && bindings.Length == |p| && Shared(list, p, bindings, |p|, size, prev, out)
    modifies bindings
    ensures r.Ok? && FirstWins(list, r.value) && !MissingValue(list)
  {
    UnpackedAll(list, p, out);
    r := Ok(Pairs(bindings[..size]));
    ClearEnd(bindings, size);
  }

  method ClearEnd<V>(bindings: array<Slot<V>>, size: nat)
    modifies bindings
  {
    var n := size;
    while n < bindings.Length {
      bindings[n] := Blank;
      n := n + 1;
    }
  }

  /** `push_back` below the read position n. */
  method PushBack<V>(bindings: array<Slot<V>>, size: nat, n: nat, entry: Slot<V>)
    requires size <= n < bindings.Length
    modifies bindings
    ensures bindings[..size + 1] == old(bindings[..size]) + [entry]
    ensures forall k :: n < k < bindings.Length ==> bindings[k] == old(bindings[k])
  {
    bindings[size] := entry;
  }
}

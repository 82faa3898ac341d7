/** Attribute sets as chains of sorted layers, their merging iterator, and the update
    operator `//` in all its shortcuts. A chain stands for one finite map; lookups take the
    newest layer first. */
module LayeredSets {
  import opened Wrappers
  import opened SortedAttrs

  const MAX_LAYERS := 8

  // `size` is the number of distinct names in the whole chain.
  datatype Bindings<T> = Bindings(attrs: seq<Attr<T>>, size: nat, numLayers: nat, base: Option<Bindings<T>>)

  ghost function Abs<T>(b: Bindings<T>): map<Symbol, T> {
    match b.base
    case None => ToMap(b.attrs)
    case Some(base) => Abs(base) + ToMap(b.attrs)
  }

  ghost predicate ValidSet<T>(b: Bindings<T>) {
    && Sorted(b.attrs) && b.size == |Abs(b)| && 1 <= b.numLayers <= MAX_LAYERS
    && match b.base
       case None => b.numLayers == 1
       case Some(base) => ValidSet(base) && b.numLayers == base.numLayers + 1
  }

  ghost predicate Holds<T>(m: map<Symbol, T>, name: Symbol, r: Option<T>) {
    r == if name in m then Some(m[name]) else None
  }

  /** `std::lower_bound` on a sorted array. */
  method LowerBound<T>(xs: seq<Attr<T>>, name: Symbol) returns (i: nat)
    requires Sorted(xs)
    ensures i <= |xs|
    ensures forall k :: 0 <= k < i ==> xs[k].name < name
    ensures forall k :: i <= k < |xs| ==> name <= xs[k].name
  {
    i := 0;
    var hi := |xs|;
    while i < hi
      invariant 0 <= i <= hi <= |xs|
      invariant forall k :: 0 <= k < i ==> xs[k].name < name
      invariant forall k :: hi <= k < |xs| ==> name <= xs[k].name
    {
      var mid := (i + hi) / 2;
      if xs[mid].name < name { i := mid + 1; } else { hi := mid; }
    }
  }

  lemma {:induction false} GetSome<T>(xs: seq<Attr<T>>, name: Symbol)
    ensures Get(xs, name).Some? ==> exists k :: 0 <= k < |xs| && xs[k].name == name && xs[k].value == Get(xs, name).value
  {
    if xs != [] && xs[0].name != name {
      GetSome(xs[1..], name);
      if Get(xs, name).Some? {
        var k :| 0 <= k < |xs[1..]| && xs[1..][k].name == name && xs[1..][k].value == Get(xs, name).value;
        assert xs[k + 1] == xs[1..][k];
      }
    }
  }

  /** Lookup: binary search in each layer, the newest first. */
  method Lookup<T>(b: Bindings<T>, name: Symbol) returns (r: Option<T>)
    requires ValidSet(b)
    ensures Holds(Abs(b), name, r)
  {
    var chunk := Some(b);
    while chunk.Some?
      invariant chunk.Some? ==> ValidSet(chunk.value)
      invariant name in Abs(b) <==> chunk.Some? && name in Abs(chunk.value)
      invariant name in Abs(b) ==> Abs(b)[name] == Abs(chunk.value)[name]
      decreases chunk
    {
      var xs := chunk.value.attrs;
      var i := LowerBound(xs, name);
      ToMapGet(xs, name);
      if i < |xs| && xs[i].name == name {
        GetAt(xs, i);
        return Some(xs[i].value);
      }
      GetNone(xs, name);
      chunk := chunk.value.base;
    }
    return None;
  }

  // A position inside one layer: `rest` starts at the attribute it points to. Smaller
  // priorities win.
  datatype Cursor<T> = Cursor(rest: seq<Attr<T>>, priority: nat)

  ghost predicate HeapOk<T>(heap: set<Cursor<T>>) {
    && (forall c :: c in heap ==> c.rest != [] && Sorted(c.rest))
    && (forall c, d :: c in heap && d in heap && c.priority == d.priority ==> c == d)
  }

  predicate Before<T>(c: Cursor<T>, d: Cursor<T>)
    requires c.rest != [] && d.rest != []
  {
    c.rest[0].name < d.rest[0].name || (c.rest[0].name == d.rest[0].name && c.priority <= d.priority)
  }

  /** `r` is what the winning cursor has for `name`. */
  ghost predicate Wins<T>(heap: set<Cursor<T>>, name: Symbol, r: Option<T>) {
    match r
    case None => forall c :: c in heap ==> Get(c.rest, name) == None
    case Some(v) =>
      exists c :: c in heap && Get(c.rest, name) == Some(v)
                  && forall d :: d in heap && Get(d.rest, name).Some? ==> c.priority <= d.priority
  }

  /** Above `bound`, the cursors show exactly `m`. */
  ghost predicate Shows<T>(heap: set<Cursor<T>>, bound: int, m: map<Symbol, T>) {
    forall name: nat :: bound < name ==> Wins(heap, name, if name in m then Some(m[name]) else None)
  }

  predicate Least<T(==)>(c: Cursor<T>, heap: set<Cursor<T>>)
    requires c.rest != [] && forall d :: d in heap ==> d.rest != []
  {
    forall d :: d in heap ==> Before(c, d)
  }

  lemma {:induction false} LeastExists<T>(heap: set<Cursor<T>>)
    requires heap != {} && forall d :: d in heap ==> d.rest != []
    ensures exists c :: c in heap && Least(c, heap)
    decreases |heap|
  {
    var c :| c in heap;
    var rest := heap - {c};
    if rest == {} {
      assert heap == {c} && Least(c, heap);
    } else {
      LeastExists(rest);
      var e :| e in rest && Least(e, rest);
      var m := if Before(c, e) then c else e;
      forall d | d in heap ensures Before(m, d) {
        if d != c { assert Before(e, d); }
      }
      assert m in heap && Least(m, heap);
    }
  }

  ghost function LayerCursors<T>(b: Bindings<T>, priority: nat): set<Cursor<T>> {
    (if b.attrs == [] then {} else {Cursor(b.attrs, priority)})
    + (match b.base case None => {} case Some(base) => LayerCursors(base, priority + 1))
  }

  lemma {:induction false} LayersOk<T>(b: Bindings<T>, priority: nat)
    requires ValidSet(b)
    ensures HeapOk(LayerCursors(b, priority))
    ensures forall c :: c in LayerCursors(b, priority) ==> priority <= c.priority
    decreases b
  {
    if b.base.Some? { LayersOk(b.base.value, priority + 1); }
  }

  lemma WinsOver<T>(below: set<Cursor<T>>, c: Cursor<T>, name: Symbol, r: Option<T>)
    requires Wins(below, name, r) && forall d :: d in below ==> c.priority < d.priority
    ensures Wins(below + {c}, name, if Get(c.rest, name).Some? then Get(c.rest, name) else r)
  {
    var all := below + {c};
    if Get(c.rest, name).Some? {
      assert c in all;
    } else if r.Some? {
      var e :| e in below && Get(e.rest, name) == r && forall d :: d in below && Get(d.rest, name).Some? ==> e.priority <= d.priority;
      assert e in all;
    }
  }

  lemma {:induction false} LayersWin<T>(b: Bindings<T>, priority: nat, name: Symbol)
    requires ValidSet(b)
    ensures Wins(LayerCursors(b, priority), name, if name in Abs(b) then Some(Abs(b)[name]) else None)
    decreases b
  {
    ToMapGet(b.attrs, name);
    var below := match b.base case None => {} case Some(base) => LayerCursors(base, priority + 1);
    if b.base.Some? {
      LayersOk(b.base.value, priority + 1);
      LayersWin(b.base.value, priority + 1, name);
    }
    var r := if b.base.Some? && name in Abs(b.base.value) then Some(Abs(b.base.value)[name]) else None;
    assert Wins(below, name, r);
    if b.attrs == [] {
      assert LayerCursors(b, priority) == below;
    } else {
      WinsOver(below, Cursor(b.attrs, priority), name, r);
      assert LayerCursors(b, priority) == below + {Cursor(b.attrs, priority)};
    }
  }

  /** The entries above `name`. */
  function Drop<T>(xs: seq<Attr<T>>, name: Symbol): seq<Attr<T>> {
    if xs != [] && xs[0].name <= name then Drop(xs[1..], name) else xs
  }

  lemma {:induction false} DropKeeps<T>(xs: seq<Attr<T>>, name: Symbol, n: Symbol)
    requires Sorted(xs) && name < n
    ensures Sorted(Drop(xs, name)) && Get(Drop(xs, name), n) == Get(xs, n)
    ensures Drop(xs, name) != [] ==> name < Drop(xs, name)[0].name
  {
    if xs != [] && xs[0].name <= name { DropKeeps(xs[1..], name, n); }
  }

  function Pushed<T(==)>(heap: set<Cursor<T>>, rest: seq<Attr<T>>, priority: nat): set<Cursor<T>> {
    if rest == [] then heap else heap + {Cursor(rest, priority)}
  }

  lemma ReplaceWins<T>(heap: set<Cursor<T>>, c: Cursor<T>, rest: seq<Attr<T>>, name: Symbol, r: Option<T>)
    requires c in heap && Wins(heap, name, r) && Get(rest, name) == Get(c.rest, name)
    ensures Wins(Pushed(heap - {c}, rest, c.priority), name, r)
  {
    var heap' := Pushed(heap - {c}, rest, c.priority);
    if r.Some? {
      var e :| e in heap && Get(e.rest, name) == r && forall d :: d in heap && Get(d.rest, name).Some? ==> e.priority <= d.priority;
      var e' := if e == c then Cursor(rest, c.priority) else e;
      assert e' in heap' && Get(e'.rest, name) == r;
      assert forall d :: d in heap' && Get(d.rest, name).Some? ==> e'.priority <= d.priority;
    }
  }

  /** Advancing one cursor past `bound` changes nothing above it. */
  lemma ReplaceShows<T>(heap: set<Cursor<T>>, c: Cursor<T>, rest: seq<Attr<T>>, from: int, bound: int, m: map<Symbol, T>)
    requires HeapOk(heap) && c in heap && Shows(heap, from, m) && from <= bound
    requires Sorted(rest) && forall n: nat :: bound < n ==> Get(rest, n) == Get(c.rest, n)
    ensures HeapOk(Pushed(heap - {c}, rest, c.priority)) && Shows(Pushed(heap - {c}, rest, c.priority), bound, m)
  {
    forall n: nat | bound < n ensures Wins(Pushed(heap - {c}, rest, c.priority), n, if n in m then Some(m[n]) else None) {
      ReplaceWins(heap, c, rest, n, if n in m then Some(m[n]) else None);
    }
  }

  /** The least cursor points to the least name still to come, with its value. */
  lemma LeastIsNext<T>(heap: set<Cursor<T>>, c: Cursor<T>, bound: int, m: map<Symbol, T>)
    requires HeapOk(heap) && c in heap && Least(c, heap) && Shows(heap, bound, m) && bound < c.rest[0].name
    ensures c.rest[0].name in m && m[c.rest[0].name] == c.rest[0].value
    ensures forall n :: n in m && bound < n ==> c.rest[0].name <= n
  {
    var name := c.rest[0].name;
    var r := if name in m then Some(m[name]) else None;
    assert Wins(heap, name, r);
    assert Get(c.rest, name) == Some(c.rest[0].value);
    var e :| e in heap && Get(e.rest, name) == r && forall d :: d in heap && Get(d.rest, name).Some? ==> e.priority <= d.priority;
    HeadOf(e.rest, name);
    assert Before(c, e);
    forall n | n in m && bound < n ensures name <= n {
      assert Wins(heap, n, Some(m[n]));
      var d :| d in heap && Get(d.rest, n) == Some(m[n]);
      HeadOf(d.rest, n);
      assert Before(c, d);
    }
  }

  lemma {:induction false} HeadOf<T>(xs: seq<Attr<T>>, name: Symbol)
    requires Sorted(xs) && xs != [] && Get(xs, name).Some?
    ensures xs[0].name <= name
  {
    if name < xs[0].name { GetBelow(xs, name); }
  }

  class Iterator<T(==)> {
    var current: Option<Attr<T>>
    var heap: set<Cursor<T>>
    var flat: seq<Attr<T>>
    const doMerge: bool
    ghost const m: map<Symbol, T>

    /** `current` is an entry of `m`, and what is above it is still to come. */
    ghost predicate Valid()
      reads this
    {
      && (current.Some? ==> current.value.name in m && m[current.value.name] == current.value.value)
      && if doMerge then HeapOk(heap) && (current.Some? ==> Shows(heap, current.value.name, m))
         else
           && Sorted(flat) && current == (if flat == [] then None else Some(flat[0]))
           && (current.Some? ==> FlatShows(flat, current.value.name, m))
    }

    /** Nothing lies between `last` and `current`. */
    ghost predicate Follows(last: int)
      reads this
    {
      NextIn(m, last, current)
    }

    constructor (b: Bindings<T>)
      requires ValidSet(b)
      ensures Valid() && m == Abs(b) && Follows(-1)
    {
      doMerge := b.base.Some?;
      m := Abs(b);
      flat := b.attrs;
      heap := {};
      current := if b.base.Some? || b.attrs == [] then None else Some(b.attrs[0]);
      new;
      Start(b);
    }

    /** Without a base there is nothing to merge: the array of the only layer is walked. */
    method Start(b: Bindings<T>)
      requires ValidSet(b) && m == Abs(b) && doMerge == b.base.Some? && heap == {} && flat == b.attrs
      requires current == if doMerge || flat == [] then None else Some(flat[0])
      modifies this
      ensures Valid() && Follows(-1)
    {
      if doMerge {
        Collect(b);
        First();
      } else {
        FlatFirst(flat, m);
      }
    }

    method First()
      requires doMerge && current.None? && HeapOk(heap) && Shows(heap, -1, m)
      modifies this
      ensures Valid() && Follows(-1)
    {
      if heap == {} {
        NothingLeft(heap, -1, m);
        return;
      }
      ghost var whole := heap;
      var c := PopLeast();
      assert heap + {c} == whole;
      Next(c, -1);
    }

    method Collect(b: Bindings<T>)
      requires ValidSet(b) && m == Abs(b) && heap == {}
      modifies this`heap
      ensures HeapOk(heap) && Shows(heap, -1, m)
    {
      var layer, priority := Some(b), 0;
      while layer.Some?
        invariant layer.Some? ==> ValidSet(layer.value)
        invariant LayerCursors(b, 0) == heap + if layer.Some? then LayerCursors(layer.value, priority) else {}
        decreases layer
      {
        heap := Pushed(heap, layer.value.attrs, priority);
        layer, priority := layer.value.base, priority + 1;
      }
      assert heap == LayerCursors(b, 0);
      LayersOk(b, 0);
      forall n: nat ensures Wins(heap, n, if n in m then Some(m[n]) else None) { LayersWin(b, 0, n); }
    }

    method PopLeast() returns (c: Cursor<T>)
      requires HeapOk(heap) && heap != {}
      modifies this`heap
      ensures c in old(heap) && Least(c, old(heap)) && heap == old(heap) - {c}
    {
      LeastExists(heap);
      c :| c in heap && Least(c, heap);
      heap := heap - {c};
    }

    method Next(c: Cursor<T>, ghost bound: int)
      requires doMerge && c !in heap && HeapOk(heap + {c}) && Shows(heap + {c}, bound, m)
      requires Least(c, heap + {c}) && bound < c.rest[0].name
      modifies this
      ensures Valid() && current.Some? && Follows(bound)
    {
      LeastIsNext(heap + {c}, c, bound, m);
      current := Some(c.rest[0]);
      ReplaceShows(heap + {c}, c, c.rest[1..], bound, c.rest[0].name, m);
      assert heap + {c} - {c} == heap;
      heap := Pushed(heap, c.rest[1..], c.priority);
    }

    /** `operator++` */
    method MoveNext()
      requires Valid() && current.Some?
      modifies this
      ensures Valid() && Follows(old(current.value.name))
    {
      var last := current.value.name;
      if !doMerge {
        FlatNext(flat, m);
        flat := flat[1..];
        current := if flat == [] then None else Some(flat[0]);
        return;
      }
      if heap == {} {
        NothingLeft(heap, last, m);
        current := None;
        return;
      }
      ghost var whole := heap;
      var c := PopLeast();
      assert heap + {c} == whole;
      while c.rest[0].name <= last
        invariant c !in heap && HeapOk(heap + {c}) && Shows(heap + {c}, last, m) && Least(c, heap + {c})
        decreases Stale(heap + {c}, last)
      {
        ghost var all := heap + {c};
        var rest := Drop(c.rest, last);
        DropSorted(c.rest, last);
        forall n: nat | last < n ensures Get(rest, n) == Get(c.rest, n) { DropKeeps(c.rest, last, n); }
        ReplaceShows(all, c, rest, last, last, m);
        assert all - {c} == heap;
        heap := Pushed(heap, rest, c.priority);
        ghost var after := heap;
        assert c in Stale(all, last) && Stale(after, last) == Stale(all, last) - {c};
        if heap == {} {
          NothingLeft(heap, last, m);
          current := None;
          return;
        }
        c := PopLeast();
        assert heap + {c} == after;
      }
      Next(c, last);
    }
  }

  /** `m` restricted to the names from `from` on is the array `xs`. */
  ghost predicate FlatShows<T>(xs: seq<Attr<T>>, from: nat, m: map<Symbol, T>) {
    forall n: nat :: from <= n ==> Holds(m, n, Get(xs, n))
  }

  lemma FlatFirst<T>(xs: seq<Attr<T>>, m: map<Symbol, T>)
    requires Sorted(xs) && m == ToMap(xs)
    ensures FlatShows(xs, 0, m)
    ensures xs == [] ==> m == map[]
    ensures xs != [] ==> xs[0].name in m && m[xs[0].name] == xs[0].value && forall n :: n in m ==> xs[0].name <= n
  {
    forall n: nat ensures Holds(m, n, Get(xs, n)) { ToMapGet(xs, n); }
    if xs != [] {
      assert Holds(m, xs[0].name, Get(xs, xs[0].name));
      forall n | n in m ensures xs[0].name <= n { assert Holds(m, n, Get(xs, n)); HeadOf(xs, n); }
    }
  }

  lemma FlatNext<T>(xs: seq<Attr<T>>, m: map<Symbol, T>)
    requires Sorted(xs) && xs != [] && FlatShows(xs, xs[0].name, m)
    ensures |xs| == 1 ==> forall n :: n in m ==> n <= xs[0].name
    ensures |xs| > 1 ==>
      && xs[0].name < xs[1].name && FlatShows(xs[1..], xs[1].name, m)
      && xs[1].name in m && m[xs[1].name] == xs[1].value
      && forall n :: n in m && xs[0].name < n ==> xs[1].name <= n
  {
    var tail := xs[1..];
    forall n: nat | xs[0].name < n ensures Holds(m, n, Get(tail, n)) {
      assert Holds(m, n, Get(xs, n));
    }
    forall n | n in m && xs[0].name < n ensures tail != [] && xs[1].name <= n {
      assert Holds(m, n, Get(tail, n));
      HeadOf(tail, n);
    }
    if |xs| > 1 {
      assert Holds(m, xs[1].name, Get(tail, xs[1].name));
    }
  }

  lemma NothingLeft<T>(heap: set<Cursor<T>>, bound: int, m: map<Symbol, T>)
    requires heap == {} && Shows(heap, bound, m)
    ensures forall n :: n in m ==> n <= bound
  {}

  lemma {:induction false} DropSorted<T>(xs: seq<Attr<T>>, name: Symbol)
    requires Sorted(xs)
    ensures Sorted(Drop(xs, name))
    ensures Drop(xs, name) != [] ==> name < Drop(xs, name)[0].name
  {
    DropKeeps(xs, name, name + 1);
  }

  ghost function Stale<T>(heap: set<Cursor<T>>, last: Symbol): set<Cursor<T>> {
    set c | c in heap && c.rest != [] && c.rest[0].name <= last
  }

  /** The size of a chain, from its parts: names of the new layer that the base has are
      counted once. */
  lemma ChainSize<T>(base: Bindings<T>, attrs: seq<Attr<T>>)
    requires ValidSet(base) && Sorted(attrs)
    ensures |Abs(base) + ToMap(attrs)| + |Abs(base).Keys * ToMap(attrs).Keys| == base.size + |attrs|
  {
    var a, b := Abs(base).Keys, ToMap(attrs).Keys;
    assert (Abs(base) + ToMap(attrs)).Keys == a + b;
    assert |a + b| + |a * b| == |a| + |b|;
    MapSize(attrs);
  }

  lemma {:induction false} MapSize<T>(xs: seq<Attr<T>>)
    requires Sorted(xs)
    ensures |ToMap(xs)| == |xs|
  {
    if xs != [] {
      MapSize(xs[1..]);
      GetBelow(xs[1..], xs[0].name);
      ToMapGet(xs[1..], xs[0].name);
    }
  }

  ghost predicate Passed<T>(current: Option<Attr<T>>, name: Symbol) {
    current.None? || name < current.value.name
  }

  ghost predicate NextIn<T>(m: map<Symbol, T>, last: int, current: Option<Attr<T>>) {
    && (current.Some? ==> last < current.value.name)
    && (forall n :: n in m && last < n ==> current.Some? && current.value.name <= n)
  }

  ghost function Above<T>(m: map<Symbol, T>, current: Option<Attr<T>>): set<Symbol> {
    set n | n in m && current.Some? && current.value.name <= n
  }

  /** `xs` holds, in order, everything `m` has below `current`. */
  ghost predicate Emitted<T>(m: map<Symbol, T>, xs: seq<Attr<T>>, current: Option<Attr<T>>) {
    && Sorted(xs)
    && (forall k :: 0 <= k < |xs| ==> Passed(current, xs[k].name))
    && (forall n: nat :: Passed(current, n) ==> Holds(m, n, Get(xs, n)))
  }

  lemma {:induction false} GetSnoc<T>(xs: seq<Attr<T>>, a: Attr<T>, n: Symbol)
    ensures Get(xs + [a], n) == if Get(xs, n).Some? then Get(xs, n) else if a.name == n then Some(a.value) else None
  {
    if xs != [] {
      assert (xs + [a])[1..] == xs[1..] + [a];
      GetSnoc(xs[1..], a, n);
    }
  }

  lemma Emit<T>(m: map<Symbol, T>, xs: seq<Attr<T>>, a: Attr<T>, next: Option<Attr<T>>)
    requires Emitted(m, xs, Some(a)) && a.name in m && m[a.name] == a.value && NextIn(m, a.name, next)
    ensures Emitted(m, xs + [a], next) && Above(m, next) < Above(m, Some(a))
  {
    forall n: nat | Passed(next, n) ensures Holds(m, n, Get(xs + [a], n)) {
      GetSnoc(xs, a, n);
      GetNone(xs, a.name);
      if n < a.name {
        assert Holds(m, n, Get(xs, n));
      } else if n > a.name {
        GetNone(xs, n);
      }
    }
    assert a.name in Above(m, Some(a)) && a.name !in Above(m, next);
  }

  lemma EmittedAll<T>(m: map<Symbol, T>, xs: seq<Attr<T>>)
    requires Emitted(m, xs, None)
    ensures Sorted(xs) && ToMap(xs) == m
  {
    forall n: nat ensures n in ToMap(xs) <==> n in m
                  ensures n in m ==> ToMap(xs)[n] == m[n] {
      ToMapGet(xs, n);
      assert Passed<T>(None, n);
    }
  }

  /** The attributes in the iterator's order: sorted, each name once with its newest value. */
  method Elements<T(==)>(b: Bindings<T>) returns (xs: seq<Attr<T>>)
    requires ValidSet(b)
    ensures Sorted(xs) && ToMap(xs) == Abs(b)
  {
    xs := [];
    var i := new Iterator(b);
    ghost var m := Abs(b);
    while i.current.Some?
      invariant i.Valid() && i.m == m && fresh(i)
      invariant Emitted(m, xs, i.current)
      decreases Above(m, i.current)
    {
      var a := i.current.value;
      i.MoveNext();
      Emit(m, xs, a, i.current);
      xs := xs + [a];
    }
    EmittedAll(m, xs);
  }

  ghost function Common<T>(xs: seq<Attr<T>>, ys: seq<Attr<T>>): set<Symbol> {
    ToMap(xs).Keys * ToMap(ys).Keys
  }

  lemma CommonEqual<T>(xs: seq<Attr<T>>, ys: seq<Attr<T>>)
    requires Sorted(xs) && Sorted(ys) && xs != [] && ys != [] && xs[0].name == ys[0].name
    ensures |Common(xs, ys)| == 1 + |Common(xs[1..], ys[1..])|
  {
    var x := xs[0].name;
    GetBelow(xs[1..], x);
    ToMapGet(xs[1..], x);
    assert x !in Common(xs[1..], ys[1..]);
    assert Common(xs, ys) == {x} + Common(xs[1..], ys[1..]);
  }

  lemma CommonLess<T>(xs: seq<Attr<T>>, ys: seq<Attr<T>>)
    requires Sorted(ys) && xs != [] && ys != [] && xs[0].name < ys[0].name
    ensures Common(xs, ys) == Common(xs[1..], ys) && Common(ys, xs) == Common(ys, xs[1..])
  {
    var x := xs[0].name;
    GetBelow(ys, x);
    ToMapGet(ys, x);
    assert ToMap(xs).Keys == ToMap(xs[1..]).Keys + {x};
  }

  /** Duplicates counted by walking the base and the new layer together. */
  method CountByWalk<T(==)>(base: Bindings<T>, attrs: seq<Attr<T>>) returns (duplicates: nat)
    requires ValidSet(base) && Sorted(attrs)
    ensures duplicates == |Abs(base).Keys * ToMap(attrs).Keys|
  {
    var xs := Elements(base);
    duplicates := 0;
    var i, j := 0, 0;
    while i < |xs| && j < |attrs|
      invariant 0 <= i <= |xs| && 0 <= j <= |attrs|
      invariant duplicates + |Common(xs[i..], attrs[j..])| == |Common(xs, attrs)|
      decreases |xs| - i + |attrs| - j
    {
      assert xs[i..][1..] == xs[i + 1..] && attrs[j..][1..] == attrs[j + 1..];
      if xs[i].name == attrs[j].name {
        CommonEqual(xs[i..], attrs[j..]);
        duplicates := duplicates + 1;
        i, j := i + 1, j + 1;
      } else if xs[i].name < attrs[j].name {
        CommonLess(xs[i..], attrs[j..]);
        i := i + 1;
      } else {
        CommonLess(attrs[j..], xs[i..]);
        j := j + 1;
      }
    }
    assert Common(xs[i..], attrs[j..]) == {};
  }

  /** Duplicates counted by looking every new name up in the base. */
  method CountByLookup<T(==)>(base: Bindings<T>, attrs: seq<Attr<T>>) returns (duplicates: nat)
    requires ValidSet(base) && Sorted(attrs)
    ensures duplicates == |Abs(base).Keys * ToMap(attrs).Keys|
  {
    duplicates := 0;
    var j := 0;
    while j < |attrs|
      invariant 0 <= j <= |attrs|
      invariant duplicates + |Abs(base).Keys * ToMap(attrs[j..]).Keys| == |Abs(base).Keys * ToMap(attrs).Keys|
    {
      var r := Lookup(base, attrs[j].name);
      assert attrs[j..][1..] == attrs[j + 1..];
      GetBelow(attrs[j + 1..], attrs[j].name);
      ToMapGet(attrs[j + 1..], attrs[j].name);
      if r.Some? {
        assert Abs(base).Keys * ToMap(attrs[j..]).Keys == Abs(base).Keys * ToMap(attrs[j + 1..]).Keys + {attrs[j].name};
        duplicates := duplicates + 1;
      } else {
        assert Abs(base).Keys * ToMap(attrs[j..]).Keys == Abs(base).Keys * ToMap(attrs[j + 1..]).Keys;
      }
      j := j + 1;
    }
  }

  function Single<T>(attrs: seq<Attr<T>>): Bindings<T> {
    Bindings(attrs, |attrs|, 1, None)
  }

  lemma SingleOk<T>(attrs: seq<Attr<T>>)
    requires Sorted(attrs)
    ensures ValidSet(Single(attrs)) && Abs(Single(attrs)) == ToMap(attrs)
  {
    MapSize(attrs);
  }

  lemma AbsOfMerge<T>(xs: seq<Attr<T>>, ys: seq<Attr<T>>)
    requires Sorted(xs) && Sorted(ys)
    ensures Sorted(Merge(xs, ys)) && ToMap(Merge(xs, ys)) == ToMap(xs) + ToMap(ys)
  {
    MergeSorted(xs, ys);
    forall n: nat ensures n in ToMap(Merge(xs, ys)) <==> n in ToMap(xs) + ToMap(ys)
                  ensures n in ToMap(Merge(xs, ys)) ==> ToMap(Merge(xs, ys))[n] == (ToMap(xs) + ToMap(ys))[n] {
      MergeGet(xs, ys, n);
      ToMapGet(Merge(xs, ys), n);
      ToMapGet(xs, n);
      ToMapGet(ys, n);
    }
  }

  /** `out` has been merged, the rest of both arrays has not. */
  ghost predicate Merging<T>(xs: seq<Attr<T>>, ys: seq<Attr<T>>, i: nat, j: nat, out: seq<Attr<T>>) {
    i <= |xs| && j <= |ys| && out + Merge(xs[i..], ys[j..]) == Merge(xs, ys)
  }

  lemma MergeStep<T>(xs: seq<Attr<T>>, ys: seq<Attr<T>>, i: nat, j: nat, out: seq<Attr<T>>)
    requires Merging(xs, ys, i, j, out) && i < |xs| && j < |ys|
    ensures
      if xs[i].name == ys[j].name then Merging(xs, ys, i + 1, j + 1, out + [ys[j]])
      else if xs[i].name < ys[j].name then Merging(xs, ys, i + 1, j, out + [xs[i]])
      else Merging(xs, ys, i, j + 1, out + [ys[j]])
  {
    assert xs[i..][1..] == xs[i + 1..] && ys[j..][1..] == ys[j + 1..];
    var taken := if xs[i].name < ys[j].name then xs[i] else ys[j];
    var rest := if xs[i].name == ys[j].name then Merge(xs[i + 1..], ys[j + 1..])
                else if xs[i].name < ys[j].name then Merge(xs[i + 1..], ys[j..]) else Merge(xs[i..], ys[j + 1..]);
    Associates(out, [taken], rest);
  }

  lemma MergeEnds<T>(xs: seq<Attr<T>>, ys: seq<Attr<T>>, i: nat, j: nat, out: seq<Attr<T>>)
    requires Merging(xs, ys, i, j, out) && (i == |xs| || j == |ys|)
    ensures (out + xs[i..]) + ys[j..] == Merge(xs, ys)
  {
    Associates(out, xs[i..], ys[j..]);
    assert Merge(xs[i..], ys[j..]) == xs[i..] + ys[j..];
  }

  method MergeArrays<T(==)>(xs: seq<Attr<T>>, ys: seq<Attr<T>>) returns (out: seq<Attr<T>>)
    ensures out == Merge(xs, ys)
  {
    out := [];
    var i, j := 0, 0;
    assert xs[0..] == xs && ys[0..] == ys;
    while i < |xs| && j < |ys|
      invariant Merging(xs, ys, i, j, out)
      decreases |xs| - i + |ys| - j
    {
      MergeStep(xs, ys, i, j, out);
      if xs[i].name == ys[j].name {
        out := out + [ys[j]];
        i, j := i + 1, j + 1;
      } else if xs[i].name < ys[j].name {
        out := out + [xs[i]];
        i := i + 1;
      } else {
        out := out + [ys[j]];
        j := j + 1;
      }
    }
    MergeEnds(xs, ys, i, j, out);
    out := CopyRest(xs, i, out);
    out := CopyRest(ys, j, out);
  }

  method CopyRest<T>(xs: seq<Attr<T>>, from: nat, start: seq<Attr<T>>) returns (out: seq<Attr<T>>)
    requires from <= |xs|
    ensures out == start + xs[from..]
  {
    out := start;
    var i := from;
    while i < |xs|
      invariant from <= i <= |xs| && out == start + xs[from..i]
    {
      assert xs[from..i + 1] == xs[from..i] + [xs[i]];
      out := out + [xs[i]];
      i := i + 1;
    }
  }

  /** `ExprOpUpdate::eval` on two sets: whichever way is chosen, the right operand wins. */
  method Update<T(==)>(b1: Bindings<T>, b2: Bindings<T>, threshold: nat) returns (r: Bindings<T>)
    requires ValidSet(b1) && ValidSet(b2)
    ensures ValidSet(r) && Abs(r) == Abs(b1) + Abs(b2)
  {
    if b1.size == 0 {
      SizeZero(b1);
      return b2;
    }
    if b2.size == 0 {
      SizeZero(b2);
      return b1;
    }
    r := UpdateBoth(b1, b2, threshold);
  }

  lemma SizeZero<T>(b: Bindings<T>)
    requires ValidSet(b) && b.size == 0
    ensures Abs(b) == map[]
  {}

  method UpdateBoth<T(==)>(b1: Bindings<T>, b2: Bindings<T>, threshold: nat) returns (r: Bindings<T>)
    requires ValidSet(b1) && ValidSet(b2) && b1.size > 0 && b2.size > 0
    ensures ValidSet(r) && Abs(r) == Abs(b1) + Abs(b2)
  {
    var ys := Elements(b2);
    if b1.numLayers != MAX_LAYERS && b2.size <= threshold {
      r := LayerOnTopOf(b1, ys);
    } else {
      r := Flatten(b1, ys);
    }
  }

  /** `layerOnTopOf` and `finish`: the new layer counts the names it shares with the base. */
  method LayerOnTopOf<T(==)>(base: Bindings<T>, attrs: seq<Attr<T>>) returns (r: Bindings<T>)
    requires ValidSet(base) && Sorted(attrs) && attrs != [] && base.numLayers != MAX_LAYERS
    ensures ValidSet(r) && Abs(r) == Abs(base) + ToMap(attrs)
  {
    var duplicates;
    if |attrs| > base.size {
      duplicates := CountByWalk(base, attrs);
    } else {
      duplicates := CountByLookup(base, attrs);
    }
    ChainSize(base, attrs);
    return Bindings(attrs, base.size + |attrs| - duplicates, base.numLayers + 1, Some(base));
  }

  method Flatten<T(==)>(b1: Bindings<T>, ys: seq<Attr<T>>) returns (r: Bindings<T>)
    requires ValidSet(b1) && Sorted(ys)
    ensures ValidSet(r) && Abs(r) == Abs(b1) + ToMap(ys)
  {
    var xs := Elements(b1);
    var merged := MergeArrays(xs, ys);
    AbsOfMerge(xs, ys);
    SingleOk(merged);
    return Single(merged);
  }

  // An expression built from `//`; a leaf is the set its operand evaluates to.
  datatype Operands<T> = Leaf(b: Bindings<T>) | Node(left: Operands<T>, right: Operands<T>)

  ghost predicate ValidOperands<T>(t: Operands<T>) {
    match t
    case Leaf(b) => ValidSet(b)
    case Node(l, r) => ValidOperands(l) && ValidOperands(r)
  }

  ghost function Leaves<T>(t: Operands<T>): seq<Bindings<T>> {
    match t
    case Leaf(b) => [b]
    case Node(l, r) => Leaves(l) + Leaves(r)
  }

  ghost function Overlay<T>(bs: seq<Bindings<T>>): map<Symbol, T> {
    if bs == [] then map[] else Overlay(bs[..|bs| - 1]) + Abs(bs[|bs| - 1])
  }

  function Backwards<T>(xs: seq<T>): seq<T> {
    if xs == [] then [] else [xs[|xs| - 1]] + Backwards(xs[..|xs| - 1])
  }

  /** The queue gets the operands rightmost first. */
  method EvalForUpdate<T(==)>(t: Operands<T>, q: seq<Bindings<T>>) returns (q': seq<Bindings<T>>)
    requires ValidOperands(t)
    ensures q' == q + Backwards(Leaves(t))
  {
    match t
    case Leaf(b) =>
      q' := q + [b];
      assert [b][..0] == [];
      assert Backwards([b][..0]) == [];
    case Node(l, r) =>
      q' := EvalForUpdate(r, q);
      q' := EvalForUpdate(l, q');
      BackwardsConcat(Leaves(l), Leaves(r));
      Associates(q, Backwards(Leaves(r)), Backwards(Leaves(l)));
  }

  lemma LeavesValid<T>(t: Operands<T>)
    requires ValidOperands(t)
    ensures forall k :: 0 <= k < |Leaves(t)| ==> ValidSet(Leaves(t)[k])
  {
    if t.Node? {
      LeavesValid(t.left);
      LeavesValid(t.right);
    }
  }

  lemma {:induction false} BackwardsConcat<T>(xs: seq<T>, ys: seq<T>)
    ensures Backwards(xs + ys) == Backwards(ys) + Backwards(xs)
  {
    if ys == [] {
      assert xs + ys == xs;
    } else {
      assert (xs + ys)[..|xs + ys| - 1] == xs + ys[..|ys| - 1];
      BackwardsConcat(xs, ys[..|ys| - 1]);
    }
  }

  lemma {:induction false} BackwardsAt<T>(xs: seq<T>, k: nat)
    requires k < |xs|
    ensures |Backwards(xs)| == |xs| && Backwards(xs)[k] == xs[|xs| - 1 - k]
    decreases |xs|
  {
    if |xs| > 1 { BackwardsAt(xs[..|xs| - 1], if k == 0 then 0 else k - 1); }
    else { assert xs[..0] == []; assert Backwards(xs[..0]) == []; }
  }

  lemma OverlaySnoc<T>(bs: seq<Bindings<T>>, k: nat)
    requires k < |bs|
    ensures Overlay(bs[..k + 1]) == Overlay(bs[..k]) + Abs(bs[k])
  {
    assert bs[..k + 1][..k] == bs[..k];
  }

  /** A whole tree of `//`: flatten into the queue, then fold it in reverse. */
  method EvalUpdate<T(==)>(t: Operands<T>, threshold: nat) returns (v: Bindings<T>)
    requires ValidOperands(t)
    ensures ValidSet(v) && Abs(v) == Overlay(Leaves(t))
  {
    var q := EvalForUpdate(t, []);
    assert q == Backwards(Leaves(t));
    LeavesValid(t);
    v := FoldQueue(q, Leaves(t), threshold);
  }

  /** Reads the queue in reverse. */
  method FoldQueue<T(==)>(q: seq<Bindings<T>>, ghost leaves: seq<Bindings<T>>, threshold: nat) returns (v: Bindings<T>)
    requires q == Backwards(leaves) && forall k :: 0 <= k < |leaves| ==> ValidSet(leaves[k])
    ensures ValidSet(v) && Abs(v) == Overlay(leaves)
  {
    EmptyOk<T>();
    v := Single([]);
    var n := 0;
    assert leaves[..0] == [];
    BackwardsSize(leaves);
    while n < |q|
      invariant 0 <= n <= |q|
      invariant ValidSet(v) && Abs(v) == Overlay(leaves[..n])
    {
      OverlaySnoc(leaves, n);
      BackwardsAt(leaves, |q| - 1 - n);
      v := Update(v, q[|q| - 1 - n], threshold);
      n := n + 1;
    }
    assert leaves[..|leaves|] == leaves;
  }

  lemma {:induction false} BackwardsSize<T>(xs: seq<T>)
    ensures |Backwards(xs)| == |xs|
  {
    if xs != [] { BackwardsSize(xs[..|xs| - 1]); }
  }

  lemma EmptyOk<T>()
    ensures ValidSet(Single<T>([])) && Abs(Single<T>([])) == Overlay<T>([])
  {
    SingleOk<T>([]);
  }

  /** In a tree of `//` a name has the value of the rightmost operand that defines it. */
  lemma {:induction false} RightmostWins<T>(bs: seq<Bindings<T>>, name: Symbol)
    ensures name in Overlay(bs) <==> exists k: nat :: DefinedAt(bs, name, k)
    ensures name in Overlay(bs) ==> exists k: nat :: RightmostAt(bs, name, k) && Overlay(bs)[name] == Abs(bs[k])[name]
  {
    if bs != [] {
      var last := |bs| - 1;
      RightmostWins(bs[..last], name);
      if name in Abs(bs[last]) {
        assert RightmostAt(bs, name, last);
      } else {
        RightmostBelow(bs, name);
        if name in Overlay(bs[..last]) {
          var k: nat :| RightmostAt(bs[..last], name, k) && Overlay(bs[..last])[name] == Abs(bs[..last][k])[name];
          assert RightmostAt(bs, name, k) && bs[..last][k] == bs[k];
        }
      }
    }
  }

  ghost predicate DefinedAt<T>(bs: seq<Bindings<T>>, name: Symbol, k: nat) {
    k < |bs| && name in Abs(bs[k])
  }

  ghost predicate RightmostAt<T>(bs: seq<Bindings<T>>, name: Symbol, k: nat) {
    DefinedAt(bs, name, k) && forall j: nat :: k < j < |bs| ==> !DefinedAt(bs, name, j)
  }

  lemma RightmostBelow<T>(bs: seq<Bindings<T>>, name: Symbol)
    requires bs != [] && name !in Abs(bs[|bs| - 1])
    ensures forall k: nat :: DefinedAt(bs, name, k) <==> DefinedAt(bs[..|bs| - 1], name, k)
  {
    forall k: nat ensures DefinedAt(bs, name, k) <==> DefinedAt(bs[..|bs| - 1], name, k) {
      if k < |bs| - 1 { assert bs[..|bs| - 1][k] == bs[k]; }
    }
  }
}

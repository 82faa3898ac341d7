/** `builtins.genericClosure`: a worklist that keeps the first element of each key. */
module Closure {
  import opened Wrappers
  import opened Ordering

  // An element without a key, a key that cannot be compared with one accepted before, or an
  // operator that fails.
  datatype ClosureError = NoKey | IncomparableKey | OperatorFailed

  // `key` reads the key of an element; `op` is the operator.
  datatype Problem<!E> = Problem(start: seq<E>, key: E -> Option<Value>, op: E -> Option<seq<E>>)

  predicate SameKey<E>(p: Problem<E>, a: E, b: E) {
    p.key(a).Some? && p.key(b).Some? && Alike(p.key(a).value, p.key(b).value)
  }

  predicate HasKeyIn<E>(p: Problem<E>, a: E, xs: seq<E>) {
    exists i :: 0 <= i < |xs| && SameKey(p, a, xs[i])
  }

  predicate Clash<E>(p: Problem<E>, a: E, b: E) {
    p.key(a).Some? && p.key(b).Some? && Less(p.key(a).value, p.key(b).value).Err?
  }

  predicate ClashesWith<E>(p: Problem<E>, a: E, xs: seq<E>) {
    exists i :: 0 <= i < |xs| && Clash(p, a, xs[i])
  }

  /** The first arrival of every key, in order of arrival. */
  function FirstArrivals<E>(p: Problem<E>, xs: seq<E>): seq<E> {
    if xs == [] then []
    else
      var last, before := xs[|xs| - 1], FirstArrivals(p, xs[..|xs| - 1]);
      if HasKeyIn(p, last, before) then before else before + [last]
  }

  function Outputs<E>(p: Problem<E>, xs: seq<E>): seq<E> {
    if xs == [] then []
    else
      var last := xs[|xs| - 1];
      Outputs(p, xs[..|xs| - 1]) + if p.op(last).Some? then p.op(last).value else []
  }

  /** Everything that arrives when the elements of `res` have been expanded. */
  function Arrivals<E>(p: Problem<E>, res: seq<E>): seq<E> {
    p.start + Outputs(p, res)
  }

  /** Every result element was a start element or came out of an earlier result element. */
  ghost predicate Grounded<E>(p: Problem<E>, res: seq<E>) {
    forall n :: 0 <= n < |res| ==> ArrivesAt(p, res, n)
  }

  ghost predicate ArrivesAt<E>(p: Problem<E>, res: seq<E>, n: nat)
    requires n < |res|
  {
    res[n] in Arrivals(p, res[..n])
  }

  /** Every element has a key and an expansion, and none clashes with one before it. */
  ghost predicate AllOk<E>(p: Problem<E>, res: seq<E>) {
    forall n :: 0 <= n < |res| ==> OkAt(p, res, n)
  }

  ghost predicate OkAt<E>(p: Problem<E>, res: seq<E>, n: nat)
    requires n < |res|
  {
    p.key(res[n]).Some? && p.op(res[n]).Some? && !ClashesWith(p, res[n], res[..n])
  }

  /** No two elements have the same key. */
  ghost predicate OnePerKey<E>(p: Problem<E>, xs: seq<E>) {
    forall n :: 0 <= n < |xs| ==> NewAt(p, xs, n)
  }

  ghost predicate NewAt<E>(p: Problem<E>, xs: seq<E>, n: nat)
    requires n < |xs|
  {
    !HasKeyIn(p, xs[n], xs[..n])
  }

  lemma FirstSnoc<E>(p: Problem<E>, xs: seq<E>, e: E)
    ensures FirstArrivals(p, xs + [e])
         == if HasKeyIn(p, e, FirstArrivals(p, xs)) then FirstArrivals(p, xs) else FirstArrivals(p, xs) + [e]
  {
    assert (xs + [e])[..|xs|] == xs;
  }

  lemma OutputsSnoc<E>(p: Problem<E>, xs: seq<E>, e: E)
    ensures Outputs(p, xs + [e]) == Outputs(p, xs) + if p.op(e).Some? then p.op(e).value else []
  {
    assert (xs + [e])[..|xs|] == xs;
  }

  lemma {:induction false} FirstArrivalsIn<E>(p: Problem<E>, xs: seq<E>)
    ensures forall e :: e in FirstArrivals(p, xs) ==> e in xs
  {
    if xs != [] { FirstArrivalsIn(p, xs[..|xs| - 1]); }
  }

  lemma {:induction false} FirstArrivalsDiffer<E>(p: Problem<E>, xs: seq<E>)
    ensures OnePerKey(p, FirstArrivals(p, xs))
  {
    if xs != [] {
      var last, before := xs[|xs| - 1], FirstArrivals(p, xs[..|xs| - 1]);
      FirstArrivalsDiffer(p, xs[..|xs| - 1]);
      if !HasKeyIn(p, last, before) {
        forall n | 0 <= n <= |before| ensures NewAt(p, before + [last], n) {
          if n < |before| {
            assert NewAt(p, before, n) && (before + [last])[..n] == before[..n];
          } else {
            assert (before + [last])[..n] == before;
          }
        }
      }
    }
  }

  lemma HasKeyInMore<E>(p: Problem<E>, e: E, xs: seq<E>, ys: seq<E>)
    requires HasKeyIn(p, e, xs) && xs <= ys
    ensures HasKeyIn(p, e, ys)
  {
    var i :| 0 <= i < |xs| && SameKey(p, e, xs[i]);
    assert ys[i] == xs[i];
  }

  /** Every arrival is kept, or has the key of one that is. */
  lemma {:induction false} FirstArrivalsCover<E>(p: Problem<E>, xs: seq<E>, e: E)
    requires e in xs
    ensures e in FirstArrivals(p, xs) || HasKeyIn(p, e, FirstArrivals(p, xs))
  {
    var init, last := xs[..|xs| - 1], xs[|xs| - 1];
    if e != last {
      FirstArrivalsCover(p, init, e);
      if HasKeyIn(p, e, FirstArrivals(p, init)) { HasKeyInMore(p, e, FirstArrivals(p, init), FirstArrivals(p, xs)); }
    }
  }

  lemma {:induction false} FirstArrivalsPrefix<E>(p: Problem<E>, xs: seq<E>, ys: seq<E>)
    ensures FirstArrivals(p, xs) <= FirstArrivals(p, xs + ys)
  {
    if ys == [] {
      assert xs + ys == xs;
    } else {
      var init := ys[..|ys| - 1];
      FirstArrivalsPrefix(p, xs, init);
      assert (xs + ys)[..|xs + ys| - 1] == xs + init;
    }
  }

  lemma PrefixOfPrefix<E>(p: Problem<E>, xs: seq<E>, ys: seq<E>)
    requires xs <= ys
    ensures FirstArrivals(p, xs) <= FirstArrivals(p, ys)
  {
    assert ys == xs + ys[|xs|..];
    FirstArrivalsPrefix(p, xs, ys[|xs|..]);
  }

  /** An accepted element occurs once: it is comparable with itself, so a second occurrence
      would have its key. */
  lemma OccursOnce<E>(p: Problem<E>, res: seq<E>, m: nat, n: nat)
    requires AllOk(p, res) && OnePerKey(p, res) && m < n < |res|
    ensures p.key(res[m]) != p.key(res[n])
  {
    assert OkAt(p, res, n) && NewAt(p, res, n) && OkAt(p, res, m) && res[..n][m] == res[m];
    assert !Clash(p, res[n], res[..n][m]) && !SameKey(p, res[n], res[..n][m]);
    if p.key(res[m]) == p.key(res[n]) { SelfAlike(p.key(res[n]).value); }
  }

  // ---- the keys seen so far ----

  ghost predicate Ascends(keys: seq<Value>) {
    forall i, j :: 0 <= i < j < |keys| ==> Below(keys[i], keys[j])
  }

  /** All keys below position `at` are below `k`, and those from there on are above it. */
  ghost predicate FitsAt(keys: seq<Value>, k: Value, at: nat) {
    && at <= |keys|
    && (forall i :: 0 <= i < at ==> Below(keys[i], k))
    && (forall i :: at <= i < |keys| ==> Below(k, keys[i]))
  }

  ghost predicate SomeAlike(keys: seq<Value>, k: Value) {
    exists i :: 0 <= i < |keys| && Alike(k, keys[i])
  }

  ghost predicate SomeClash(keys: seq<Value>, k: Value) {
    exists i :: 0 <= i < |keys| && Less(k, keys[i]).Err?
  }

  /** The descent through a search tree over `keys`, whatever its shape: any key still in
      question may be the next node. Like the source it compares in one direction only, and
      then the predecessor in the other. */
  method FindPlace(keys: seq<Value>, k: Value) returns (r: Result<Option<nat>, CompareError>)
    requires Ascends(keys)
    ensures r.Err? <==> SomeClash(keys, k)
    ensures r == Ok(None) <==> SomeAlike(keys, k)
    ensures r.Ok? && r.value.Some? ==> FitsAt(keys, k, r.value.value)
  {
    var lo, hi := 0, |keys|;
    while lo < hi
      invariant 0 <= lo <= hi <= |keys|
      invariant lo > 0 ==> Less(k, keys[lo - 1]) == Ok(false)
      invariant forall i :: hi <= i < |keys| ==> Below(k, keys[i])
    {
      var mid :| lo <= mid < hi;
      var left := Less(k, keys[mid]);
      if left.Err? {
        ClashExcludes(keys, k, mid);
        return Err(left.error);
      }
      if left.value {
        forall i | mid < i < |keys| ensures Below(k, keys[i]) { Transitive(k, keys[mid], keys[i]); }
        hi := mid;
      } else {
        lo := mid + 1;
      }
    }
    if lo == 0 {
      PlaceFound(keys, k, lo);
      return Ok(Some(0));
    }
    var above := Less(keys[lo - 1], k);
    Asymmetric(keys[lo - 1], k);
    if above.value {
      forall i | 0 <= i < lo - 1 ensures Below(keys[i], k) { Transitive(keys[i], keys[lo - 1], k); }
      PlaceFound(keys, k, lo);
      return Ok(Some(lo));
    }
    AlikeFound(keys, k, lo - 1);
    return Ok(None);
  }

  lemma PlaceFound(keys: seq<Value>, k: Value, at: nat)
    requires FitsAt(keys, k, at)
    ensures !SomeClash(keys, k) && !SomeAlike(keys, k)
  {
    forall i | 0 <= i < |keys| ensures Less(k, keys[i]).Ok? && !Alike(k, keys[i]) { Asymmetric(k, keys[i]); }
  }

  lemma AlikeFound(keys: seq<Value>, k: Value, at: nat)
    requires Ascends(keys) && at < |keys| && Alike(k, keys[at])
    ensures !SomeClash(keys, k) && SomeAlike(keys, k)
  {
    forall i | 0 <= i < |keys| ensures Less(k, keys[i]).Ok? {
      AlikeWithAll(keys, k, at, i);
    }
  }

  /** A key alike one of the set can be compared with all of them. */
  lemma AlikeWithAll(keys: seq<Value>, k: Value, at: nat, i: nat)
    requires Ascends(keys) && at < |keys| && i < |keys| && Alike(k, keys[at])
    ensures Less(k, keys[i]).Ok?
  {
    if i < at {
      AlikeCompare(keys[i], keys[at], k);
      Asymmetric(keys[i], k);
    } else if at < i {
      AlikeCompareAbove(keys[i], keys[at], k);
    }
  }

  lemma ClashExcludes(keys: seq<Value>, k: Value, at: nat)
    requires Ascends(keys) && at < |keys| && Less(k, keys[at]).Err?
    ensures SomeClash(keys, k) && !SomeAlike(keys, k)
  {
    forall i | 0 <= i < |keys| ensures !Alike(k, keys[i]) {
      if Alike(k, keys[i]) { AlikeWithAll(keys, k, i, at); }
    }
  }

  lemma InsertedAscends(keys: seq<Value>, k: Value, at: nat)
    requires Ascends(keys) && FitsAt(keys, k, at)
    ensures Ascends(keys[..at] + [k] + keys[at..])
    ensures forall v :: v in keys[..at] + [k] + keys[at..] <==> v in keys || v == k
  {
    var r := keys[..at] + [k] + keys[at..];
    forall i, j | 0 <= i < j < |r| ensures Below(r[i], r[j]) {
      assert r[i] == if i < at then keys[i] else if i == at then k else keys[i - 1];
      assert r[j] == if j < at then keys[j] else if j == at then k else keys[j - 1];
    }
    assert keys == keys[..at] + keys[at..];
  }

  /** `keys` are the keys of `res`. */
  ghost predicate KeysOf<E>(p: Problem<E>, res: seq<E>, keys: seq<Value>) {
    && (forall n :: 0 <= n < |res| ==> p.key(res[n]).Some? && p.key(res[n]).value in keys)
    && (forall i :: 0 <= i < |keys| ==> KeyIn(p, res, keys[i]))
  }

  ghost predicate KeyIn<E>(p: Problem<E>, res: seq<E>, k: Value) {
    exists n :: 0 <= n < |res| && p.key(res[n]) == Some(k)
  }

  lemma KeysDecide<E>(p: Problem<E>, res: seq<E>, keys: seq<Value>, e: E)
    requires KeysOf(p, res, keys) && p.key(e).Some?
    ensures HasKeyIn(p, e, res) <==> SomeAlike(keys, p.key(e).value)
    ensures ClashesWith(p, e, res) <==> SomeClash(keys, p.key(e).value)
  {
    var k := p.key(e).value;
    forall i | 0 <= i < |keys| ensures exists n :: 0 <= n < |res| && p.key(res[n]) == Some(keys[i]) {
      assert KeyIn(p, res, keys[i]);
    }
    if i :| 0 <= i < |keys| && Alike(k, keys[i]) {
      var n :| 0 <= n < |res| && p.key(res[n]) == Some(keys[i]);
      assert SameKey(p, e, res[n]);
    }
    if i :| 0 <= i < |keys| && Less(k, keys[i]).Err? {
      var n :| 0 <= n < |res| && p.key(res[n]) == Some(keys[i]);
      assert Clash(p, e, res[n]);
    }
    if n :| 0 <= n < |res| && SameKey(p, e, res[n]) {
      var i :| 0 <= i < |keys| && keys[i] == p.key(res[n]).value;
      assert Alike(k, keys[i]);
    }
    if n :| 0 <= n < |res| && Clash(p, e, res[n]) {
      var i :| 0 <= i < |keys| && keys[i] == p.key(res[n]).value;
      assert Less(k, keys[i]).Err?;
    }
  }

  method Remember<E>(p: Problem<E>, ghost res: seq<E>, keys: seq<Value>, e: E, at: nat) returns (keys': seq<Value>)
    requires KeysOf(p, res, keys) && Ascends(keys) && p.key(e).Some? && FitsAt(keys, p.key(e).value, at)
    ensures KeysOf(p, res + [e], keys') && Ascends(keys')
  {
    InsertedAscends(keys, p.key(e).value, at);
    keys' := keys[..at] + [p.key(e).value] + keys[at..];
    KeysGrow(p, res, keys, e, keys');
  }

  lemma KeysGrow<E>(p: Problem<E>, res: seq<E>, keys: seq<Value>, e: E, keys': seq<Value>)
    requires KeysOf(p, res, keys) && p.key(e).Some?
    requires forall v :: v in keys' <==> v in keys || v == p.key(e).value
    ensures KeysOf(p, res + [e], keys')
  {
    var res' := res + [e];
    forall i | 0 <= i < |keys'| ensures KeyIn(p, res', keys'[i]) {
      if keys'[i] == p.key(e).value {
        assert p.key(res'[|res|]) == Some(keys'[i]);
      } else {
        assert keys'[i] in keys;
        var j :| 0 <= j < |keys| && keys[j] == keys'[i];
        assert KeyIn(p, res, keys[j]);
        var n :| 0 <= n < |res| && p.key(res[n]) == Some(keys[j]);
        assert p.key(res'[n]) == Some(keys'[i]);
      }
    }
  }

  // ---- the worklist ----

  /** The worklist state: `done` has been looked at, `work` is still queued. */
  ghost predicate Queued<E>(p: Problem<E>, done: seq<E>, work: seq<E>, res: seq<E>) {
    done + work == Arrivals(p, res) && res == FirstArrivals(p, done) && AllOk(p, res) && Grounded(p, res)
  }

  /** Why the worklist stops at `e`, if it does. */
  function Stuck<E>(p: Problem<E>, e: E, res: seq<E>): Option<ClosureError> {
    if p.key(e).None? then Some(NoKey)
    else if ClashesWith(p, e, res) then Some(IncomparableKey)
    else if !HasKeyIn(p, e, res) && p.op(e).None? then Some(OperatorFailed)
    else None
  }

  ghost predicate StopsIn<E>(p: Problem<E>, done: seq<E>, work: seq<E>, res: seq<E>, err: ClosureError) {
    Queued(p, done, work, res) && work != [] && Stuck(p, work[0], res) == Some(err)
  }

  /** The first element in order of arrival that has no key, a key that cannot be compared with
      an earlier one, or a new key and a failing operator. */
  ghost predicate StopsAt<E(!new)>(p: Problem<E>, err: ClosureError) {
    exists done, work, res :: StopsIn(p, done, work, res, err)
  }

  ghost function KeySet<E>(p: Problem<E>, xs: seq<E>): set<Value> {
    set n | 0 <= n < |xs| && p.key(xs[n]).Some? :: p.key(xs[n]).value
  }

  /** The worklist accepts finitely many keys; without that it does not end. */
  ghost predicate FinitelyMany<E(!new)>(p: Problem<E>, keys: set<Value>) {
    forall done, work, res :: Queued(p, done, work, res) ==> KeySet(p, res) <= keys
  }

  lemma QueueSeen<E>(p: Problem<E>, done: seq<E>, work: seq<E>, res: seq<E>)
    requires Queued(p, done, work, res) && work != [] && HasKeyIn(p, work[0], res)
    ensures Queued(p, done + [work[0]], work[1..], res)
  {
    FirstSnoc(p, done, work[0]);
    assert (done + [work[0]]) + work[1..] == done + work;
  }

  lemma QueueNew<E>(p: Problem<E>, done: seq<E>, work: seq<E>, res: seq<E>)
    requires Queued(p, done, work, res) && work != [] && Stuck(p, work[0], res).None? && !HasKeyIn(p, work[0], res)
    ensures Queued(p, done + [work[0]], work[1..] + p.op(work[0]).value, res + [work[0]])
  {
    FirstSnoc(p, done, work[0]);
    ArrivalsSnoc(p, res, work[0], done, work, p.op(work[0]).value);
    GroundedSnoc(p, res, work[0], done, work);
    OkSnoc(p, res, work[0]);
  }

  lemma OkSnoc<E>(p: Problem<E>, res: seq<E>, e: E)
    requires AllOk(p, res) && p.key(e).Some? && p.op(e).Some? && !ClashesWith(p, e, res)
    ensures AllOk(p, res + [e])
  {
    forall n | 0 <= n <= |res| ensures OkAt(p, res + [e], n) {
      if n < |res| { assert OkAt(p, res, n) && (res + [e])[..n] == res[..n]; } else { assert (res + [e])[..n] == res; }
    }
  }

  lemma ArrivalsSnoc<E>(p: Problem<E>, res: seq<E>, e: E, done: seq<E>, work: seq<E>, out: seq<E>)
    requires done + work == Arrivals(p, res) && work != [] && e == work[0] && p.op(e) == Some(out)
    ensures (done + [e]) + (work[1..] + out) == Arrivals(p, res + [e])
  {
    OutputsSnoc(p, res, e);
    assert (done + [e]) + (work[1..] + out) == (done + work) + out;
    assert p.start + (Outputs(p, res) + out) == Arrivals(p, res) + out;
  }

  lemma GroundedSnoc<E>(p: Problem<E>, res: seq<E>, e: E, done: seq<E>, work: seq<E>)
    requires Grounded(p, res) && done + work == Arrivals(p, res) && work != [] && e == work[0]
    ensures Grounded(p, res + [e])
  {
    assert (done + work)[|done|] == e;
    forall n | 0 <= n < |res| + 1 ensures ArrivesAt(p, res + [e], n) {
      if n < |res| {
        assert ArrivesAt(p, res, n) && (res + [e])[..n] == res[..n];
      } else {
        assert (res + [e])[..n] == res;
      }
    }
  }

  lemma FewerLeft<E(!new)>(p: Problem<E>, keys: set<Value>, res: seq<E>, e: E)
    requires KeySet(p, res + [e]) <= keys && p.key(e).Some? && !HasKeyIn(p, e, res) && !ClashesWith(p, e, res)
    ensures |keys - KeySet(p, res + [e])| < |keys - KeySet(p, res)|
  {
    var k, res' := p.key(e).value, res + [e];
    assert res'[|res|] == e && k in KeySet(p, res');
    forall n | 0 <= n < |res| ensures p.key(res[n]) != Some(k) {
      assert !Clash(p, e, res[n]) && !SameKey(p, e, res[n]);
      if p.key(res[n]) == Some(k) { SelfAlike(k); }
    }
    forall v | v in KeySet(p, res) ensures v in KeySet(p, res') {
      var n :| 0 <= n < |res| && p.key(res[n]) == Some(v);
      assert res'[n] == res[n];
    }
    assert keys - KeySet(p, res') < keys - KeySet(p, res);
    SmallerSet(keys - KeySet(p, res'), keys - KeySet(p, res));
  }

  lemma SmallerSet(a: set<Value>, b: set<Value>)
    requires a < b
    ensures |a| < |b|
  {
    var x :| x in b && x !in a;
    assert |b - {x}| == |b| - 1;
    SubsetSize(a, b - {x});
  }

  lemma {:induction false} SubsetSize(a: set<Value>, b: set<Value>)
    requires a <= b
    ensures |a| <= |b|
    decreases a
  {
    if a != {} {
      var x :| x in a;
      SubsetSize(a - {x}, b - {x});
    }
  }

  /** `keys` only bounds the search; the result does not depend on it. */
  method GenericClosure<E(!new)>(p: Problem<E>, ghost keys: set<Value>) returns (r: Result<seq<E>, ClosureError>)
    requires FinitelyMany(p, keys)
    ensures r.Ok? ==> r.value == FirstArrivals(p, Arrivals(p, r.value)) && Grounded(p, r.value) && AllOk(p, r.value)
    ensures r.Ok? ==> OnePerKey(p, r.value)
    ensures r.Ok? ==> forall e :: e in Arrivals(p, r.value) ==> HasKeyIn(p, e, r.value) || e in r.value
    ensures forall err :: r == Err(err) <==> StopsAt(p, err)
  {
    var work, res, seen := p.start, [], [];
    ghost var done := [];
    assert done + work == Arrivals(p, res);
    while work != []
      invariant Queued(p, done, work, res) && NotBefore(p, done)
      invariant Ascends(seen) && KeysOf(p, res, seen)
      decreases |keys - KeySet(p, res)|, |work|
    {
      var e := work[0];
      if p.key(e).None? {
        StopsHere(p, done, work, res, NoKey);
        return Err(NoKey);
      }
      var place := FindPlace(seen, p.key(e).value);
      KeysDecide(p, res, seen, e);
      if place.Err? {
        StopsHere(p, done, work, res, IncomparableKey);
        return Err(IncomparableKey);
      }
      if place.value.None? {
        NotYet(p, done, work, res);
        QueueSeen(p, done, work, res);
        work := work[1..];
      } else {
        if p.op(e).None? {
          StopsHere(p, done, work, res, OperatorFailed);
          return Err(OperatorFailed);
        }
        NotYet(p, done, work, res);
        QueueNew(p, done, work, res);
        FewerLeft(p, keys, res, e);
        seen := Remember(p, res, seen, e, place.value.value);
        res := res + [e];
        work := work[1..] + p.op(e).value;
      }
      done := done + [e];
    }
    NeverStops(p, done, res);
    Finish(p, done, res);
    r := Ok(res);
  }

  lemma Finish<E(!new)>(p: Problem<E>, done: seq<E>, res: seq<E>)
    requires Queued(p, done, [], res)
    ensures done == Arrivals(p, res) && OnePerKey(p, res)
    ensures forall e :: e in done ==> HasKeyIn(p, e, res) || e in res
  {
    assert done + [] == done;
    FirstArrivalsDiffer(p, done);
    forall e | e in done ensures HasKeyIn(p, e, res) || e in res { FirstArrivalsCover(p, done, e); }
  }

  // ---- where the worklist stops ----

  /** Wherever the worklist may stop, it is not before `done` has been looked at. */
  ghost predicate NotBefore<E(!new)>(p: Problem<E>, done: seq<E>) {
    forall d, w, s, err :: StopsIn(p, d, w, s, err) ==> done <= d
  }

  lemma PrefixSlice<E>(d: seq<E>, r: seq<E>)
    requires d <= r
    ensures r[..|d|] == d
  {}

  lemma {:induction false} OutputsPrefix<E>(p: Problem<E>, xs: seq<E>, n: nat)
    requires n <= |xs|
    ensures Arrivals(p, xs[..n]) <= Arrivals(p, xs)
    decreases |xs|
  {
    if n < |xs| {
      var init := xs[..|xs| - 1];
      OutputsPrefix(p, init, n);
      assert init[..n] == xs[..n];
      assert Arrivals(p, init) <= Arrivals(p, xs);
    } else {
      assert xs[..n] == xs;
    }
  }

  /** Two states of the worklist, one after the other: the queue of the first is worked off next. */
  lemma WorkedOff<E(!new)>(p: Problem<E>, done: seq<E>, work: seq<E>, res: seq<E>, d: seq<E>, w: seq<E>, s: seq<E>)
    requires Queued(p, done, work, res) && Queued(p, d, w, s) && done <= d
    ensures res <= s && done + work <= d + w
    ensures |done| < |d| && work != [] ==> done + [work[0]] <= d && FirstArrivals(p, done + [work[0]]) <= s
    ensures done == d ==> work == w && res == s
  {
    PrefixOfPrefix(p, done, d);
    PrefixSlice(res, s);
    OutputsPrefix(p, s, |res|);
    if |done| < |d| && work != [] {
      NextTaken(done, work, d, w);
      PrefixOfPrefix(p, done + [work[0]], d);
    }
    if done == d { assert work == (done + work)[|done|..] && w == (d + w)[|d|..]; }
  }

  lemma NextTaken<E>(done: seq<E>, work: seq<E>, d: seq<E>, w: seq<E>)
    requires done <= d && |done| < |d| && work != [] && done + work <= d + w
    ensures done + [work[0]] <= d
  {
    assert (done + work)[|done|] == (d + w)[|done|];
  }

  lemma NotYet<E(!new)>(p: Problem<E>, done: seq<E>, work: seq<E>, res: seq<E>)
    requires NotBefore(p, done) && Queued(p, done, work, res) && work != [] && Stuck(p, work[0], res).None?
    ensures NotBefore(p, done + [work[0]])
  {
    forall d, w, s, err | StopsIn(p, d, w, s, err) ensures done + [work[0]] <= d {
      WorkedOff(p, done, work, res, d, w, s);
    }
  }

  /** The error reported is the only one that the worklist can stop with. */
  lemma StopsHere<E(!new)>(p: Problem<E>, done: seq<E>, work: seq<E>, res: seq<E>, err: ClosureError)
    requires NotBefore(p, done) && StopsIn(p, done, work, res, err)
    requires err.NoKey? || err.OperatorFailed? || !HasKeyIn(p, work[0], res)
    ensures forall other :: StopsAt(p, other) <==> other == err
  {
    forall d, w, s, other | StopsIn(p, d, w, s, other) ensures other == err {
      WorkedOff(p, done, work, res, d, w, s);
      if |done| < |d| { NotPassed(p, done, work[0], s, err); }
    }
  }

  lemma NotPassed<E(!new)>(p: Problem<E>, done: seq<E>, e: E, s: seq<E>, err: ClosureError)
    requires Stuck(p, e, FirstArrivals(p, done)) == Some(err) && !HasKeyIn(p, e, FirstArrivals(p, done))
    requires FirstArrivals(p, done + [e]) <= s
    ensures !AllOk(p, s)
  {
    FirstSnoc(p, done, e);
    var n := |FirstArrivals(p, done)|;
    assert s[n] == e && s[..n] == FirstArrivals(p, done);
    assert !OkAt(p, s, n);
  }

  /** When the queue is empty no state is left in which the worklist would stop. */
  lemma NeverStops<E(!new)>(p: Problem<E>, done: seq<E>, res: seq<E>)
    requires NotBefore(p, done) && Queued(p, done, [], res)
    ensures forall err :: !StopsAt(p, err)
  {
    forall d, w, s, err ensures !StopsIn(p, d, w, s, err) {
      if StopsIn(p, d, w, s, err) {
        WorkedOff(p, done, [], res, d, w, s);
        NothingLeft(p, done, res, d, w, s);
      }
    }
  }

  lemma NothingLeft<E(!new)>(p: Problem<E>, done: seq<E>, res: seq<E>, d: seq<E>, w: seq<E>, s: seq<E>)
    requires Queued(p, done, [], res) && Queued(p, d, w, s) && done <= d && res <= s
    ensures d == done && w == []
  {
    assert done + [] == done;
    if |res| < |s| {
      FirstArrivalsDiffer(p, d);
      PrefixSlice(res, s);
      assert ArrivesAt(p, s, |res|);
      NoLaterArrival(p, done, res, s);
      assert false;
    }
    assert s == res;
  }

  lemma NoLaterArrival<E(!new)>(p: Problem<E>, done: seq<E>, res: seq<E>, s: seq<E>)
    requires res == FirstArrivals(p, done) && res <= s && |res| < |s| && AllOk(p, s) && OnePerKey(p, s)
    ensures s[|res|] !in done
  {
    var e := s[|res|];
    PrefixSlice(res, s);
    assert NewAt(p, s, |res|);
    if e in done {
      FirstArrivalsCover(p, done, e);
      if e in res {
        var m :| 0 <= m < |res| && res[m] == e;
        OccursOnce(p, s, m, |res|);
      }
    }
  }

  // ---- what determines the result ----

  /** Two grounded lists of first arrivals that agree so far agree on the next element. */
  lemma NextAgrees<E(!new)>(p: Problem<E>, r: seq<E>, s: seq<E>, n: nat)
    requires r == FirstArrivals(p, Arrivals(p, r)) && Grounded(p, r) && AllOk(p, r)
    requires s == FirstArrivals(p, Arrivals(p, s))
    requires n < |r| && n <= |s| && r[..n] == s[..n]
    ensures n < |s| && r[n] == s[n]
  {
    var common := Arrivals(p, r[..n]);
    OutputsPrefix(p, r, n);
    OutputsPrefix(p, s, n);
    PrefixOfPrefix(p, common, Arrivals(p, r));
    PrefixOfPrefix(p, common, Arrivals(p, s));
    LongEnough(p, r, n, common, FirstArrivals(p, common));
  }

  /** The arrivals of n result elements already determine the next one. */
  lemma LongEnough<E(!new)>(p: Problem<E>, r: seq<E>, n: nat, common: seq<E>, d: seq<E>)
    requires n < |r| && r == FirstArrivals(p, Arrivals(p, r)) && Grounded(p, r) && AllOk(p, r)
    requires common == Arrivals(p, r[..n]) && d == FirstArrivals(p, common) && d <= r
    ensures n < |d|
  {
    if |d| <= n {
      FirstArrivalsDiffer(p, Arrivals(p, r));
      assert ArrivesAt(p, r, n) && NewAt(p, r, n);
      FirstArrivalsCover(p, common, r[n]);
      PrefixSlice(d, r);
      if r[n] in d {
        var m :| 0 <= m < |d| && d[m] == r[n];
        OccursOnce(p, r, m, n);
      } else {
        HasKeyInMore(p, r[n], d, r[..n]);
      }
      assert false;
    }
  }

  /** Breadth-first order leaves no choice: the grounded list that is the first arrivals of
      its own arrivals is unique. */
  lemma {:induction false} ClosurePrefix<E(!new)>(p: Problem<E>, r: seq<E>, s: seq<E>, n: nat)
    requires r == FirstArrivals(p, Arrivals(p, r)) && Grounded(p, r) && AllOk(p, r)
    requires s == FirstArrivals(p, Arrivals(p, s))
    requires n <= |r| && n <= |s| && r[..n] == s[..n]
    ensures r <= s
    decreases |r| - n
  {
    if n < |r| {
      NextAgrees(p, r, s, n);
      SamePrefix(r, s, n);
      ClosurePrefix(p, r, s, n + 1);
    } else {
      WholePrefix(r, s);
    }
  }

  lemma SamePrefix<E>(r: seq<E>, s: seq<E>, n: nat)
    requires n < |r| && n < |s| && r[..n] == s[..n] && r[n] == s[n]
    ensures r[..n + 1] == s[..n + 1]
  {
    assert r[..n + 1] == r[..n] + [r[n]] && s[..n + 1] == s[..n] + [s[n]];
  }

  lemma WholePrefix<E>(r: seq<E>, s: seq<E>)
    requires |r| <= |s| && r[..|r|] == s[..|r|]
    ensures r <= s
  {
    assert r[..|r|] == r;
  }

  lemma ClosureIsUnique<E(!new)>(p: Problem<E>, r: seq<E>, s: seq<E>)
    requires r == FirstArrivals(p, Arrivals(p, r)) && Grounded(p, r) && AllOk(p, r)
    requires s == FirstArrivals(p, Arrivals(p, s)) && Grounded(p, s) && AllOk(p, s)
    ensures r == s
  {
    assert r[..0] == s[..0];
    ClosurePrefix(p, r, s, 0);
    ClosurePrefix(p, s, r, 0);
  }

  /** Every start element and every output of a result element is in the result or has the key
      of a result element. */
  lemma ClosureIsClosed<E(!new)>(p: Problem<E>, r: seq<E>, e: E)
    requires r == FirstArrivals(p, Arrivals(p, r))
    requires e in p.start || exists n :: 0 <= n < |r| && p.op(r[n]).Some? && e in p.op(r[n]).value
    ensures e in r || HasKeyIn(p, e, r)
  {
    if e !in p.start {
      var n :| 0 <= n < |r| && p.op(r[n]).Some? && e in p.op(r[n]).value;
      OutputIn(p, r, n, e);
    }
    assert e in Arrivals(p, r);
    FirstArrivalsCover(p, Arrivals(p, r), e);
  }

  lemma {:induction false} OutputIn<E>(p: Problem<E>, r: seq<E>, n: nat, e: E)
    requires n < |r| && p.op(r[n]).Some? && e in p.op(r[n]).value
    ensures e in Outputs(p, r)
  {
    if n < |r| - 1 { OutputIn(p, r[..|r| - 1], n, e); }
  }

  // ---- keys of one comparable type ----

  /** Then the same key is an equal key, so the result has exactly the keys that arrive. */
  lemma KeysExactlyArriving<E(!new)>(p: Problem<E>, r: seq<E>, t: Type)
    requires r == FirstArrivals(p, Arrivals(p, r))
    requires forall e :: e in Arrivals(p, r) && p.key(e).Some? ==> HasType(p.key(e).value, t)
    ensures KeySet(p, r) == KeySet(p, Arrivals(p, r))
  {
    var xs := Arrivals(p, r);
    FirstArrivalsIn(p, xs);
    forall v | v in KeySet(p, r) ensures v in KeySet(p, xs) {
      var n :| 0 <= n < |r| && p.key(r[n]) == Some(v);
      assert r[n] in xs;
      var i :| 0 <= i < |xs| && xs[i] == r[n];
    }
    forall v | v in KeySet(p, xs) ensures v in KeySet(p, r) {
      var i :| 0 <= i < |xs| && p.key(xs[i]) == Some(v);
      KeyKept(p, r, xs[i], t);
    }
  }

  lemma KeyKept<E(!new)>(p: Problem<E>, r: seq<E>, e: E, t: Type)
    requires r == FirstArrivals(p, Arrivals(p, r)) && e in Arrivals(p, r) && p.key(e).Some?
    requires forall x :: x in Arrivals(p, r) && p.key(x).Some? ==> HasType(p.key(x).value, t)
    ensures p.key(e).value in KeySet(p, r)
  {
    FirstArrivalsCover(p, Arrivals(p, r), e);
    FirstArrivalsIn(p, Arrivals(p, r));
    if e in r {
      var n :| 0 <= n < |r| && r[n] == e;
    } else {
      var n :| 0 <= n < |r| && SameKey(p, e, r[n]);
      assert r[n] in Arrivals(p, r);
      Trichotomy(p.key(e).value, p.key(r[n]).value, t);
      EqIsIdentity(p.key(e).value, p.key(r[n]).value, t);
    }
  }

  // ---- a region that the worklist does not leave ----

  /** A set of elements that contains the start set and the outputs of those of its elements
      that are expanded. */
  ghost predicate Contains<E(!new)>(p: Problem<E>, region: iset<E>, res: seq<E>) {
    && (forall i :: 0 <= i < |p.start| ==> p.start[i] in region)
    && (forall n :: 0 <= n < |res| && res[n] in region && p.op(res[n]).Some? ==> Within(p.op(res[n]).value, region))
  }

  ghost predicate Within<E>(xs: seq<E>, region: iset<E>) {
    forall i :: 0 <= i < |xs| ==> xs[i] in region
  }

  lemma {:induction false} ArrivalsWithin<E(!new)>(p: Problem<E>, region: iset<E>, res: seq<E>)
    requires Contains(p, region, res) && Grounded(p, res)
    ensures Within(Arrivals(p, res), region)
    decreases |res|
  {
    if res != [] {
      var init, last := res[..|res| - 1], res[|res| - 1];
      forall n | 0 <= n < |init| ensures ArrivesAt(p, init, n) { assert ArrivesAt(p, res, n) && init[..n] == res[..n]; }
      ArrivalsWithin(p, region, init);
      var out := if p.op(last).Some? then p.op(last).value else [];
      assert ArrivesAt(p, res, |init|);
      assert Within(out, region);
      assert Arrivals(p, res) == Arrivals(p, init) + out;
    }
  }

  /** Finitely many keys in a region that no expansion leaves are enough for the worklist to end. */
  lemma RegionIsEnough<E(!new)>(p: Problem<E>, region: iset<E>, keys: set<Value>)
    requires forall done, work, res :: Queued(p, done, work, res) ==> Contains(p, region, res)
    requires forall e :: e in region && p.key(e).Some? ==> p.key(e).value in keys
    ensures FinitelyMany(p, keys)
  {
    forall done, work, res | Queued(p, done, work, res) ensures KeySet(p, res) <= keys {
      assert Contains(p, region, res);
      ArrivalsWithin(p, region, res);
      FirstArrivalsIn(p, done);
      forall n | 0 <= n < |res| ensures res[n] in region {
        assert res[n] in done;
        var i :| 0 <= i < |done| && done[i] == res[n];
        assert (done + work)[i] == res[n];
      }
    }
  }
}

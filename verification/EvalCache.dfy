/** The persistent evaluation cache: a table of rows keyed by (parent row, name) and any
    number of cursors that read it, write it and replace its rows. Every answer it gives
    definitely is the answer direct evaluation gives. */
module EvalCache {
  import opened Wrappers

  type Symbol = nat
  type Path = seq<Symbol>

  // What evaluating an attribute yields. `Other` stands for lists, functions and null.
  datatype Node = AttrsN(names: set<Symbol>) | StringN(s: string) | BoolN(b: bool) | IntN(i: int) | OtherN | FailsN

  // Direct evaluation: the outcome at every path that exists.
  datatype World = World(node: Path -> Node)

  ghost predicate Exists(w: World, p: Path) {
    p == [] || (Exists(w, p[..|p| - 1]) && w.node(p[..|p| - 1]).AttrsN? && p[|p| - 1] in w.node(p[..|p| - 1]).names)
  }

  lemma ExistsChild(w: World, p: Path, name: Symbol)
    requires Exists(w, p) && w.node(p).AttrsN?
    ensures Exists(w, p + [name]) <==> name in w.node(p).names
  {
    assert (p + [name])[..|p|] == p;
  }

  const EPSILON: Symbol := 0

  datatype Key = Key(parent: nat, name: Symbol)

  datatype RowValue = FullAttrs | Placeholder | Missing | Misc | Failed | String(s: string) | Bool(b: bool) | Int(i: int)

  datatype Row = Row(id: nat, value: RowValue)

  // A row as a cursor holds it in memory; a full attribute set comes with its names.
  datatype Cached = CachedSet(names: set<Symbol>) | CachedLeaf(value: RowValue)

  datatype CacheError = EvalFailed | WrongType

  /** Conversion to a 32-bit C `int`. */
  function ToCInt(i: int): int {
    (i + 0x8000_0000) % 0x1_0000_0000 - 0x8000_0000
  }

  predicate FitsCInt(i: int) {
    -0x8000_0000 <= i < 0x8000_0000
  }

  /** What a row says about its path is true of direct evaluation. */
  ghost predicate Sound(w: World, p: Path, v: RowValue) {
    if v.Missing? then
      p != [] && Exists(w, p[..|p| - 1]) && w.node(p[..|p| - 1]).AttrsN? && p[|p| - 1] !in w.node(p[..|p| - 1]).names
    else
      Exists(w, p) &&
      match v
      case FullAttrs => w.node(p).AttrsN?
      case Placeholder => true
      case Misc => w.node(p).OtherN?
      case Failed => w.node(p).FailsN?
      case String(s) => w.node(p) == StringN(s)
      case Bool(b) => w.node(p) == BoolN(b)
      case Int(i) => w.node(p).IntN? && i == ToCInt(w.node(p).i)
  }

  // For each row id ever issued, the attribute path it was issued for; replaced rows keep
  // theirs. `full` holds the ids issued for full attribute sets.
  datatype Trace = Trace(paths: map<nat, Path>, full: set<nat>)

  type Rows = map<Key, Row>

  ghost predicate KeyOk(t: Trace, key: Key) {
    if key.parent == 0 then key.name == EPSILON else key.parent in t.paths
  }

  ghost function KeyPath(t: Trace, key: Key): Path
    requires KeyOk(t, key)
  {
    if key.parent == 0 then [] else t.paths[key.parent] + [key.name]
  }

  /** The names of the rows whose parent is `id`. */
  function ChildNames(rows: Rows, id: nat): set<Symbol> {
    set key | key in rows && key.parent == id :: key.name
  }

  ghost predicate RowOk(w: World, t: Trace, key: Key, row: Row) {
    && KeyOk(t, key) && row.id in t.paths && t.paths[row.id] == KeyPath(t, key)
    && Sound(w, KeyPath(t, key), row.value)
    && (row.value.FullAttrs? <==> row.id in t.full)
  }

  ghost predicate RowsSound(w: World, rows: Rows, lastId: nat, t: Trace) {
    && (forall id :: id in t.paths ==> 0 < id <= lastId)
    && t.full <= t.paths.Keys
    && (forall key :: key in rows ==> RowOk(w, t, key, rows[key]))
  }

  /** The rows below a full attribute set are exactly its attributes, also after the set's
      own row has been replaced. */
  ghost predicate FullOk(w: World, rows: Rows, t: Trace, id: nat) {
    id in t.paths && Exists(w, t.paths[id]) && w.node(t.paths[id]).AttrsN? && ChildNames(rows, id) == w.node(t.paths[id]).names
  }

  ghost predicate SetsFull(w: World, rows: Rows, t: Trace, pending: nat) {
    forall id :: id in t.full && id != pending ==> FullOk(w, rows, t, id)
  }

  /** Sound, except that the rows below `pending` are still being written; 0 is no row's id. */
  ghost predicate TableOk(w: World, rows: Rows, lastId: nat, t: Trace, pending: nat) {
    RowsSound(w, rows, lastId, t) && SetsFull(w, rows, t, pending)
  }

  /** A key the cache may write: below a full set, only its attributes. */
  ghost predicate Writable(rows: Rows, t: Trace, key: Key, pending: nat) {
    KeyOk(t, key) && (key.parent in t.full && key.parent != pending ==> key.name in ChildNames(rows, key.parent))
  }

  ghost function Issue(t: Trace, id: nat, p: Path, value: RowValue): Trace {
    Trace(t.paths[id := p], if value.FullAttrs? then t.full + {id} else t.full)
  }

  /** Ids issued before keep their path and kind. */
  ghost predicate Kept(t: Trace, t': Trace) {
    forall i :: i in t.paths ==> i in t'.paths && t'.paths[i] == t.paths[i] && (i in t'.full <==> i in t.full)
  }

  function ToSet(xs: seq<Symbol>): set<Symbol> {
    set x | x in xs
  }

  lemma ToSetSnoc(xs: seq<Symbol>, k: nat)
    requires k < |xs|
    ensures ToSet(xs[..k + 1]) == ToSet(xs[..k]) + {xs[k]} && xs[k] in ToSet(xs)
  {
    assert xs[..k + 1] == xs[..k] + [xs[k]];
  }

  lemma CloseSet(w: World, rows: Rows, lastId: nat, t: Trace, id: nat)
    requires TableOk(w, rows, lastId, t, id) && FullOk(w, rows, t, id)
    ensures TableOk(w, rows, lastId, t, 0)
  {}

  lemma ChildAdded(rows: Rows, key: Key, row: Row, id: nat)
    ensures ChildNames(rows[key := row], id) == ChildNames(rows, id) + if key.parent == id then {key.name} else {}
  {
    var rows' := rows[key := row];
    forall n | n in ChildNames(rows, id) ensures n in ChildNames(rows', id) { assert Key(id, n) in rows'; }
    if key.parent == id { assert Key(id, key.name) in rows'; }
  }

  /** Replacing a row keeps the table sound: old ids keep their meaning, and the rows below a
      full set keep naming exactly its attributes. */
  lemma PutOk(w: World, rows: Rows, lastId: nat, t: Trace, key: Key, value: RowValue, pending: nat, rows': Rows, t': Trace)
    requires TableOk(w, rows, lastId, t, pending) && Writable(rows, t, key, pending)
    requires Sound(w, KeyPath(t, key), value)
    requires value.FullAttrs? ==> pending == 0
    requires rows' == rows[key := Row(lastId + 1, value)] && t' == Issue(t, lastId + 1, KeyPath(t, key), value)
    ensures TableOk(w, rows', lastId + 1, t', if value.FullAttrs? then lastId + 1 else pending)
  {
    var id := lastId + 1;
    forall k | k in rows' ensures RowOk(w, t', k, rows'[k]) {
      if k != key { assert RowOk(w, t, k, rows[k]); }
    }
    forall f | f in t.full && f != pending ensures FullOk(w, rows', t', f) {
      assert FullOk(w, rows, t, f);
      ChildAdded(rows, key, Row(id, value), f);
    }
  }

  lemma NoChildrenYet(w: World, rows: Rows, lastId: nat, t: Trace, id: nat, pending: nat)
    requires TableOk(w, rows, lastId, t, pending) && id > lastId
    ensures ChildNames(rows, id) == {}
  {
    forall key | key in rows ensures key.parent != id { assert RowOk(w, t, key, rows[key]); }
  }

  /** No `Missing` row ever appears below a full attribute set. */
  lemma NoMissingBelowFull(w: World, rows: Rows, lastId: nat, t: Trace, key: Key)
    requires TableOk(w, rows, lastId, t, 0) && key in rows && key.parent in t.full
    ensures !rows[key].value.Missing?
  {
    assert RowOk(w, t, key, rows[key]) && FullOk(w, rows, t, key.parent);
    assert key.name in ChildNames(rows, key.parent);
    var p := t.paths[key.parent];
    assert (p + [key.name])[..|p|] == p;
  }

  function InMemory(rows: Rows, row: Row): Cached {
    if row.value.FullAttrs? then CachedSet(ChildNames(rows, row.id)) else CachedLeaf(row.value)
  }

  function Lookup(rows: Rows, key: Key): Option<(nat, Cached)> {
    if key in rows then Some((rows[key].id, InMemory(rows, rows[key]))) else None
  }

  class AttrDb {
    var rows: Rows
    var lastId: nat
    ghost const world: World
    ghost var trace: Trace

    constructor (ghost world: World)
      ensures Valid() && this.world == world && rows == map[]
    {
      this.world := world;
      rows, lastId, trace := map[], 0, Trace(map[], {});
    }

    ghost predicate Valid()
      reads this
    {
      TableOk(world, rows, lastId, trace, 0)
    }

    /** `insert or replace`: the row gets an id never issued before. */
    method Put(key: Key, value: RowValue, ghost pending: nat) returns (id: nat)
      requires TableOk(world, rows, lastId, trace, pending) && Writable(rows, trace, key, pending)
      requires Sound(world, KeyPath(trace, key), value)
      requires value.FullAttrs? ==> pending == 0
      modifies this
      ensures id == lastId == old(lastId) + 1
      ensures TableOk(world, rows, lastId, trace, if value.FullAttrs? then id else pending)
      ensures rows == old(rows)[key := Row(id, value)]
      ensures trace == Issue(old(trace), id, KeyPath(old(trace), key), value)
    {
      id := lastId + 1;
      var rows' := rows[key := Row(id, value)];
      ghost var trace' := Issue(trace, id, KeyPath(trace, key), value);
      PutOk(world, rows, lastId, trace, key, value, pending, rows', trace');
      lastId, rows, trace := id, rows', trace';
    }

    method PutPlaceholder(id: nat, name: Symbol)
      requires TableOk(world, rows, lastId, trace, id) && id in trace.full
      requires Sound(world, trace.paths[id], FullAttrs) && name in world.node(trace.paths[id]).names
      modifies this
      ensures TableOk(world, rows, lastId, trace, id) && Kept(old(trace), trace) && id in trace.full
      ensures ChildNames(rows, id) == ChildNames(old(rows), id) + {name}
    {
      ExistsChild(world, trace.paths[id], name);
      ChildAdded(rows, Key(id, name), Row(lastId + 1, Placeholder), id);
      var _ := Put(Key(id, name), Placeholder, id);
    }

    method FillSet(id: nat, attrs: seq<Symbol>)
      requires TableOk(world, rows, lastId, trace, id) && id in trace.full && ChildNames(rows, id) == {}
      requires Sound(world, trace.paths[id], FullAttrs) && ToSet(attrs) == world.node(trace.paths[id]).names
      modifies this
      ensures Valid() && Kept(old(trace), trace)
    {
      var k := 0;
      while k < |attrs|
        invariant 0 <= k <= |attrs|
        invariant TableOk(world, rows, lastId, trace, id) && Kept(old(trace), trace) && id in trace.full
        invariant ChildNames(rows, id) == ToSet(attrs[..k])
      {
        ToSetSnoc(attrs, k);
        PutPlaceholder(id, attrs[k]);
        k := k + 1;
      }
      assert attrs[..k] == attrs;
      CloseSet(world, rows, lastId, trace, id);
    }

    /** A full attribute set, with a placeholder for each of its attributes. */
    method SetAttrs(key: Key, attrs: seq<Symbol>) returns (id: nat)
      requires Valid() && Writable(rows, trace, key, 0) && Sound(world, KeyPath(trace, key), FullAttrs)
      requires ToSet(attrs) == world.node(KeyPath(trace, key)).names
      modifies this
      ensures Valid() && Kept(old(trace), trace)
      ensures id in trace.full && id in trace.paths && trace.paths[id] == KeyPath(old(trace), key)
    {
      ChildAdded(rows, key, Row(lastId + 1, FullAttrs), lastId + 1);
      NoChildrenYet(world, rows, lastId, trace, lastId + 1, 0);
      id := Put(key, FullAttrs, 0);
      FillSet(id, attrs);
    }

    method GetAttr(key: Key) returns (r: Option<(nat, Cached)>)
      ensures r == Lookup(rows, key)
    {
      if key !in rows {
        return None;
      }
      var row := rows[key];
      return Some((row.id, InMemory(rows, row)));
    }
  }

  predicate HasAttr(w: World, p: Path, name: Symbol) {
    w.node(p).AttrsN? && name in w.node(p).names
  }

  // The answers of direct evaluation.

  function DirectAttrs(w: World, p: Path): Result<set<Symbol>, CacheError> {
    match w.node(p)
    case FailsN => Err(EvalFailed)
    case AttrsN(names) => Ok(names)
    case _ => Err(WrongType)
  }

  function DirectString(w: World, p: Path): Result<string, CacheError> {
    match w.node(p)
    case FailsN => Err(EvalFailed)
    case StringN(s) => Ok(s)
    case _ => Err(WrongType)
  }

  function DirectBool(w: World, p: Path): Result<bool, CacheError> {
    match w.node(p)
    case FailsN => Err(EvalFailed)
    case BoolN(b) => Ok(b)
    case _ => Err(WrongType)
  }

  function DirectInt(w: World, p: Path): Result<int, CacheError> {
    match w.node(p)
    case FailsN => Err(EvalFailed)
    case IntN(i) => Ok(i)
    case _ => Err(WrongType)
  }

  /** An integer read back from a row went through a C `int`. */
  ghost predicate IntAnswer(w: World, p: Path, r: Result<int, CacheError>) {
    r == DirectInt(w, p) || (w.node(p).IntN? && r == Ok(ToCInt(w.node(p).i)))
  }

  /** What a cursor holds in memory agrees with the id it was read or written under. */
  ghost predicate HeldOk(w: World, t: Trace, p: Path, held: (nat, Cached)) {
    && held.0 in t.paths && t.paths[held.0] == p
    && match held.1
       case CachedSet(names) => held.0 in t.full && w.node(p).AttrsN? && names == w.node(p).names
       case CachedLeaf(v) =>
         held.0 !in t.full && !v.FullAttrs? && (Sound(w, p, v) || (v.Int? && w.node(p) == IntN(v.i)))
  }

  // What the getters read off a value held in memory.

  function AttrsIn(v: Cached): Result<set<Symbol>, CacheError> {
    match v case CachedSet(names) => Ok(names) case CachedLeaf(Failed) => Err(EvalFailed) case _ => Err(WrongType)
  }

  function StringIn(v: Cached): Result<string, CacheError> {
    match v case CachedLeaf(String(s)) => Ok(s) case CachedLeaf(Failed) => Err(EvalFailed) case _ => Err(WrongType)
  }

  function BoolIn(v: Cached): Result<bool, CacheError> {
    match v case CachedLeaf(Bool(b)) => Ok(b) case CachedLeaf(Failed) => Err(EvalFailed) case _ => Err(WrongType)
  }

  function IntIn(v: Cached): Result<int, CacheError> {
    match v case CachedLeaf(Int(i)) => Ok(i) case CachedLeaf(Failed) => Err(EvalFailed) case _ => Err(WrongType)
  }

  function Definite(held: Option<(nat, Cached)>): Option<Cached> {
    if held.Some? && held.value.1 != CachedLeaf(Placeholder) then Some(held.value.1) else None
  }

  /** The getters answer from `v` as direct evaluation does. */
  ghost predicate Answers(w: World, p: Path, v: Cached) {
    && AttrsIn(v) == DirectAttrs(w, p) && StringIn(v) == DirectString(w, p) && BoolIn(v) == DirectBool(w, p)
    && IntAnswer(w, p, IntIn(v))
  }

  lemma HeldAnswers(w: World, t: Trace, p: Path, held: (nat, Cached))
    requires HeldOk(w, t, p, held) && held.1 != CachedLeaf(Placeholder) && held.1 != CachedLeaf(Missing)
    ensures Answers(w, p, held.1)
  {}

  lemma ExistsChildOf(w: World, p: Path, name: Symbol)
    ensures Exists(w, p + [name]) ==> w.node(p).AttrsN? && name in w.node(p).names
  {
    assert (p + [name])[..|p|] == p;
  }

  /** A row read for an existing path is a faithful in-memory copy. */
  lemma FetchedOk(w: World, rows: Rows, lastId: nat, t: Trace, key: Key)
    requires TableOk(w, rows, lastId, t, 0) && key in rows && KeyOk(t, key) && Exists(w, KeyPath(t, key))
    ensures HeldOk(w, t, KeyPath(t, key), (rows[key].id, InMemory(rows, rows[key])))
  {
    assert RowOk(w, t, key, rows[key]);
    if rows[key].value.FullAttrs? { assert FullOk(w, rows, t, rows[key].id); }
  }

  lemma IssuedOk(w: World, t: Trace, id: nat, p: Path, value: RowValue, held: RowValue)
    requires id !in t.paths && t.full <= t.paths.Keys && !value.FullAttrs? && !held.FullAttrs?
    requires Sound(w, p, held) || (held.Int? && w.node(p) == IntN(held.i))
    ensures Kept(t, Issue(t, id, p, value)) && HeldOk(w, Issue(t, id, p, value), p, (id, CachedLeaf(held)))
  {}

  lemma OlderParent(w: World, rows: Rows, lastId: nat, t: Trace, key: Key)
    requires TableOk(w, rows, lastId, t, 0) && KeyOk(t, key)
    ensures key.parent <= lastId
  {}

  lemma NotListed(rows: Rows, id: nat, name: Symbol)
    requires ChildNames(rows, id) == {}
    ensures Key(id, name) !in rows
  {
    assert name !in ChildNames(rows, id);
  }

  lemma RowAdded(rows: Rows, lastId: nat, key: Key)
    requires key !in rows
    ensures PlaceholdersAdded(rows, lastId, rows[key := Row(lastId + 1, Placeholder)], lastId + 1)
  {}

  /** Rows keep their place, and the new ones are placeholders with new ids. */
  ghost predicate PlaceholdersAdded(rows: Rows, lastId: nat, rows': Rows, lastId': nat) {
    && lastId <= lastId'
    && (forall key :: key in rows ==> key in rows' && rows'[key] == rows[key])
    && (forall key :: key in rows' && key !in rows ==> rows'[key].value == Placeholder && rows'[key].id > lastId)
  }

  class Cache {
    const db: AttrDb
    // stands for the evaluator and the root value
    const world: World
    ghost var cursors: set<AttrCursor>

    // A root that fails is not rethrown from the table, so it is left out here.
    constructor (world: World)
      requires !world.node([]).FailsN?
      ensures Valid() && this.world == world && cursors == {} && fresh(db) && db.rows == map[]
    {
      db := new AttrDb(world);
      this.world := world;
      cursors := {};
    }

    ghost predicate Valid()
      reads this, db, cursors
    {
      && db.world == world && db.Valid() && !world.node([]).FailsN?
      && forall c :: c in cursors ==> CursorOk(c)
    }

    ghost predicate CursorOk(c: AttrCursor)
      requires c in cursors
      reads this, db, cursors
    {
      && c.cache == this && Exists(world, c.path)
      && (c.parent == null ==> c.path == [])
      && (c.parent != null ==> c.parent in cursors && c.path == c.parent.path + [c.name] && c.parent.cached.Some?)
      && (c.cached.Some? ==> HeldOk(world, db.trace, c.path, c.cached.value))
    }

    method GetRoot() returns (c: AttrCursor)
      requires Valid()
      modifies this
      ensures Valid() && cursors == old(cursors) + {c} && fresh(c) && c.path == [] && c.parent == null && c.cached == None
    {
      c := new AttrCursor(this, null, EPSILON, None);
      cursors := cursors + {c};
    }
  }

  class AttrCursor {
    const cache: Cache
    const parent: AttrCursor?
    const name: Symbol
    ghost const path: Path
    var cached: Option<(nat, Cached)>

    constructor (cache: Cache, parent: AttrCursor?, name: Symbol, held: Option<(nat, Cached)>)
      ensures this.cache == cache && this.parent == parent && this.name == name && cached == held
      ensures path == if parent == null then [] else parent.path + [name]
    {
      this.cache, this.parent, this.name, cached := cache, parent, name, held;
      path := if parent == null then [] else parent.path + [name];
    }

    ghost predicate Ready()
      reads this, cache, cache.db, cache.cursors
    {
      cache.Valid() && this in cache.cursors
    }

    /** The key of this cursor's row. The parent always holds a row id by the time a child
        exists, so the source's `assert` on it cannot fail. */
    function GetKey(): (key: Key)
      requires Ready()
      reads this, cache, cache.db, cache.cursors
      ensures KeyOk(cache.db.trace, key) && KeyPath(cache.db.trace, key) == path
      ensures Writable(cache.db.rows, cache.db.trace, key, 0)
    {
      if parent == null then
        assert cache.CursorOk(this);
        assert 0 !in cache.db.trace.full;
        Key(0, EPSILON)
      else
        assert cache.CursorOk(this) && cache.CursorOk(parent);
        ExistsChildOf(cache.world, parent.path, name);
        Key(parent.cached.value.0, name)
    }

    /** Writes this cursor's row and keeps `held` in memory. */
    method Store(value: RowValue, held: RowValue)
      requires Ready() && !value.FullAttrs? && Sound(cache.world, path, value)
      requires !held.FullAttrs? && (Sound(cache.world, path, held) || (held.Int? && cache.world.node(path) == IntN(held.i)))
      modifies this, cache.db
      ensures Ready() && cached == Some((cache.db.lastId, CachedLeaf(held)))
      ensures GetKey() == old(GetKey()) && cache.db.rows == old(cache.db.rows)[GetKey() := Row(cache.db.lastId, value)]
      ensures cache.db.lastId == old(cache.db.lastId) + 1
    {
      ghost var t := cache.db.trace;
      var key := GetKey();
      var id := cache.db.Put(key, value, 0);
      cached := Some((id, CachedLeaf(held)));
      IssuedOk(cache.world, t, id, path, value, held);
      forall c | c in cache.cursors ensures cache.CursorOk(c) {
        assert old(cache.CursorOk(c));
      }
    }

    /** True when the table already knows that this attribute fails. */
    method FetchCachedValue() returns (failed: bool)
      requires Ready()
      modifies this
      ensures Ready() && (old(cached).Some? ==> cached == old(cached))
      ensures failed <==> cached.Some? && cached.value.1 == CachedLeaf(Failed)
      ensures failed ==> cache.world.node(path).FailsN?
      ensures old(cached).None? ==> cached == Lookup(cache.db.rows, GetKey())
    {
      if cached.None? {
        ghost var key := GetKey();
        cached := cache.db.GetAttr(GetKey());
        if cached.Some? {
          FetchedOk(cache.world, cache.db.rows, cache.db.lastId, cache.db.trace, key);
          forall c | c in cache.cursors ensures cache.CursorOk(c) {
            assert old(cache.CursorOk(c));
          }
        }
      }
      assert cache.CursorOk(this);
      failed := cached.Some? && cached.value.1 == CachedLeaf(Failed) && parent != null;
    }

    /** Finds this cursor's value from the root; a value is identified by its path. No
        attribute on the way is unexpectedly missing. */
    method GetValue() returns (value: Path)
      requires Ready()
      ensures value == path
      decreases |path|
    {
      assert cache.CursorOk(this);
      if parent == null {
        return [];
      }
      var above := parent.GetValue();
      ExistsChildOf(cache.world, parent.path, name);
      assert HasAttr(cache.world, above, name);
      return above + [name];
    }

    method ForceValue() returns (r: Result<Node, CacheError>)
      requires Ready()
      modifies this, cache.db
      ensures Ready()
      ensures r == if cache.world.node(path).FailsN? then Err(EvalFailed) else Ok(cache.world.node(path))
      ensures cache.world.node(path).AttrsN? ==>
        cached == old(cached) && cache.db.rows == old(cache.db.rows) && cache.db.lastId == old(cache.db.lastId)
      ensures cache.world.node(path).IntN? && Definite(old(cached)).None? ==>
        GetKey() == old(GetKey())
        && cache.db.rows == old(cache.db.rows)[GetKey() := Row(cache.db.lastId, Int(ToCInt(cache.world.node(path).i)))]
      ensures cache.world.node(path).FailsN? ==>
        GetKey() == old(GetKey()) && cache.db.rows == old(cache.db.rows)[GetKey() := Row(cache.db.lastId, Failed)]
    {
      var value := GetValue();
      var node := cache.world.node(value);
      assert cache.CursorOk(this);
      if node.FailsN? {
        Store(Failed, Failed);
        return Err(EvalFailed);
      }
      if cached.None? || cached.value.1 == CachedLeaf(Placeholder) {
        match node
        case StringN(s) => Store(String(s), String(s));
        case BoolN(b) => Store(Bool(b), Bool(b));
        case IntN(i) => Store(Int(ToCInt(i)), Int(i));
        case AttrsN(_) =>
        case OtherN => Store(Misc, Misc);
      }
      return Ok(node);
    }

    method Child(name: Symbol, held: Option<(nat, Cached)>) returns (c: AttrCursor)
      requires Ready() && cached.Some? && HasAttr(cache.world, path, name)
      requires held.Some? ==> HeldOk(cache.world, cache.db.trace, path + [name], held.value)
      modifies cache
      ensures Ready() && cache.cursors == old(cache.cursors) + {c} && fresh(c) && c.path == path + [name]
      ensures c.parent == this && c.name == name && c.cached == held
    {
      assert cache.CursorOk(this);
      ExistsChild(cache.world, path, name);
      c := new AttrCursor(cache, this, name, held);
      cache.cursors := cache.cursors + {c};
      forall d | d in cache.cursors ensures cache.CursorOk(d) {
        if d != c { assert old(cache.CursorOk(d)); }
      }
    }

    /** Writes a row below this cursor's own, incomplete one. */
    method PutChild(name: Symbol, value: RowValue) returns (id: nat)
      requires Ready() && cached.Some? && cached.value.1 == CachedLeaf(Placeholder)
      requires value.Missing? || value.Placeholder?
      requires Sound(cache.world, path + [name], value)
      modifies cache.db
      ensures Ready() && cache.db.rows == old(cache.db.rows)[Key(cached.value.0, name) := Row(id, value)]
      ensures id == cache.db.lastId == old(cache.db.lastId) + 1
      ensures value.Placeholder? ==> HeldOk(cache.world, cache.db.trace, path + [name], (id, CachedLeaf(value)))
    {
      assert cache.CursorOk(this);
      ghost var t := cache.db.trace;
      id := cache.db.Put(Key(cached.value.0, name), value, 0);
      IssuedOk(cache.world, t, id, path + [name], value, value);
      forall c | c in cache.cursors ensures cache.CursorOk(c) {
        assert old(cache.CursorOk(c));
      }
    }

    /** An answer about attribute `name` that direct evaluation confirms. A failure may also
        be that of the attribute itself, remembered by its row. */
    ghost predicate AttrAnswer(name: Symbol, r: Result<AttrCursor?, CacheError>)
      reads cache
    {
      match r
      case Ok(c) =>
        if c == null then !cache.world.node(path).FailsN? && !HasAttr(cache.world, path, name)
        else HasAttr(cache.world, path, name) && c in cache.cursors && c.path == path + [name]
      case Err(err) =>
        err == EvalFailed &&
        (cache.world.node(path).FailsN? || (HasAttr(cache.world, path, name) && cache.world.node(path + [name]).FailsN?))
    }

    /** The child `c` for `name` holds what its row says, or nothing yet. */
    ghost predicate Linked(name: Symbol, r: Result<AttrCursor?, CacheError>)
      reads this, cache, cache.db, if r.Ok? && r.value != null then {r.value} else {}
    {
      r.Ok? && r.value != null ==>
        var c := r.value;
        && cached.Some? && c.parent == this && c.name == name
        && (c.cached.None? || c.cached == Lookup(cache.db.rows, Key(cached.value.0, name)))
    }

    /** This cursor has not been overtaken: what it holds, if anything, is what its row says. */
    ghost predicate UpToDate()
      requires Ready()
      reads this, cache, cache.db, cache.cursors
    {
      cached.None? || cached == Lookup(cache.db.rows, GetKey())
    }

    /** The row of this cursor has the id that the cursor holds. */
    ghost predicate Anchored()
      requires Ready()
      reads this, cache, cache.db, cache.cursors
    {
      cached.Some? && GetKey() in cache.db.rows && cache.db.rows[GetKey()].id == cached.value.0
    }

    /** Neither this cursor nor `name` below it has a row that the cursor could use. */
    ghost predicate Unrecorded(name: Symbol)
      requires Ready()
      reads this, cache, cache.db, cache.cursors
    {
      if cached.None? then GetKey() !in cache.db.rows else Key(cached.value.0, name) !in cache.db.rows
    }

    /** The row for `name` below the id held says that the attribute fails. */
    ghost predicate FailureBelow(name: Symbol)
      requires cached.Some?
      reads this, cache, cache.db
    {
      Key(cached.value.0, name) in cache.db.rows && cache.db.rows[Key(cached.value.0, name)].value == Failed
    }

    /** What this cursor holds, else its row, is an incomplete set, and the row below it for
        `name` says that the attribute fails. */
    ghost predicate Remembers(name: Symbol)
      requires Ready()
      reads this, cache, cache.db, cache.cursors
    {
      var held := if cached.Some? then cached else Lookup(cache.db.rows, GetKey());
      && held.Some? && held.value.1 == CachedLeaf(Placeholder)
      && Key(held.value.0, name) in cache.db.rows && cache.db.rows[Key(held.value.0, name)].value == Failed
    }

    /** Answers from the row for `name` below this cursor's incomplete one, if there is one. */
    method FromRow(name: Symbol) returns (done: bool, r: Result<AttrCursor?, CacheError>)
      requires Ready() && cached.Some? && cached.value.1 == CachedLeaf(Placeholder)
      modifies cache
      ensures Ready() && old(cache.cursors) <= cache.cursors && fresh(cache.cursors - old(cache.cursors))
      ensures done ==> AttrAnswer(name, r) && Linked(name, r)
      ensures r.Err? <==> FailureBelow(name)
      ensures !done ==> cache.cursors == old(cache.cursors) && Key(cached.value.0, name) !in cache.db.rows
    {
      assert cache.CursorOk(this);
      var key := Key(cached.value.0, name);
      var row := cache.db.GetAttr(key);
      if row.None? {
        return false, Ok(null);
      }
      assert RowOk(cache.world, cache.db.trace, key, cache.db.rows[key]);
      assert (path + [name])[..|path|] == path;
      if row.value.1 == CachedLeaf(Missing) {
        return true, Ok(null);
      }
      if row.value.1 == CachedLeaf(Failed) {
        return true, Err(EvalFailed);
      }
      FetchedOk(cache.world, cache.db.rows, cache.db.lastId, cache.db.trace, key);
      var c := Child(name, row);
      return true, Ok(c);
    }

    /** Evaluates this cursor's value to see whether `name` exists. */
    method EvaluateAttr(name: Symbol) returns (r: Result<AttrCursor?, CacheError>)
      requires Ready() && (cached.Some? ==> cached.value.1 == CachedLeaf(Placeholder)) && Unrecorded(name)
      modifies this, cache, cache.db
      ensures Ready() && old(cache.cursors) <= cache.cursors && fresh(cache.cursors - old(cache.cursors))
      ensures AttrAnswer(name, r) && Linked(name, r) && (r.Err? <==> cache.world.node(path).FailsN?)
      ensures HasAttr(cache.world, path, name) ==>
        PlaceholdersAdded(old(cache.db.rows), old(cache.db.lastId), cache.db.rows, cache.db.lastId) && GetKey() == old(GetKey())
      ensures HasAttr(cache.world, path, name) ==> if old(cached).Some? then cached == old(cached) else Anchored()
    {
      var forced := ForceValue();
      if forced.Err? {
        return Err(EvalFailed);
      }
      if !forced.value.AttrsN? {
        return Ok(null);
      }
      if cached.None? {
        RecordSelf(name);
      }
      r := Record(name, forced.value.names);
    }

    /** Writes this cursor's own row, as an incomplete one. */
    method RecordSelf(ghost name: Symbol)
      requires Ready() && cached.None? && cache.world.node(path).AttrsN? && GetKey() !in cache.db.rows
      modifies this, cache.db
      ensures Ready() && cached.Some? && cached.value.1 == CachedLeaf(Placeholder) && Anchored() && Unrecorded(name)
      ensures PlaceholdersAdded(old(cache.db.rows), old(cache.db.lastId), cache.db.rows, cache.db.lastId) && GetKey() == old(GetKey())
    {
      ghost var rows, lastId, key := cache.db.rows, cache.db.lastId, GetKey();
      NoChildrenYet(cache.world, rows, lastId, cache.db.trace, lastId + 1, 0);
      OlderParent(cache.world, rows, lastId, cache.db.trace, key);
      NotListed(rows, lastId + 1, name);
      Store(Placeholder, Placeholder);
      RowAdded(rows, lastId, key);
    }

    /** Writes the row for `name` below this cursor's own, incomplete one. */
    method Record(name: Symbol, names: set<Symbol>) returns (r: Result<AttrCursor?, CacheError>)
      requires Ready() && cached.Some? && cached.value.1 == CachedLeaf(Placeholder) && cache.world.node(path) == AttrsN(names)
      requires Unrecorded(name)
      modifies cache, cache.db
      ensures Ready() && old(cache.cursors) <= cache.cursors && fresh(cache.cursors - old(cache.cursors))
      ensures AttrAnswer(name, r) && Linked(name, r) && r.Ok?
      ensures name in names ==>
        PlaceholdersAdded(old(cache.db.rows), old(cache.db.lastId), cache.db.rows, cache.db.lastId) && GetKey() == old(GetKey())
    {
      assert cache.CursorOk(this);
      ExistsChild(cache.world, path, name);
      assert (path + [name])[..|path|] == path;
      if name !in names {
        var _ := PutChild(name, Missing);
        return Ok(null);
      }
      var c := RecordChild(name);
      return Ok(c);
    }

    /** The new row is a placeholder, and the new cursor holds it. */
    method RecordChild(name: Symbol) returns (c: AttrCursor)
      requires Ready() && cached.Some? && cached.value.1 == CachedLeaf(Placeholder) && HasAttr(cache.world, path, name)
      requires Unrecorded(name)
      modifies cache, cache.db
      ensures Ready() && cache.cursors == old(cache.cursors) + {c} && fresh(c) && c.path == path + [name]
      ensures Linked(name, Ok(c)) && c.cached.Some? && c.cached.value.1 == CachedLeaf(Placeholder)
      ensures PlaceholdersAdded(old(cache.db.rows), old(cache.db.lastId), cache.db.rows, cache.db.lastId) && GetKey() == old(GetKey())
    {
      assert cache.CursorOk(this);
      ExistsChild(cache.world, path, name);
      RowAdded(cache.db.rows, cache.db.lastId, Key(cached.value.0, name));
      var id := PutChild(name, Placeholder);
      c := Child(name, Some((id, CachedLeaf(Placeholder))));
    }

    /** Answers from what this cursor holds, unless that is an incomplete set without the row. */
    method FromHeld(name: Symbol) returns (done: bool, r: Result<AttrCursor?, CacheError>)
      requires Ready() && cached.Some? && cached.value.1 != CachedLeaf(Failed)
      modifies cache
      ensures Ready() && old(cache.cursors) <= cache.cursors && fresh(cache.cursors - old(cache.cursors))
      ensures done ==> AttrAnswer(name, r) && Linked(name, r)
      ensures done ==> (r.Err? <==> cached.value.1 == CachedLeaf(Placeholder) && FailureBelow(name))
      ensures !done ==> !FailureBelow(name)
      ensures !done ==> cached.value.1 == CachedLeaf(Placeholder) && Unrecorded(name)
    {
      assert cache.CursorOk(this);
      match cached.value.1
      case CachedSet(names) =>
        if name !in names {
          return true, Ok(null);
        }
        var c := Child(name, None);
        return true, Ok(c);
      case CachedLeaf(Placeholder) =>
        done, r := FromRow(name);
      case CachedLeaf(_) =>
        return true, Ok(null);
    }

    /** The child cursor for `name`, or null when there is no such attribute. */
    method MaybeGetAttr(name: Symbol) returns (r: Result<AttrCursor?, CacheError>)
      requires Ready()
      modifies this, cache, cache.db
      ensures Ready() && old(cache.cursors) <= cache.cursors && fresh(cache.cursors - old(cache.cursors))
      ensures AttrAnswer(name, r) && Linked(name, r)
      ensures r.Err? <==> cache.world.node(path).FailsN? || old(Remembers(name))
      ensures HasAttr(cache.world, path, name) ==>
        PlaceholdersAdded(old(cache.db.rows), old(cache.db.lastId), cache.db.rows, cache.db.lastId) && GetKey() == old(GetKey())
      ensures HasAttr(cache.world, path, name) && old(UpToDate()) ==> Anchored()
    {
      var failed := FetchCachedValue();
      if failed {
        return Err(EvalFailed);
      }
      if cached.Some? {
        var done;
        done, r := FromHeld(name);
        if done {
          return r;
        }
      }
      r := EvaluateAttr(name);
    }

    /** What this cursor holds, else its row, unless that is incomplete. */
    ghost function Known(): Option<Cached>
      requires Ready()
      reads this, cache, cache.db, cache.cursors
    {
      Definite(if cached.Some? then cached else Lookup(cache.db.rows, GetKey()))
    }

    /** The value held in memory, after a look at the table, unless it is incomplete. */
    method FetchDefinite() returns (failed: bool, v: Option<Cached>)
      requires Ready()
      modifies this
      ensures Ready() && (failed ==> cache.world.node(path).FailsN? && v.None?)
      ensures v.Some? ==> Answers(cache.world, path, v.value)
      ensures old(Known()) == if failed then Some(CachedLeaf(Failed)) else v
      ensures GetKey() == old(GetKey())
      ensures v.None? && !failed ==> cached.None? || cached.value.1 == CachedLeaf(Placeholder)
      ensures old(cached).None? ==> cached == Lookup(cache.db.rows, GetKey())
    {
      failed := FetchCachedValue();
      v := if failed then None else Definite(cached);
      if v.Some? {
        assert cache.CursorOk(this);
        HeldAnswers(cache.world, cache.db.trace, path, cached.value);
      }
    }

    /** The attribute names; cached or evaluated, they are those of direct evaluation. */
    method GetAttrs() returns (r: Result<set<Symbol>, CacheError>)
      requires Ready()
      modifies this, cache.db
      ensures Ready() && r == DirectAttrs(cache.world, path)
    {
      var failed, v := FetchDefinite();
      if failed {
        return Err(EvalFailed);
      }
      if v.Some? {
        return AttrsIn(v.value);
      }
      r := EvaluateAttrs();
    }

    method EvaluateAttrs() returns (r: Result<set<Symbol>, CacheError>)
      requires Ready()
      modifies this, cache.db
      ensures Ready() && r == DirectAttrs(cache.world, path)
    {
      var forced := ForceValue();
      if forced.Err? {
        return Err(EvalFailed);
      }
      if !forced.value.AttrsN? {
        return Err(WrongType);
      }
      var attrs := Listing(forced.value.names);
      StoreAttrs(attrs, forced.value.names);
      return Ok(forced.value.names);
    }

    method StoreAttrs(attrs: seq<Symbol>, names: set<Symbol>)
      requires Ready() && cache.world.node(path) == AttrsN(names) && ToSet(attrs) == names
      modifies this, cache.db
      ensures Ready() && cached.Some? && cached.value.1 == CachedSet(names)
    {
      assert cache.CursorOk(this);
      var key := GetKey();
      var id := cache.db.SetAttrs(key, attrs);
      cached := Some((id, CachedSet(names)));
      forall c | c in cache.cursors ensures cache.CursorOk(c) {
        assert old(cache.CursorOk(c));
      }
    }

    method GetString() returns (r: Result<string, CacheError>)
      requires Ready()
      modifies this, cache.db
      ensures Ready() && r == DirectString(cache.world, path)
      ensures cache.world.node(path).FailsN? && old(Known()).None? ==>
        GetKey() == old(GetKey()) && cache.db.rows == old(cache.db.rows)[GetKey() := Row(cache.db.lastId, Failed)]
    {
      var failed, v := FetchDefinite();
      if failed {
        return Err(EvalFailed);
      }
      if v.Some? {
        return StringIn(v.value);
      }
      var forced := ForceValue();
      if forced.Err? {
        return Err(EvalFailed);
      }
      if !forced.value.StringN? {
        return Err(WrongType);
      }
      return Ok(forced.value.s);
    }

    method GetBool() returns (r: Result<bool, CacheError>)
      requires Ready()
      modifies this, cache.db
      ensures Ready() && r == DirectBool(cache.world, path)
    {
      var failed, v := FetchDefinite();
      if failed {
        return Err(EvalFailed);
      }
      if v.Some? {
        return BoolIn(v.value);
      }
      var forced := ForceValue();
      if forced.Err? {
        return Err(EvalFailed);
      }
      if !forced.value.BoolN? {
        return Err(WrongType);
      }
      return Ok(forced.value.b);
    }

    /** Exact up to the C `int` the table stores: a value held in memory or read from a row is
        answered as it is, and only without one the attribute is evaluated. */
    method GetInt() returns (r: Result<int, CacheError>)
      requires Ready()
      modifies this, cache.db
      ensures Ready() && IntAnswer(cache.world, path, r)
      ensures r == if old(Known()).Some? then IntIn(old(Known()).value) else DirectInt(cache.world, path)
      ensures cache.world.node(path).IntN? ==>
        GetKey() == old(GetKey())
        && cache.db.rows == if old(Known()).Some? then old(cache.db.rows)
                            else old(cache.db.rows)[GetKey() := Row(cache.db.lastId, Int(ToCInt(cache.world.node(path).i)))]
    {
      var failed, v := FetchDefinite();
      if failed {
        return Err(EvalFailed);
      }
      if v.Some? {
        return IntIn(v.value);
      }
      var forced := ForceValue();
      if forced.Err? {
        return Err(EvalFailed);
      }
      if !forced.value.IntN? {
        return Err(WrongType);
      }
      return Ok(forced.value.i);
    }

    /** The value of an attribute that fails, asked of an up-to-date cursor with no definite row:
        the failure is stored. */
    method GetFailure() returns (r: Result<string, CacheError>)
      requires Ready() && UpToDate() && cache.world.node(path).FailsN? && Definite(Lookup(cache.db.rows, GetKey())).None?
      modifies this, cache.db
      ensures Ready() && r == Err(EvalFailed)
      ensures GetKey() == old(GetKey()) && cache.db.rows == old(cache.db.rows)[GetKey() := Row(cache.db.lastId, Failed)]
    {
      assert Known() == Definite(Lookup(cache.db.rows, GetKey()));
      r := GetString();
    }

    /** The same for an up-to-date cursor at an integer: the row alone decides. */
    method GetFreshInt() returns (r: Result<int, CacheError>)
      requires Ready() && UpToDate() && cache.world.node(path).IntN?
      modifies this, cache.db
      ensures Ready() && GetKey() == old(GetKey())
      ensures
        var held := Definite(Lookup(old(cache.db.rows), GetKey()));
        if held.Some? then r == IntIn(held.value) && cache.db.rows == old(cache.db.rows)
        else
          r == Ok(cache.world.node(path).i)
          && cache.db.rows == old(cache.db.rows)[GetKey() := Row(cache.db.lastId, Int(ToCInt(cache.world.node(path).i)))]
    {
      assert Known() == Definite(Lookup(cache.db.rows, GetKey()));
      r := GetInt();
    }
  }

  const ROOT := Key(0, EPSILON)

  /** The key that the rows lead to for path `p`, if they reach that far. */
  function KeyAt(rows: Rows, p: Path): Option<Key> {
    if p == [] then Some(ROOT)
    else match KeyAt(rows, p[..|p| - 1])
      case None => None
      case Some(key) => if key in rows then Some(Key(rows[key].id, p[|p| - 1])) else None
  }

  lemma {:induction false} KeyAtOk(w: World, rows: Rows, lastId: nat, t: Trace, p: Path)
    requires TableOk(w, rows, lastId, t, 0) && KeyAt(rows, p).Some?
    ensures KeyOk(t, KeyAt(rows, p).value) && KeyPath(t, KeyAt(rows, p).value) == p
  {
    if p != [] {
      var above, name := p[..|p| - 1], p[|p| - 1];
      KeyAtOk(w, rows, lastId, t, above);
      KeyBelowOk(w, rows, lastId, t, KeyAt(rows, above).value, name, above);
      assert p == above + [name];
    }
  }

  lemma KeyBelowOk(w: World, rows: Rows, lastId: nat, t: Trace, key: Key, name: Symbol, p: Path)
    requires TableOk(w, rows, lastId, t, 0) && key in rows && KeyOk(t, key) && KeyPath(t, key) == p
    ensures KeyOk(t, Key(rows[key].id, name)) && KeyPath(t, Key(rows[key].id, name)) == p + [name]
  {
    assert RowOk(w, t, key, rows[key]);
  }

  lemma {:induction false} KeyAtGrows(rows: Rows, rows': Rows, p: Path)
    requires forall key :: key in rows ==> key in rows' && rows'[key] == rows[key]
    ensures KeyAt(rows, p).Some? ==> KeyAt(rows', p) == KeyAt(rows, p)
  {
    if p != [] { KeyAtGrows(rows, rows', p[..|p| - 1]); }
  }

  /** Where the rows did not lead before, the key is new too. */
  lemma {:induction false} KeyAtNew(rows: Rows, lastId: nat, rows': Rows, lastId': nat, p: Path)
    requires PlaceholdersAdded(rows, lastId, rows', lastId') && (forall key :: key in rows ==> key.parent <= lastId)
    ensures KeyAt(rows, p).None? && KeyAt(rows', p).Some? ==> KeyAt(rows', p).value.parent > lastId
  {
    if p != [] {
      KeyAtNew(rows, lastId, rows', lastId', p[..|p| - 1]);
      KeyAtGrows(rows, rows', p[..|p| - 1]);
    }
  }

  /** Adding placeholders changes what is stored only where nothing was. */
  lemma StoredKept(w: World, rows: Rows, lastId: nat, t: Trace, rows': Rows, lastId': nat, p: Path)
    requires TableOk(w, rows, lastId, t, 0) && PlaceholdersAdded(rows, lastId, rows', lastId')
    ensures Stored(rows', p) == Stored(rows, p) || (Stored(rows, p).None? && Stored(rows', p) == Some(Placeholder))
  {
    forall key | key in rows ensures key.parent <= lastId { assert RowOk(w, t, key, rows[key]); }
    KeyAtNew(rows, lastId, rows', lastId', p);
    KeyAtGrows(rows, rows', p);
  }

  lemma AddedTwice(rows: Rows, lastId: nat, rows1: Rows, lastId1: nat, rows2: Rows, lastId2: nat)
    requires PlaceholdersAdded(rows, lastId, rows1, lastId1) && PlaceholdersAdded(rows1, lastId1, rows2, lastId2)
    ensures PlaceholdersAdded(rows, lastId, rows2, lastId2)
  {}

  /** A row written for path `p` is on the way to no path that is not longer. */
  lemma {:induction false} KeyAtKept(w: World, rows: Rows, lastId: nat, t: Trace, key: Key, row: Row, p: Path, q: Path)
    requires TableOk(w, rows, lastId, t, 0) && KeyOk(t, key) && KeyPath(t, key) == p && |q| <= |p|
    ensures KeyAt(rows[key := row], q) == KeyAt(rows, q)
  {
    if q != [] {
      var above := q[..|q| - 1];
      KeyAtKept(w, rows, lastId, t, key, row, p, above);
      if KeyAt(rows, above).Some? { KeyAtOk(w, rows, lastId, t, above); }
    }
  }

  /** What is stored for path `p`, if anything is. */
  function Stored(rows: Rows, p: Path): Option<RowValue> {
    match KeyAt(rows, p)
    case None => None
    case Some(key) => if key in rows then Some(rows[key].value) else None
  }

  /** The integer stored for path `p`, if one is. */
  function StoredInt(rows: Rows, p: Path): Option<int> {
    match Stored(rows, p) case Some(Int(i)) => Some(i) case _ => None
  }

  ghost predicate PathToInt(w: World, p: Path) {
    Exists(w, p) && w.node(p).IntN?
  }

  /** One step down from a cursor that the rows lead to: the failure that the rows remember, or
      else a cursor for the attribute. */
  method StepTo(c: AttrCursor, name: Symbol) returns (r: Result<AttrCursor, CacheError>)
    requires c.Ready() && c.UpToDate() && KeyAt(c.cache.db.rows, c.path) == Some(c.GetKey()) && HasAttr(c.cache.world, c.path, name)
    modifies c, c.cache, c.cache.db
    ensures c.cache.Valid() && old(c.cache.cursors) <= c.cache.cursors && fresh(c.cache.cursors - old(c.cache.cursors))
    ensures r.Err? ==> r.error == EvalFailed
    ensures r.Err? <==> old(Stored(c.cache.db.rows, c.path)) == Some(Placeholder) && old(Stored(c.cache.db.rows, c.path + [name])) == Some(Failed)
    ensures r.Ok? ==>
      && r.value in c.cache.cursors && r.value.cache == c.cache && r.value.path == c.path + [name]
      && r.value.Ready() && r.value.UpToDate() && KeyAt(c.cache.db.rows, r.value.path) == Some(r.value.GetKey())
    ensures PlaceholdersAdded(old(c.cache.db.rows), old(c.cache.db.lastId), c.cache.db.rows, c.cache.db.lastId)
  {
    ghost var before := c.cache.db.rows;
    ExistsChildOfCursor(c);
    StoredBelow(before, c.path, name, c.GetKey());
    var found := c.MaybeGetAttr(name);
    if found.Err? { return Err(found.error); }
    r := Ok(found.value);
    assert c.cache.CursorOk(found.value);
    KeyAtGrows(before, c.cache.db.rows, c.path);
    assert (c.path + [name])[..|c.path|] == c.path;
  }

  lemma ExistsChildOfCursor(c: AttrCursor)
    requires c.Ready()
    ensures Exists(c.cache.world, c.path)
  {
    assert c.cache.CursorOk(c);
  }

  lemma StoredBelow(rows: Rows, p: Path, name: Symbol, key: Key)
    requires KeyAt(rows, p) == Some(key)
    ensures Stored(rows, p) == if key in rows then Some(rows[key].value) else None
    ensures Stored(rows, p + [name])
         == if key in rows && Key(rows[key].id, name) in rows then Some(rows[Key(rows[key].id, name)].value) else None
  {
    assert (p + [name])[..|p|] == p;
  }

  /** The rows lead to the cursor `c` at path `p`, and it is up to date with them. */
  ghost predicate Reached(cache: Cache, c: AttrCursor, p: Path)
    reads cache, cache.db, cache.cursors, c
  {
    && cache.Valid() && c in cache.cursors && c.cache == cache && c.path == p
    && c.Ready() && c.UpToDate() && KeyAt(cache.db.rows, p) == Some(c.GetKey())
  }

  method StepAlong(cache: Cache, c: AttrCursor, p: Path, k: nat) returns (d: AttrCursor)
    requires k < |p| && Exists(cache.world, p) && !cache.world.node(p[..k + 1]).FailsN? && Reached(cache, c, p[..k])
    modifies cache, cache.db, cache.cursors
    ensures Reached(cache, d, p[..k + 1]) && fresh(cache.cursors - old(cache.cursors))
    ensures PlaceholdersAdded(old(cache.db.rows), old(cache.db.lastId), cache.db.rows, cache.db.lastId)
  {
    PathStep(cache.world, p, k);
    ExistingNotFailed(cache.world, cache.db.rows, cache.db.lastId, cache.db.trace, p[..k + 1]);
    var r := StepTo(c, p[k]);
    d := r.value;
  }

  /** A failure is only stored for what fails. */
  lemma ExistingNotFailed(w: World, rows: Rows, lastId: nat, t: Trace, p: Path)
    requires TableOk(w, rows, lastId, t, 0) && !w.node(p).FailsN?
    ensures Stored(rows, p) != Some(Failed)
  {
    if Stored(rows, p).Some? {
      KeyAtOk(w, rows, lastId, t, p);
      var key := KeyAt(rows, p).value;
      assert RowOk(w, t, key, rows[key]);
    }
  }

  /** `findAlongAttrPath`, from a new root cursor down to path `p`. */
  method FindAlongAttrPath(cache: Cache, p: Path) returns (c: AttrCursor)
    requires cache.Valid() && Exists(cache.world, p) && !cache.world.node(p).FailsN?
    modifies cache, cache.db, cache.cursors
    ensures Reached(cache, c, p) && fresh(cache.cursors - old(cache.cursors))
    ensures PlaceholdersAdded(old(cache.db.rows), old(cache.db.lastId), cache.db.rows, cache.db.lastId)
  {
    c := cache.GetRoot();
    var k := 0;
    while k < |p|
      invariant 0 <= k <= |p|
      invariant Reached(cache, c, p[..k]) && fresh(cache.cursors - old(cache.cursors))
      invariant PlaceholdersAdded(old(cache.db.rows), old(cache.db.lastId), cache.db.rows, cache.db.lastId)
    {
      NoFailureAbove(cache.world, p, k + 1);
      ghost var rows, lastId := cache.db.rows, cache.db.lastId;
      c := StepAlong(cache, c, p, k);
      AddedTwice(old(cache.db.rows), old(cache.db.lastId), rows, lastId, cache.db.rows, cache.db.lastId);
      k := k + 1;
    }
    assert p[..k] == p;
  }

  lemma NoFailureAbove(w: World, p: Path, k: nat)
    requires Exists(w, p) && !w.node(p).FailsN? && k <= |p|
    ensures !w.node(p[..k]).FailsN?
  {
    if k < |p| { PathStep(w, p, k); } else { assert p[..k] == p; }
  }

  lemma {:induction false} PathStep(w: World, p: Path, k: nat)
    requires Exists(w, p) && k < |p|
    ensures HasAttr(w, p[..k], p[k]) && p[..k + 1] == p[..k] + [p[k]] && Exists(w, p[..k])
    decreases |p|
  {
    var above := p[..|p| - 1];
    if k < |above| {
      PathStep(w, above, k);
      assert above[..k] == p[..k] && above[..k + 1] == p[..k + 1];
    }
  }

  /** A client follows path `p` and asks for the integer there: what is stored is answered as
      it is; otherwise the answer is exact. From then on the C `int` is stored. */
  method ReadInt(cache: Cache, p: Path) returns (r: Result<int, CacheError>)
    requires cache.Valid() && PathToInt(cache.world, p)
    modifies cache, cache.db, cache.cursors
    ensures cache.Valid() && fresh(cache.cursors - old(cache.cursors))
    ensures r == match StoredInt(old(cache.db.rows), p) case Some(i) => Ok(i) case None => DirectInt(cache.world, p)
    ensures StoredInt(cache.db.rows, p) == Some(ToCInt(cache.world.node(p).i))
  {
    ghost var before, lastId, trace := cache.db.rows, cache.db.lastId, cache.db.trace;
    var c := FindAlongAttrPath(cache, p);
    StoredKept(cache.world, before, lastId, trace, cache.db.rows, cache.db.lastId, p);
    r := AskInt(cache, c, p);
  }

  method AskInt(cache: Cache, c: AttrCursor, p: Path) returns (r: Result<int, CacheError>)
    requires Reached(cache, c, p) && cache.world.node(p).IntN?
    modifies c, cache.db
    ensures cache.Valid() && cache.cursors == old(cache.cursors)
    ensures IntRead(cache.world, old(cache.db.rows), p, cache.db.rows, r)
  {
    ghost var rows, lastId, trace, key := cache.db.rows, cache.db.lastId, cache.db.trace, c.GetKey();
    r := c.GetFreshInt();
    IntOutcome(cache.world, rows, lastId, trace, key, p, cache.db.lastId, cache.db.rows, r);
  }

  ghost predicate IntRead(w: World, rows: Rows, p: Path, rows': Rows, r: Result<int, CacheError>) {
    && r == (match StoredInt(rows, p) case Some(i) => Ok(i) case None => DirectInt(w, p))
    && w.node(p).IntN? && StoredInt(rows', p) == Some(ToCInt(w.node(p).i))
  }

  lemma IntOutcome(w: World, rows: Rows, lastId: nat, t: Trace, key: Key, p: Path, id: nat, rows': Rows, r: Result<int, CacheError>)
    requires TableOk(w, rows, lastId, t, 0) && KeyAt(rows, p) == Some(key) && PathToInt(w, p)
    requires
      var held := Definite(Lookup(rows, key));
      if held.Some? then r == IntIn(held.value) && rows' == rows
      else r == Ok(w.node(p).i) && rows' == rows[key := Row(id, Int(ToCInt(w.node(p).i)))]
    ensures IntRead(w, rows, p, rows', r)
  {
    HeldForInt(w, rows, lastId, t, key, p);
    WrittenInt(w, rows, lastId, t, key, Row(id, Int(ToCInt(w.node(p).i))), p);
  }

  /** What is held for an integer: the C `int` its row has, or nothing definite. */
  lemma HeldForInt(w: World, rows: Rows, lastId: nat, t: Trace, key: Key, p: Path)
    requires TableOk(w, rows, lastId, t, 0) && KeyAt(rows, p) == Some(key) && PathToInt(w, p)
    ensures Definite(Lookup(rows, key)) == match StoredInt(rows, p) case Some(i) => Some(CachedLeaf(Int(i))) case None => None
    ensures StoredInt(rows, p).Some? ==> StoredInt(rows, p).value == ToCInt(w.node(p).i)
  {
    KeyAtOk(w, rows, lastId, t, p);
    if key in rows { RowOfInt(w, t, key, rows[key], p); }
  }

  lemma RowOfInt(w: World, t: Trace, key: Key, row: Row, p: Path)
    requires RowOk(w, t, key, row) && KeyPath(t, key) == p && PathToInt(w, p)
    ensures row.value == Placeholder || row.value == Int(ToCInt(w.node(p).i))
  {}

  lemma WrittenInt(w: World, rows: Rows, lastId: nat, t: Trace, key: Key, row: Row, p: Path)
    requires TableOk(w, rows, lastId, t, 0) && KeyAt(rows, p) == Some(key) && row.value.Int?
    ensures StoredInt(rows[key := row], p) == Some(row.value.i)
  {
    KeyAtOk(w, rows, lastId, t, p);
    KeyAtKept(w, rows, lastId, t, key, row, p, p);
  }

  lemma ExactWhenFits(i: int)
    ensures ToCInt(i) == i <==> FitsCInt(i)
  {}

  /** Two clients ask for the same integer, one after the other, of a cache that holds none for
      it: the first answer is exact, the second went through a C `int` and is exact if and only
      if the integer fits one. */
  method ReadTwice(cache: Cache, p: Path) returns (first: Result<int, CacheError>, second: Result<int, CacheError>)
    requires cache.Valid() && PathToInt(cache.world, p) && StoredInt(cache.db.rows, p).None?
    modifies cache, cache.db, cache.cursors
    ensures first == DirectInt(cache.world, p)
    ensures second == Ok(ToCInt(cache.world.node(p).i))
    ensures second == DirectInt(cache.world, p) <==> FitsCInt(cache.world.node(p).i)
  {
    first := ReadInt(cache, p);
    second := ReadInt(cache, p);
    ExactWhenFits(cache.world.node(p).i);
  }

  /** A new cache of any world with an integer anywhere. */
  method ReadTwiceAfresh(w: World, p: Path) returns (first: Result<int, CacheError>, second: Result<int, CacheError>)
    requires !w.node([]).FailsN? && PathToInt(w, p)
    ensures first == DirectInt(w, p)
    ensures second == Ok(ToCInt(w.node(p).i))
    ensures second == DirectInt(w, p) <==> FitsCInt(w.node(p).i)
  {
    var cache := new Cache(w);
    first, second := ReadTwice(cache, p);
  }

  const X: Symbol := 7

  /** `{ x = 2147483648; }` read twice. */
  method SecondReadIsTruncated() returns (first: Result<int, CacheError>, second: Result<int, CacheError>)
    ensures first == Ok(0x8000_0000) && second == Ok(-0x8000_0000)
  {
    var w := World(p => if p == [] then AttrsN({X}) else if p == [X] then IntN(0x8000_0000) else FailsN);
    assert [X][..0] == [];
    first, second := ReadTwiceAfresh(w, [X]);
  }

  // ---- attributes that fail ----

  /** A new client goes to path `p` and asks for attribute `name` there. It gets the failure
      exactly when one is stored for the attribute below an incomplete set. */
  method AskAttr(cache: Cache, p: Path, name: Symbol) returns (r: Result<AttrCursor, CacheError>)
    requires cache.Valid() && Exists(cache.world, p) && HasAttr(cache.world, p, name)
    modifies cache, cache.db, cache.cursors
    ensures cache.Valid() && fresh(cache.cursors - old(cache.cursors))
    ensures r.Err? <==> Stored(old(cache.db.rows), p) == Some(Placeholder) && Stored(old(cache.db.rows), p + [name]) == Some(Failed)
    ensures r.Err? ==> r.error == EvalFailed
    ensures r.Ok? ==> Reached(cache, r.value, p + [name])
    ensures PlaceholdersAdded(old(cache.db.rows), old(cache.db.lastId), cache.db.rows, cache.db.lastId)
  {
    ghost var rows, lastId, trace := cache.db.rows, cache.db.lastId, cache.db.trace;
    var c := FindAlongAttrPath(cache, p);
    ghost var rows1, lastId1 := cache.db.rows, cache.db.lastId;
    FailureKept(cache.world, rows, lastId, trace, rows1, lastId1, p, name);
    r := StepTo(c, name);
    AddedTwice(rows, lastId, rows1, lastId1, cache.db.rows, cache.db.lastId);
  }

  lemma FailureKept(w: World, rows: Rows, lastId: nat, t: Trace, rows': Rows, lastId': nat, p: Path, name: Symbol)
    requires TableOk(w, rows, lastId, t, 0) && PlaceholdersAdded(rows, lastId, rows', lastId')
    ensures Stored(rows', p) == Some(Placeholder) && Stored(rows', p + [name]) == Some(Failed)
      <==> Stored(rows, p) == Some(Placeholder) && Stored(rows, p + [name]) == Some(Failed)
  {
    StoredKept(w, rows, lastId, t, rows', lastId', p);
    StoredKept(w, rows, lastId, t, rows', lastId', p + [name]);
    assert (p + [name])[..|p|] == p;
  }

  /** The client asks an up-to-date cursor for the value of an attribute that fails. */
  method AskFailing(cache: Cache, c: AttrCursor, p: Path, name: Symbol) returns (r: Result<string, CacheError>)
    requires Reached(cache, c, p + [name]) && cache.world.node(p + [name]).FailsN?
    requires Stored(cache.db.rows, p) == Some(Placeholder)
    requires Stored(cache.db.rows, p + [name]).None? || Stored(cache.db.rows, p + [name]) == Some(Placeholder)
    modifies c, cache.db
    ensures cache.Valid() && cache.cursors == old(cache.cursors) && r == Err(EvalFailed)
    ensures Stored(cache.db.rows, p) == Some(Placeholder) && Stored(cache.db.rows, p + [name]) == Some(Failed)
  {
    ghost var rows, lastId, trace, key := cache.db.rows, cache.db.lastId, cache.db.trace, c.GetKey();
    r := c.GetFailure();
    WrittenFailure(cache.world, rows, lastId, trace, key, Row(cache.db.lastId, Failed), p, name);
  }

  lemma WrittenFailure(w: World, rows: Rows, lastId: nat, t: Trace, key: Key, row: Row, p: Path, name: Symbol)
    requires TableOk(w, rows, lastId, t, 0) && KeyAt(rows, p + [name]) == Some(key)
    ensures Stored(rows[key := row], p + [name]) == Some(row.value) && Stored(rows[key := row], p) == Stored(rows, p)
  {
    var all := p + [name];
    KeyAtOk(w, rows, lastId, t, all);
    KeyAtKept(w, rows, lastId, t, key, row, all, all);
    KeyAtKept(w, rows, lastId, t, key, row, all, p);
    if KeyAt(rows, p).Some? { KeyAtOk(w, rows, lastId, t, p); }
  }

  /** An attribute that fails, in a cache that stores nothing definite for it and its set: the
      first client gets a cursor for it, and the failure only when it asks for the value; from
      then on a client gets the failure when it asks for the attribute. */
  method FailureIsRemembered(cache: Cache, p: Path, name: Symbol)
      returns (first: Result<AttrCursor, CacheError>, value: Result<string, CacheError>, second: Result<AttrCursor, CacheError>)
    requires cache.Valid() && Exists(cache.world, p) && HasAttr(cache.world, p, name) && cache.world.node(p + [name]).FailsN?
    requires Stored(cache.db.rows, p).None? || Stored(cache.db.rows, p) == Some(Placeholder)
    requires Stored(cache.db.rows, p + [name]).None? || Stored(cache.db.rows, p + [name]) == Some(Placeholder)
    modifies cache, cache.db, cache.cursors
    ensures first.Ok? && value == Err(EvalFailed) && second == Err(EvalFailed)
  {
    ghost var rows, lastId, trace := cache.db.rows, cache.db.lastId, cache.db.trace;
    first := AskAttr(cache, p, name);
    StoredKept(cache.world, rows, lastId, trace, cache.db.rows, cache.db.lastId, p);
    StoredKept(cache.world, rows, lastId, trace, cache.db.rows, cache.db.lastId, p + [name]);
    assert (p + [name])[..|p|] == p;
    value := AskFailing(cache, first.value, p, name);
    second := AskAttr(cache, p, name);
  }

  /** A new cache of any world with an attribute that fails. */
  method FailureIsRememberedAfresh(w: World, p: Path, name: Symbol)
      returns (first: Result<AttrCursor, CacheError>, value: Result<string, CacheError>, second: Result<AttrCursor, CacheError>)
    requires !w.node([]).FailsN? && Exists(w, p) && HasAttr(w, p, name) && w.node(p + [name]).FailsN?
    ensures first.Ok? && value == Err(EvalFailed) && second == Err(EvalFailed)
  {
    var cache := new Cache(w);
    first, value, second := FailureIsRemembered(cache, p, name);
  }

  // The order of names is not modelled.
  method Listing(names: set<Symbol>) returns (xs: seq<Symbol>)
    ensures ToSet(xs) == names
  {
    xs := [];
    var rest := names;
    while rest != {}
      invariant rest <= names && ToSet(xs) == names - rest
      decreases rest
    {
      var x :| x in rest;
      ghost var before := xs;
      xs := xs + [x];
      assert ToSet(xs) == ToSet(before) + {x};
      rest := rest - {x};
    }
  }

  // What a client may do: open a root cursor, or ask the c-th cursor opened so far.
  datatype Step = OpenRoot | AskAttr(c: nat, name: Symbol) | AskAttrs(c: nat) | AskString(c: nat) | AskBool(c: nat) | AskInt(c: nat)

  datatype Answer =
    | Opened
    | NoSuchAttr
    | Attrs(attrs: Result<set<Symbol>, CacheError>)
    | Str(str: Result<string, CacheError>)
    | Boolean(boolean: Result<bool, CacheError>)
    | Integer(integer: Result<int, CacheError>)
    | Failure(err: CacheError)
    | NoCursor

  /** The paths of the cursors opened by the first k steps, in order. */
  function Opens(steps: seq<Step>, answers: seq<Answer>, k: nat): seq<Path>
    requires k <= |steps| && k <= |answers|
  {
    if k == 0 then []
    else
      AfterStep(Opens(steps, answers, k - 1), steps[k - 1], answers[k - 1])
  }

  function AfterStep(ps: seq<Path>, step: Step, a: Answer): seq<Path> {
    if a != Opened then ps
    else match step
      case OpenRoot => ps + [[]]
      case AskAttr(c, name) => if c < |ps| then ps + [ps[c] + [name]] else ps
      case _ => ps
  }

  /** The answer is the one direct evaluation gives at the path of the cursor asked. */
  ghost predicate Agrees(w: World, ps: seq<Path>, step: Step, a: Answer) {
    if step.OpenRoot? then a == Opened
    else if step.c >= |ps| then a == NoCursor
    else
      var p := ps[step.c];
      match step
      case AskAttr(_, name) =>
        (match a
         case Opened => HasAttr(w, p, name)
         case NoSuchAttr => !w.node(p).FailsN? && !HasAttr(w, p, name)
         case Failure(err) => err == EvalFailed && (w.node(p).FailsN? || (HasAttr(w, p, name) && w.node(p + [name]).FailsN?))
         case _ => false)
      case AskAttrs(_) => a == Attrs(DirectAttrs(w, p))
      case AskString(_) => a == Str(DirectString(w, p))
      case AskBool(_) => a == Boolean(DirectBool(w, p))
      case AskInt(_) => a.Integer? && IntAnswer(w, p, a.integer)
  }

  ghost predicate PoolOk(cache: Cache, pool: seq<AttrCursor>, ps: seq<Path>)
    reads cache
  {
    |pool| == |ps| && forall i :: 0 <= i < |pool| ==> pool[i] in cache.cursors && pool[i].path == ps[i]
  }

  method Take(cache: Cache, pool: seq<AttrCursor>, step: Step, ghost ps: seq<Path>) returns (a: Answer, newCursor: AttrCursor?)
    requires cache.Valid() && PoolOk(cache, pool, ps)
    modifies cache, cache.db, cache.cursors
    ensures cache.Valid() && old(cache.cursors) <= cache.cursors && fresh(cache.cursors - old(cache.cursors))
    ensures Agrees(cache.world, ps, step, a)
    ensures (newCursor != null) == (a == Opened)
    ensures newCursor != null ==> newCursor in cache.cursors && !step.AskAttrs? && !step.AskString? && !step.AskBool? && !step.AskInt?
    ensures newCursor != null && step.OpenRoot? ==> newCursor.path == []
    ensures newCursor != null && step.AskAttr? ==> step.c < |ps| && newCursor.path == ps[step.c] + [step.name]
  {
    newCursor := null;
    if step.OpenRoot? {
      newCursor := cache.GetRoot();
      return Opened, newCursor;
    }
    if step.c >= |pool| {
      return NoCursor, null;
    }
    var cursor := pool[step.c];
    assert cache.CursorOk(cursor);
    match step
    case AskAttr(_, name) =>
      var r := cursor.MaybeGetAttr(name);
      if r.Err? {
        return Failure(r.error), null;
      }
      if r.value == null {
        return NoSuchAttr, null;
      }
      return Opened, r.value;
    case AskAttrs(_) => var r := cursor.GetAttrs(); return Attrs(r), null;
    case AskString(_) => var r := cursor.GetString(); return Str(r), null;
    case AskBool(_) => var r := cursor.GetBool(); return Boolean(r), null;
    case AskInt(_) => var r := cursor.GetInt(); return Integer(r), null;
  }

  ghost predicate AllAgree(w: World, steps: seq<Step>, answers: seq<Answer>)
    requires |answers| <= |steps|
  {
    forall k :: 0 <= k < |answers| ==> AgreesAt(w, steps, answers, k)
  }

  ghost predicate AgreesAt(w: World, steps: seq<Step>, answers: seq<Answer>, k: nat)
    requires k < |answers| <= |steps|
  {
    Agrees(w, Opens(steps, answers, k), steps[k], answers[k])
  }

  /** If the integers of a world fit a C `int`, every answer of every run is exact; only then,
      as `ReadTwiceAfresh` shows for any integer of the world. */
  lemma AnswersExactWhenIntsFit(w: World, steps: seq<Step>, answers: seq<Answer>, k: nat)
    requires |answers| <= |steps| && AllAgree(w, steps, answers) && k < |answers|
    requires forall p :: PathToInt(w, p) ==> FitsCInt(w.node(p).i)
    ensures steps[k].AskInt? && steps[k].c < |Opens(steps, answers, k)| ==>
      answers[k] == Integer(DirectInt(w, Opens(steps, answers, k)[steps[k].c]))
  {
    assert AgreesAt(w, steps, answers, k);
    OpenPathsExist(w, steps, answers, k);
    if steps[k].AskInt? && steps[k].c < |Opens(steps, answers, k)| {
      var p := Opens(steps, answers, k)[steps[k].c];
      assert PathToInt(w, p) ==> FitsCInt(w.node(p).i);
    }
  }

  /** Cursors are only ever opened at paths that exist. */
  lemma {:induction false} OpenPathsExist(w: World, steps: seq<Step>, answers: seq<Answer>, k: nat)
    requires k <= |answers| <= |steps| && AllAgree(w, steps, answers)
    ensures forall i :: 0 <= i < |Opens(steps, answers, k)| ==> Exists(w, Opens(steps, answers, k)[i])
  {
    if k > 0 {
      OpenPathsExist(w, steps, answers, k - 1);
      assert AgreesAt(w, steps, answers, k - 1);
      var ps, step := Opens(steps, answers, k - 1), steps[k - 1];
      if step.AskAttr? && step.c < |ps| && w.node(ps[step.c]).AttrsN? { ExistsChild(w, ps[step.c], step.name); }
    }
  }

  lemma {:induction false} OpensPrefix(steps: seq<Step>, answers: seq<Answer>, a: Answer, k: nat)
    requires k <= |answers| < |steps|
    ensures Opens(steps, answers + [a], k) == Opens(steps, answers, k)
  {
    if k > 0 { OpensPrefix(steps, answers, a, k - 1); }
  }

  lemma AgreeSnoc(w: World, steps: seq<Step>, answers: seq<Answer>, a: Answer)
    requires |answers| < |steps| && AllAgree(w, steps, answers)
    requires Agrees(w, Opens(steps, answers, |answers|), steps[|answers|], a)
    ensures AllAgree(w, steps, answers + [a])
  {
    var longer := answers + [a];
    forall k | 0 <= k < |longer| ensures AgreesAt(w, steps, longer, k) {
      OpensPrefix(steps, answers, a, k);
      if k < |answers| {
        assert AgreesAt(w, steps, answers, k) && longer[k] == answers[k];
      }
    }
  }

  method Advance(cache: Cache, pool: seq<AttrCursor>, steps: seq<Step>, answers: seq<Answer>) returns (a: Answer, pool': seq<AttrCursor>)
    requires |answers| < |steps|
    requires cache.Valid() && PoolOk(cache, pool, Opens(steps, answers, |answers|))
    modifies cache, cache.db, cache.cursors
    ensures cache.Valid() && fresh(cache.cursors - old(cache.cursors))
    ensures Agrees(cache.world, Opens(steps, answers, |answers|), steps[|answers|], a)
    ensures PoolOk(cache, pool', Opens(steps, answers + [a], |answers| + 1))
  {
    var newCursor;
    a, newCursor := Take(cache, pool, steps[|answers|], Opens(steps, answers, |answers|));
    OpensPrefix(steps, answers, a, |answers|);
    pool' := if newCursor == null then pool else pool + [newCursor];
  }

  /** Any number of cursors taking any steps in any order: every answer agrees with direct
      evaluation, and the table stays sound. */
  method Run(cache: Cache, steps: seq<Step>) returns (answers: seq<Answer>)
    requires cache.Valid()
    modifies cache, cache.db, cache.cursors
    ensures cache.Valid() && |answers| == |steps| && AllAgree(cache.world, steps, answers)
  {
    answers := [];
    var pool: seq<AttrCursor> := [];
    while |answers| < |steps|
      invariant |answers| <= |steps|
      invariant cache.Valid() && fresh(cache.cursors - old(cache.cursors))
      invariant PoolOk(cache, pool, Opens(steps, answers, |answers|))
      invariant AllAgree(cache.world, steps, answers)
    {
      var a;
      a, pool := Advance(cache, pool, steps, answers);
      AgreeSnoc(cache.world, steps, answers, a);
      answers := answers + [a];
    }
  }
}

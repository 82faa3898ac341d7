/** `JSONSax`: a stack machine that turns parser events into a value.

    The nested conversion of a JSON tree (objects as in section 4 of RFC 8259) is the
    reference; the machine is shown to build the same value in the slot it is given. */
module JsonSax {
  import opened Wrappers

  type Cell = nat

  datatype Member = Member(key: string, value: Json)

  datatype Json =
    | JNull
    | JBool(flag: bool)
    | JInteger(i: int)
    | JUnsigned(n: nat)
    | JFloat(f: real)
    | JString(text: string)
    | JArray(elems: List<Json>)
    | JObject(members: List<Member>)

  datatype Event =
    | NullE
    | BoolE(flag: bool)
    | IntegerE(i: int)
    | UnsignedE(n: nat)
    | FloatE(f: real)
    | StringE(text: string)
    | StartObject
    | KeyE(name: string)
    | EndObject
    | StartArray
    | EndArray

  datatype Error = NullByte | OutOfRange(n: nat) | Unbalanced | NoObject

  const INT_MAX: nat := 0x7fff_ffff_ffff_ffff

  predicate HasNullByte(s: string) {
    '\0' in s
  }

  // ---- the nested conversion ----

  datatype Tree =
    | TNull
    | TBool(flag: bool)
    | TInt(i: int)
    | TFloat(f: real)
    | TString(text: string)
    | TList(elems: seq<Tree>)
    | TAttrs(attrs: map<string, Tree>)

  function Convert(j: Json): Result<Tree, Error> {
    match j
    case JNull => Ok(TNull)
    case JBool(b) => Ok(TBool(b))
    case JInteger(i) => Ok(TInt(i))
    case JUnsigned(n) => if n > INT_MAX then Err(OutOfRange(n)) else Ok(TInt(n))
    case JFloat(f) => Ok(TFloat(f))
    case JString(s) => if HasNullByte(s) then Err(NullByte) else Ok(TString(s))
    case JArray(elems) =>
      var ts :- ConvertElems(elems);
      Ok(TList(ts))
    case JObject(members) =>
      var m :- ConvertMembers(members, map[]);
      Ok(TAttrs(m))
  }

  function ConvertElems(elems: List<Json>): Result<seq<Tree>, Error> {
    match elems
    case Nil => Ok([])
    case Cons(e, rest) =>
      var t :- Convert(e);
      var ts :- ConvertElems(rest);
      Ok([t] + ts)
  }

  function ConvertMembers(members: List<Member>, before: map<string, Tree>): Result<map<string, Tree>, Error> {
    match members
    case Nil => Ok(before)
    case Cons(m, rest) =>
      if HasNullByte(m.key) then Err(NullByte) else
      var t :- Convert(m.value);
      ConvertMembers(rest, before[m.key := t])
  }

  /** A string with the character U+0000, as a value or as a key, or an unsigned number above
      2^63 - 1, anywhere in the tree. */
  ghost predicate Refused(j: Json) {
    match j
    case JString(s) => exists i :: 0 <= i < |s| && s[i] == 0 as char
    case JUnsigned(n) => n > 9223372036854775807
    case JArray(elems) => RefusedElem(elems)
    case JObject(members) => RefusedMember(members)
    case JNull => false
    case JBool(_) => false
    case JInteger(_) => false
    case JFloat(_) => false
  }

  ghost predicate RefusedElem(elems: List<Json>) {
    elems.Cons? && (Refused(elems.head) || RefusedElem(elems.tail))
  }

  ghost predicate RefusedMember(members: List<Member>) {
    && members.Cons?
    && var Member(key, value) := members.head;
       (exists i :: 0 <= i < |key| && key[i] == 0 as char) || Refused(value) || RefusedMember(members.tail)
  }

  /** Exactly these trees are refused. */
  lemma {:induction false} RefusedExactly(j: Json)
    ensures Convert(j).Err? <==> Refused(j)
  {
    match j
    case JArray(elems) => RefusedElemExactly(elems);
    case JObject(members) => RefusedMemberExactly(members, map[]);
    case _ =>
  }

  lemma {:induction false} RefusedElemExactly(elems: List<Json>)
    ensures ConvertElems(elems).Err? <==> RefusedElem(elems)
  {
    if elems.Cons? {
      RefusedExactly(elems.head);
      RefusedElemExactly(elems.tail);
    }
  }

  lemma {:induction false} RefusedMemberExactly(members: List<Member>, before: map<string, Tree>)
    ensures ConvertMembers(members, before).Err? <==> RefusedMember(members)
    decreases members
  {
    if members.Cons? {
      var m := members.head;
      RefusedExactly(m.value);
      if Convert(m.value).Ok? { RefusedMemberExactly(members.tail, before[m.key := Convert(m.value).value]); }
    }
  }

  function LastOf(members: List<Member>, key: string): Option<Json> {
    match members
    case Nil => None
    case Cons(m, rest) =>
      var later := LastOf(rest, key);
      if later.Some? then later else if m.key == key then Some(m.value) else None
  }

  /** The keys of an object are those of its members, each with the value of its last one. */
  lemma {:induction false} LastDuplicateWins(members: List<Member>, before: map<string, Tree>, key: string)
    requires ConvertMembers(members, before).Ok?
    ensures var m := ConvertMembers(members, before).value;
      match LastOf(members, key)
      case Some(j) => key in m && Convert(j) == Ok(m[key])
      case None => key in m <==> key in before
    ensures var m := ConvertMembers(members, before).value;
      LastOf(members, key).None? && key in before ==> m[key] == before[key]
  {
    match members
    case Nil =>
    case Cons(first, rest) => LastDuplicateWins(rest, before[first.key := Convert(first.value).value], key);
  }

  // ---- events ----

  function Events(j: Json): seq<Event> {
    match j
    case JNull => [NullE]
    case JBool(b) => [BoolE(b)]
    case JInteger(i) => [IntegerE(i)]
    case JUnsigned(n) => [UnsignedE(n)]
    case JFloat(f) => [FloatE(f)]
    case JString(s) => [StringE(s)]
    case JArray(elems) => [StartArray] + (ElemEvents(elems) + [EndArray])
    case JObject(members) => [StartObject] + (MemberEvents(members) + [EndObject])
  }

  function ElemEvents(elems: List<Json>): seq<Event> {
    match elems
    case Nil => []
    case Cons(e, rest) => Events(e) + ElemEvents(rest)
  }

  function MemberEvents(members: List<Member>): seq<Event> {
    match members
    case Nil => []
    case Cons(m, rest) => [KeyE(m.key)] + (Events(m.value) + MemberEvents(rest))
  }

  // ---- the machine ----

  // A value on the heap; the values inside it are other cells.
  datatype Node =
    | Unset
    | NullN
    | BoolN(flag: bool)
    | IntN(i: int)
    | FloatN(f: real)
    | StringN(text: string)
    | ListN(elems: seq<Cell>)
    | AttrsN(attrs: map<string, Cell>)

  // One parser state on top of its parent. `v` is the value being filled in.
  datatype Stack =
    | Bottom(slot: Cell)
    | InObject(v: Option<Cell>, attrs: map<string, Cell>, parent: Stack)
    | InList(v: Option<Cell>, values: seq<Cell>, parent: Stack)

  datatype State = State(cells: seq<Node>, rs: Stack)

  predicate SlotOk(st: State) {
    match st.rs
    case Bottom(c) => c < |st.cells|
    case InObject(v, _, _) => v.Some? ==> v.value < |st.cells|
    case InList(v, _, _) => v.Some? ==> v.value < |st.cells|
  }

  predicate StackOk(cells: seq<Node>, rs: Stack)
    decreases rs
  {
    SlotOk(State(cells, rs)) && (rs.Bottom? || StackOk(cells, rs.parent))
  }

  function Slot(rs: Stack): Option<Cell> {
    match rs
    case Bottom(c) => Some(c)
    case InObject(v, _, _) => v
    case InList(v, _, _) => v
  }

  /** `JSONState::value`: the slot, allocated when there is none yet. */
  function Value(st: State): (r: (Cell, State))
    requires SlotOk(st)
    ensures r.0 < |r.1.cells|
    ensures if Slot(st.rs).Some? then r == (Slot(st.rs).value, st) else r.0 == |st.cells| && r.1.cells == st.cells + [Unset]
    ensures Slot(r.1.rs) == Some(r.0)
  {
    match st.rs
    case Bottom(c) => (c, st)
    case InObject(v, attrs, parent) =>
      if v.Some? then (v.value, st)
      else (|st.cells|, State(st.cells + [Unset], InObject(Some(|st.cells|), attrs, parent)))
    case InList(v, values, parent) =>
      if v.Some? then (v.value, st)
      else (|st.cells|, State(st.cells + [Unset], InList(Some(|st.cells|), values, parent)))
  }

  /** `JSONState::add`: the value in the slot is complete. */
  function Add(rs: Stack): Stack {
    match rs
    case Bottom(c) => Bottom(c)
    case InObject(v, attrs, parent) => InObject(None, attrs, parent)
    case InList(v, values, parent) => InList(None, if v.Some? then values + [v.value] else values, parent)
  }

  /** Writes a node into the slot and completes it. */
  function Fill(n: Node, st: State): State
    requires SlotOk(st)
  {
    var (c, st1) := Value(st);
    State(st1.cells[c := n], Add(st1.rs))
  }

  function Step(e: Event, st: State): (r: Result<State, Error>)
    requires StackOk(st.cells, st.rs)
    ensures r.Ok? ==> StackOk(r.value.cells, r.value.rs)
  {
    match e
    case NullE => FillOk(NullN, st); Ok(Fill(NullN, st))
    case BoolE(b) => FillOk(BoolN(b), st); Ok(Fill(BoolN(b), st))
    case IntegerE(i) => FillOk(IntN(i), st); Ok(Fill(IntN(i), st))
    case UnsignedE(n) => FillOk(IntN(n), st); if n > INT_MAX then Err(OutOfRange(n)) else Ok(Fill(IntN(n), st))
    case FloatE(f) => FillOk(FloatN(f), st); Ok(Fill(FloatN(f), st))
    case StringE(s) => FillOk(StringN(s), st); if HasNullByte(s) then Err(NullByte) else Ok(Fill(StringN(s), st))
    case StartObject => Ok(State(st.cells, InObject(None, map[], st.rs)))
    case StartArray => Ok(State(st.cells, InList(None, [], st.rs)))
    case KeyE(name) =>
      if !st.rs.InObject? then Err(NoObject)
      else if HasNullByte(name) then Err(NullByte)
      else
        var (c, st1) := Value(st);
        StackGrows(st.cells, st1.cells, st.rs.parent);
        Ok(State(st1.cells, InObject(Some(c), st.rs.attrs[name := c], st.rs.parent)))
    case EndObject => Close(st)
    case EndArray => Close(st)
  }

  function Close(st: State): (r: Result<State, Error>)
    requires StackOk(st.cells, st.rs)
    ensures r.Ok? ==> StackOk(r.value.cells, r.value.rs)
  {
    match st.rs
    case Bottom(_) => Err(Unbalanced)
    case InObject(_, attrs, parent) =>
      FillOk(AttrsN(attrs), State(st.cells, parent));
      Ok(Fill(AttrsN(attrs), State(st.cells, parent)))
    case InList(_, values, parent) =>
      FillOk(ListN(values), State(st.cells, parent));
      Ok(Fill(ListN(values), State(st.cells, parent)))
  }

  lemma {:induction false} StackGrows(cells: seq<Node>, more: seq<Node>, rs: Stack)
    requires StackOk(cells, rs) && |cells| <= |more|
    ensures StackOk(more, rs)
    decreases rs
  {
    if !rs.Bottom? { StackGrows(cells, more, rs.parent); }
  }

  lemma FillOk(n: Node, st: State)
    requires StackOk(st.cells, st.rs)
    ensures StackOk(Fill(n, st).cells, Fill(n, st).rs)
  {
    if !st.rs.Bottom? { StackGrows(st.cells, Fill(n, st).cells, st.rs.parent); }
  }

  function Run(events: seq<Event>, st: State): Result<State, Error>
    requires StackOk(st.cells, st.rs)
    decreases |events|
  {
    if events == [] then Ok(st) else
    var next :- Step(events[0], st);
    Run(events[1..], next)
  }

  // ---- the machine builds what the conversion gives ----

  /** `n` stands for `t`, with every cell inside it at `lo` or above. */
  ghost predicate Holds(cells: seq<Node>, lo: nat, n: Node, t: Tree)
    decreases t
  {
    match t
    case TNull => n == NullN
    case TBool(b) => n == BoolN(b)
    case TInt(i) => n == IntN(i)
    case TFloat(f) => n == FloatN(f)
    case TString(s) => n == StringN(s)
    case TList(elems) =>
      n.ListN? && |n.elems| == |elems|
      && forall i :: 0 <= i < |elems| ==> lo <= n.elems[i] < |cells| && Holds(cells, lo, cells[n.elems[i]], elems[i])
    case TAttrs(attrs) =>
      n.AttrsN? && n.attrs.Keys == attrs.Keys
      && forall k :: k in attrs ==> lo <= n.attrs[k] < |cells| && Holds(cells, lo, cells[n.attrs[k]], attrs[k])
  }

  ghost predicate SameFrom(lo: nat, cells: seq<Node>, more: seq<Node>) {
    |cells| <= |more| && forall c :: lo <= c < |cells| ==> more[c] == cells[c]
  }

  lemma {:induction false} HoldsStays(cells: seq<Node>, more: seq<Node>, lo: nat, lower: nat, n: Node, t: Tree)
    requires Holds(cells, lo, n, t) && SameFrom(lo, cells, more) && lower <= lo
    ensures Holds(more, lower, n, t)
    decreases t
  {
    match t
    case TList(elems) =>
      forall i | 0 <= i < |elems| ensures Holds(more, lower, more[n.elems[i]], elems[i]) {
        HoldsStays(cells, more, lo, lower, cells[n.elems[i]], elems[i]);
      }
    case TAttrs(attrs) =>
      forall k | k in attrs ensures Holds(more, lower, more[n.attrs[k]], attrs[k]) {
        HoldsStays(cells, more, lo, lower, cells[n.attrs[k]], attrs[k]);
      }
    case _ =>
  }

  /** The slot of `st` was filled with `t` and nothing else that existed was touched. */
  ghost predicate Filled(st: State, done: State, t: Tree) {
    exists c: Cell :: FilledAt(st, done, c, t)
  }

  ghost predicate FilledAt(st: State, done: State, c: Cell, t: Tree) {
    && SlotOk(st)
    && |st.cells| <= |done.cells| && c < |done.cells|
    && (if Slot(st.rs).Some? then c == Slot(st.rs).value else c >= |st.cells|)
    && (forall d :: 0 <= d < |st.cells| && d != c ==> done.cells[d] == st.cells[d])
    && done.rs == Add(WithSlot(st.rs, c))
    && Holds(done.cells, |st.cells|, done.cells[c], t)
  }

  function WithSlot(rs: Stack, c: Cell): Stack {
    match rs
    case Bottom(slot) => Bottom(slot)
    case InObject(_, attrs, parent) => InObject(Some(c), attrs, parent)
    case InList(_, values, parent) => InList(Some(c), values, parent)
  }

  lemma FillFills(st: State, lo: State, n: Node, t: Tree)
    requires SlotOk(st) && SlotOk(lo) && lo.rs == st.rs
    requires SameFrom(0, lo.cells, st.cells) && Holds(st.cells, |lo.cells|, n, t)
    ensures Filled(lo, Fill(n, st), t)
  {
    var (c, st1) := Value(st);
    var done := Fill(n, st);
    assert done.cells[c] == n;
    HoldsStays(st.cells, done.cells, |lo.cells|, |lo.cells|, n, t);
    assert FilledAt(lo, done, c, t);
  }

  lemma RunFirst(e: Event, rest: seq<Event>, st: State)
    requires StackOk(st.cells, st.rs)
    ensures Step(e, st).Ok? ==> Run([e] + rest, st) == Run(rest, Step(e, st).value)
    ensures Step(e, st).Err? ==> Run([e] + rest, st) == Err(Step(e, st).error)
  {
    assert ([e] + rest)[1..] == rest;
  }

  /** From `st` the machine gets through `events` to `done`, whatever follows. */
  ghost predicate Passes(events: seq<Event>, rest: seq<Event>, st: State, done: State) {
    StackOk(st.cells, st.rs) && StackOk(done.cells, done.rs) && Run(events + rest, st) == Run(rest, done)
  }

  lemma ListGrows(cells: seq<Node>, st1: State, st: State, lo: nat, values: seq<Cell>, ts: seq<Tree>, c: Cell, t: Tree)
    requires st.cells == cells && st.rs.InList? && st.rs.v.None? && st.rs.values == values && lo <= |cells|
    requires Holds(cells, lo, ListN(values), TList(ts)) && FilledAt(st, st1, c, t)
    ensures SameFrom(0, cells, st1.cells)
    ensures Holds(st1.cells, lo, ListN(values + [c]), TList(ts + [t]))
    ensures st1.rs == InList(None, values + [c], st.rs.parent)
  {
    HoldsStays(cells, st1.cells, lo, lo, ListN(values), TList(ts));
    HoldsStays(st1.cells, st1.cells, |cells|, lo, st1.cells[c], t);
    forall i | 0 <= i < |ts + [t]|
      ensures lo <= (values + [c])[i] < |st1.cells| && Holds(st1.cells, lo, st1.cells[(values + [c])[i]], (ts + [t])[i]) {
      if i < |ts| { assert (ts + [t])[i] == ts[i] && (values + [c])[i] == values[i]; }
    }
  }

  lemma HoldsInsert(cells: seq<Node>, lo: nat, attrs: map<string, Cell>, m: map<string, Tree>, key: string, c: Cell, t: Tree)
    requires Holds(cells, lo, AttrsN(attrs), TAttrs(m)) && lo <= c < |cells| && Holds(cells, lo, cells[c], t)
    ensures Holds(cells, lo, AttrsN(attrs[key := c]), TAttrs(m[key := t]))
  {
    var node, tree := AttrsN(attrs[key := c]), TAttrs(m[key := t]);
    forall k | k in tree.attrs
      ensures lo <= node.attrs[k] < |cells| && Holds(cells, lo, cells[node.attrs[k]], tree.attrs[k]) {
      if k != key { assert k in m && node.attrs[k] == attrs[k]; }
    }
  }

  lemma AttrsGrow(cells: seq<Node>, st: State, st1: State, lo: nat, key: string, attrs: map<string, Cell>,
                  m: map<string, Tree>, t: Tree)
    requires st.cells == cells + [Unset] && lo <= |cells|
    requires st.rs.InObject? && st.rs.attrs == attrs[key := |cells|] && st.rs.v == Some(|cells|)
    requires Holds(cells, lo, AttrsN(attrs), TAttrs(m)) && Filled(st, st1, t)
    ensures SameFrom(0, cells, st1.cells)
    ensures Holds(st1.cells, lo, AttrsN(attrs[key := |cells|]), TAttrs(m[key := t]))
    ensures st1.rs == InObject(None, attrs[key := |cells|], st.rs.parent)
  {
    var c := |cells|;
    assert FilledAt(st, st1, c, t);
    HoldsStays(st1.cells, st1.cells, |st.cells|, lo, st1.cells[c], t);
    HoldsStays(cells, st1.cells, lo, lo, AttrsN(attrs), TAttrs(m));
    HoldsInsert(st1.cells, lo, attrs, m, key, c, t);
  }

  /** `Events(j)` took the machine from `st` to `done`, or to the error the conversion raises. */
  ghost predicate Built(j: Json, rest: seq<Event>, st: State, done: State)
    requires StackOk(st.cells, st.rs)
  {
    match Convert(j)
    case Err(e) => Run(Events(j) + rest, st) == Err(e)
    case Ok(t) => Passes(Events(j), rest, st, done) && Filled(st, done, t)
  }

  /** Feeding the events of a tree fills the slot with the tree's value and leaves the rest of
      the stack as it was, or raises the error the conversion raises. */
  lemma {:induction false} BuildsValue(j: Json, rest: seq<Event>, st: State) returns (done: State)
    requires StackOk(st.cells, st.rs)
    ensures Built(j, rest, st, done)
    decreases j, 1
  {
    done := st;
    match j
    case JNull => done := BuildsScalar(j, NullE, NullN, rest, st);
    case JBool(b) => done := BuildsScalar(j, BoolE(b), BoolN(b), rest, st);
    case JInteger(i) => done := BuildsScalar(j, IntegerE(i), IntN(i), rest, st);
    case JUnsigned(n) => done := BuildsScalar(j, UnsignedE(n), IntN(n), rest, st);
    case JFloat(f) => done := BuildsScalar(j, FloatE(f), FloatN(f), rest, st);
    case JString(s) => done := BuildsScalar(j, StringE(s), StringN(s), rest, st);
    case JArray(elems) => done := BuildsArray(elems, rest, st);
    case JObject(members) => done := BuildsObject(members, rest, st);
  }

  lemma BuildsScalar(j: Json, e: Event, n: Node, rest: seq<Event>, st: State) returns (done: State)
    requires StackOk(st.cells, st.rs) && Events(j) == [e] && !j.JArray? && !j.JObject?
    requires Step(e, st) == match Convert(j) case Err(error) => Err(error) case Ok(_) => Ok(Fill(n, st))
    requires Convert(j).Ok? ==> Holds(st.cells, |st.cells|, n, Convert(j).value)
    ensures Built(j, rest, st, done)
  {
    RunFirst(e, rest, st);
    done := Fill(n, st);
    if Convert(j).Ok? { FillFills(st, st, n, Convert(j).value); }
  }

  lemma ClosesList(st: State, st1: State, ts: seq<Tree>, rest: seq<Event>) returns (done: State)
    requires StackOk(st.cells, st.rs) && StackOk(st1.cells, st1.rs) && SameFrom(0, st.cells, st1.cells)
    requires st1.rs.InList? && st1.rs.parent == st.rs
    requires Holds(st1.cells, |st.cells|, ListN(st1.rs.values), TList(ts))
    ensures StackOk(done.cells, done.rs) && Run([EndArray] + rest, st1) == Run(rest, done)
    ensures Filled(st, done, TList(ts))
  {
    RunFirst(EndArray, rest, st1);
    FillFills(State(st1.cells, st.rs), st, ListN(st1.rs.values), TList(ts));
    done := Fill(ListN(st1.rs.values), State(st1.cells, st.rs));
  }

  lemma {:induction false} BuildsArray(elems: List<Json>, rest: seq<Event>, st: State) returns (done: State)
    requires StackOk(st.cells, st.rs)
    ensures Built(JArray(elems), rest, st, done)
    decreases elems, 2
  {
    done := st;
    var inner := State(st.cells, InList(None, [], st.rs));
    var tail := [EndArray] + rest;
    Associates([StartArray], ElemEvents(elems) + [EndArray], rest);
    Associates(ElemEvents(elems), [EndArray], rest);
    RunFirst(StartArray, ElemEvents(elems) + tail, st);
    var st1 := BuildsElems(elems, tail, inner, |st.cells|, []);
    if ConvertElems(elems).Ok? {
      var ts := ConvertElems(elems).value;
      assert [] + ts == ts;
      done := ClosesList(st, st1, ts, rest);
    }
  }

  /** An open list whose elements so far stand for `ts`. */
  ghost predicate ListOf(st: State, lo: nat, ts: seq<Tree>) {
    && StackOk(st.cells, st.rs) && st.rs.InList? && st.rs.v.None? && lo <= |st.cells|
    && Holds(st.cells, lo, ListN(st.rs.values), TList(ts))
  }

  lemma ElemAdded(st: State, st1: State, lo: nat, ts: seq<Tree>, t: Tree)
    requires ListOf(st, lo, ts) && StackOk(st1.cells, st1.rs) && Filled(st, st1, t)
    ensures ListOf(st1, lo, ts + [t]) && SameFrom(0, st.cells, st1.cells) && st1.rs.parent == st.rs.parent
  {
    var c :| FilledAt(st, st1, c, t);
    ListGrows(st.cells, st1, st, lo, st.rs.values, ts, c, t);
  }

  ghost predicate ElemsBuilt(elems: List<Json>, rest: seq<Event>, st: State, lo: nat, ts: seq<Tree>, done: State)
    requires st.rs.InList?
  {
    match ConvertElems(elems)
    case Err(e) => StackOk(st.cells, st.rs) && Run(ElemEvents(elems) + rest, st) == Err(e)
    case Ok(us) =>
      && Passes(ElemEvents(elems), rest, st, done) && SameFrom(0, st.cells, done.cells)
      && ListOf(done, lo, ts + us) && done.rs.parent == st.rs.parent
  }

  lemma ElemThenElems(e: Json, more: List<Json>, rest: seq<Event>, st: State, st1: State, lo: nat, ts: seq<Tree>, done: State)
    requires Convert(e).Ok? && Passes(Events(e), ElemEvents(more) + rest, st, st1) && SameFrom(0, st.cells, st1.cells)
    requires st.rs.InList? && st1.rs.InList? && st1.rs.parent == st.rs.parent
    requires ElemsBuilt(more, rest, st1, lo, ts + [Convert(e).value], done)
    ensures ElemsBuilt(Cons(e, more), rest, st, lo, ts, done)
  {
    Associates(Events(e), ElemEvents(more), rest);
    if ConvertElems(more).Ok? {
      Associates(ts, [Convert(e).value], ConvertElems(more).value);
    }
  }

  lemma {:induction false} BuildsElems(elems: List<Json>, rest: seq<Event>, st: State, lo: nat, ts: seq<Tree>) returns (done: State)
    requires ListOf(st, lo, ts)
    ensures ElemsBuilt(elems, rest, st, lo, ts, done)
    decreases elems, 1
  {
    match elems
    case Nil =>
      assert [] + rest == rest && ts + [] == ts;
      done := st;
    case Cons(e, more) =>
      var st1 := BuildsValue(e, ElemEvents(more) + rest, st);
      if Convert(e).Ok? {
        ElemAdded(st, st1, lo, ts, Convert(e).value);
        done := BuildsElems(more, rest, st1, lo, ts + [Convert(e).value]);
        ElemThenElems(e, more, rest, st, st1, lo, ts, done);
      } else {
        Associates(Events(e), ElemEvents(more), rest);
        done := st;
      }
  }

  lemma ClosesObject(st: State, st1: State, m: map<string, Tree>, rest: seq<Event>) returns (done: State)
    requires StackOk(st.cells, st.rs) && StackOk(st1.cells, st1.rs) && SameFrom(0, st.cells, st1.cells)
    requires st1.rs.InObject? && st1.rs.parent == st.rs
    requires Holds(st1.cells, |st.cells|, AttrsN(st1.rs.attrs), TAttrs(m))
    ensures StackOk(done.cells, done.rs) && Run([EndObject] + rest, st1) == Run(rest, done)
    ensures Filled(st, done, TAttrs(m))
  {
    RunFirst(EndObject, rest, st1);
    FillFills(State(st1.cells, st.rs), st, AttrsN(st1.rs.attrs), TAttrs(m));
    done := Fill(AttrsN(st1.rs.attrs), State(st1.cells, st.rs));
  }

  lemma {:induction false} BuildsObject(members: List<Member>, rest: seq<Event>, st: State) returns (done: State)
    requires StackOk(st.cells, st.rs)
    ensures Built(JObject(members), rest, st, done)
    decreases members, 2
  {
    done := st;
    var inner := State(st.cells, InObject(None, map[], st.rs));
    var tail := [EndObject] + rest;
    Associates([StartObject], MemberEvents(members) + [EndObject], rest);
    Associates(MemberEvents(members), [EndObject], rest);
    RunFirst(StartObject, MemberEvents(members) + tail, st);
    var st1 := BuildsMembers(members, tail, inner, |st.cells|, map[]);
    var converted := ConvertMembers(members, map[]);
    if converted.Ok? {
      done := ClosesObject(st, st1, converted.value, rest);
    }
  }

  /** An open object whose members so far stand for `m`. */
  ghost predicate ObjectOf(st: State, lo: nat, m: map<string, Tree>) {
    && StackOk(st.cells, st.rs) && st.rs.InObject? && st.rs.v.None? && lo <= |st.cells|
    && Holds(st.cells, lo, AttrsN(st.rs.attrs), TAttrs(m))
  }

  ghost predicate MembersBuilt(members: List<Member>, rest: seq<Event>, st: State, lo: nat, m: map<string, Tree>, done: State)
    requires st.rs.InObject?
  {
    match ConvertMembers(members, m)
    case Err(e) => StackOk(st.cells, st.rs) && Run(MemberEvents(members) + rest, st) == Err(e)
    case Ok(all) =>
      && Passes(MemberEvents(members), rest, st, done) && SameFrom(0, st.cells, done.cells)
      && ObjectOf(done, lo, all) && done.rs.parent == st.rs.parent
  }

  /** A key and its value are added to the object; a second value for a key replaces the first. */
  lemma MemberAdded(st: State, st1: State, st2: State, lo: nat, key: string, m: map<string, Tree>, t: Tree)
    requires ObjectOf(st, lo, m) && Step(KeyE(key), st) == Ok(st1) && StackOk(st2.cells, st2.rs) && Filled(st1, st2, t)
    ensures ObjectOf(st2, lo, m[key := t]) && SameFrom(0, st.cells, st2.cells) && st2.rs.parent == st.rs.parent
  {
    AttrsGrow(st.cells, st1, st2, lo, key, st.rs.attrs, m, t);
  }

  lemma MemberThenMembers(first: Member, more: List<Member>, rest: seq<Event>, st: State, st1: State, st2: State, lo: nat,
                          m: map<string, Tree>, done: State)
    requires StackOk(st.cells, st.rs) && !HasNullByte(first.key) && Step(KeyE(first.key), st) == Ok(st1)
    requires Convert(first.value).Ok? && Passes(Events(first.value), MemberEvents(more) + rest, st1, st2)
    requires SameFrom(0, st.cells, st2.cells)
    requires st.rs.InObject? && st2.rs.InObject? && st2.rs.parent == st.rs.parent
    requires MembersBuilt(more, rest, st2, lo, m[first.key := Convert(first.value).value], done)
    ensures MembersBuilt(Cons(first, more), rest, st, lo, m, done)
  {
    var tail := MemberEvents(more) + rest;
    Associates([KeyE(first.key)], Events(first.value) + MemberEvents(more), rest);
    Associates(Events(first.value), MemberEvents(more), rest);
    RunFirst(KeyE(first.key), Events(first.value) + tail, st);
  }

  lemma MemberFails(first: Member, more: List<Member>, rest: seq<Event>, st: State, lo: nat, m: map<string, Tree>, done: State)
    requires StackOk(st.cells, st.rs) && st.rs.InObject?
    requires HasNullByte(first.key)
      || (Convert(first.value).Err? && Step(KeyE(first.key), st).Ok?
          && Run(Events(first.value) + (MemberEvents(more) + rest), Step(KeyE(first.key), st).value) == Err(Convert(first.value).error))
    ensures MembersBuilt(Cons(first, more), rest, st, lo, m, done)
  {
    var tail := MemberEvents(more) + rest;
    Associates([KeyE(first.key)], Events(first.value) + MemberEvents(more), rest);
    Associates(Events(first.value), MemberEvents(more), rest);
    RunFirst(KeyE(first.key), Events(first.value) + tail, st);
  }

  lemma {:induction false} BuildsMembers(members: List<Member>, rest: seq<Event>, st: State, lo: nat, m: map<string, Tree>)
      returns (done: State)
    requires ObjectOf(st, lo, m)
    ensures MembersBuilt(members, rest, st, lo, m, done)
    decreases members, 1
  {
    match members
    case Nil =>
      assert [] + rest == rest;
      done := st;
    case Cons(first, more) =>
      if HasNullByte(first.key) {
        done := st;
        MemberFails(first, more, rest, st, lo, m, done);
      } else {
        var st1 := Step(KeyE(first.key), st).value;
        var st2 := BuildsValue(first.value, MemberEvents(more) + rest, st1);
        if Convert(first.value).Ok? {
          MemberAdded(st, st1, st2, lo, first.key, m, Convert(first.value).value);
          done := BuildsMembers(more, rest, st2, lo, m[first.key := Convert(first.value).value]);
          MemberThenMembers(first, more, rest, st, st1, st2, lo, m, done);
        } else {
          done := st;
          MemberFails(first, more, rest, st, lo, m, done);
        }
      }
  }

  // ---- the parser object ----

  class JSONSax {
    var cells: seq<Node>
    var rs: Stack

    constructor (heap: seq<Node>, v: Cell)
      requires v < |heap|
      ensures Valid() && Now() == State(heap, Bottom(v))
    {
      cells, rs := heap, Bottom(v);
    }

    ghost predicate Valid()
      reads this
    {
      StackOk(cells, rs)
    }

    ghost function Now(): State
      reads this
    {
      State(cells, rs)
    }

    /** `value(state)` of the current state. */
    method CurrentValue() returns (c: Cell)
      requires Valid()
      modifies this
      ensures (c, Now()) == Value(old(Now()))
      ensures Valid()
    {
      if !rs.Bottom? { StackGrows(cells, cells + [Unset], rs.parent); }
      match rs
      case Bottom(slot) =>
        c := slot;
      case InObject(v, attrs, parent) =>
        if v.Some? { return v.value; }
        c := |cells|;
        cells, rs := cells + [Unset], InObject(Some(c), attrs, parent);
      case InList(v, values, parent) =>
        if v.Some? { return v.value; }
        c := |cells|;
        cells, rs := cells + [Unset], InList(Some(c), values, parent);
    }

    method AddValue()
      requires Valid()
      modifies this`rs
      ensures Valid() && rs == Add(old(rs))
    {
      match rs
      case Bottom(_) =>
      case InObject(_, attrs, parent) => rs := InObject(None, attrs, parent);
      case InList(v, values, parent) => rs := InList(None, if v.Some? then values + [v.value] else values, parent);
    }

    /** Every scalar event: `rs->value(state).mk...; rs->add();` */
    method Scalar(n: Node)
      requires Valid()
      modifies this
      ensures Valid() && Now() == Fill(n, old(Now()))
    {
      var c := CurrentValue();
      StackGrows(cells, cells[c := n], rs);
      cells := cells[c := n];
      AddValue();
    }

    method Null()
      requires Valid()
      modifies this
      ensures Valid() && Ok(Now()) == Step(NullE, old(Now()))
    {
      Scalar(NullN);
    }

    method Boolean(val: bool)
      requires Valid()
      modifies this
      ensures Valid() && Ok(Now()) == Step(BoolE(val), old(Now()))
    {
      Scalar(BoolN(val));
    }

    method NumberInteger(val: int)
      requires Valid()
      modifies this
      ensures Valid() && Ok(Now()) == Step(IntegerE(val), old(Now()))
    {
      Scalar(IntN(val));
    }

    method NumberUnsigned(val: nat) returns (failed: Option<Error>)
      requires Valid()
      modifies this
      ensures Valid()
      ensures Step(UnsignedE(val), old(Now())) == if failed.None? then Ok(Now()) else Err(failed.value)
    {
      if val > INT_MAX { return Some(OutOfRange(val)); }
      Scalar(IntN(val));
      return None;
    }

    method NumberFloat(val: real)
      requires Valid()
      modifies this
      ensures Valid() && Ok(Now()) == Step(FloatE(val), old(Now()))
    {
      Scalar(FloatN(val));
    }

    method String(val: string) returns (failed: Option<Error>)
      requires Valid()
      modifies this
      ensures Valid()
      ensures Step(StringE(val), old(Now())) == if failed.None? then Ok(Now()) else Err(failed.value)
    {
      if HasNullByte(val) { return Some(NullByte); }
      Scalar(StringN(val));
      return None;
    }

    method OpenObject()
      requires Valid()
      modifies this
      ensures Valid() && Ok(Now()) == Step(StartObject, old(Now()))
    {
      rs := InObject(None, map[], rs);
    }

    method OpenArray()
      requires Valid()
      modifies this
      ensures Valid() && Ok(Now()) == Step(StartArray, old(Now()))
    {
      rs := InList(None, [], rs);
    }

    method Key(name: string) returns (failed: Option<Error>)
      requires Valid()
      modifies this
      ensures Valid()
      ensures Step(KeyE(name), old(Now())) == if failed.None? then Ok(Now()) else Err(failed.value)
    {
      if !rs.InObject? { return Some(NoObject); }
      if HasNullByte(name) { return Some(NullByte); }
      var c := CurrentValue();
      rs := rs.(attrs := rs.attrs[name := c]);
      return None;
    }

    /** `end_object`, and `end_array`, which only calls it. */
    method CloseTop() returns (failed: Option<Error>)
      requires Valid()
      modifies this
      ensures Valid()
      ensures Close(old(Now())) == if failed.None? then Ok(Now()) else Err(failed.value)
    {
      if rs.Bottom? { return Some(Unbalanced); }
      var n := if rs.InObject? then AttrsN(rs.attrs) else ListN(rs.values);
      rs := rs.parent;
      Scalar(n);
      return None;
    }

    method Handle(e: Event) returns (failed: Option<Error>)
      requires Valid()
      modifies this
      ensures Valid()
      ensures Step(e, old(Now())) == if failed.None? then Ok(Now()) else Err(failed.value)
    {
      failed := None;
      match e
      case NullE => Null();
      case BoolE(b) => Boolean(b);
      case IntegerE(i) => NumberInteger(i);
      case UnsignedE(n) => failed := NumberUnsigned(n);
      case FloatE(f) => NumberFloat(f);
      case StringE(s) => failed := String(s);
      case StartObject => OpenObject();
      case KeyE(name) => failed := Key(name);
      case EndObject => failed := CloseTop();
      case StartArray => OpenArray();
      case EndArray => failed := CloseTop();
    }
  }

  /** `parseJSON` on a text that reads as `j`: the value `v` ends up standing for the tree, and
      no other value that existed is changed. */
  method ParseJSON(j: Json, heap: seq<Node>, v: Cell) returns (r: Result<seq<Node>, Error>)
    requires v < |heap|
    ensures r.Err? <==> Refused(j)
    ensures r.Err? <==> Convert(j).Err?
    ensures r.Err? ==> r.error == Convert(j).error
    ensures r.Ok? ==>
      && |heap| <= |r.value|
      && (forall c :: 0 <= c < |heap| && c != v ==> r.value[c] == heap[c])
      && Holds(r.value, |heap|, r.value[v], Convert(j).value)
  {
    var events := Events(j);
    var parser := new JSONSax(heap, v);
    var i := 0;
    ghost var start := parser.Now();
    ghost var done := BuildsValue(j, [], start);
    RefusedExactly(j);
    assert events + [] == events && events[0..] == events;
    while i < |events|
      invariant 0 <= i <= |events| && parser.Valid()
      invariant Run(events, start) == Run(events[i..], parser.Now())
    {
      assert events[i..][0] == events[i] && events[i..][1..] == events[i + 1..];
      var failed := parser.Handle(events[i]);
      if failed.Some? { return Err(failed.value); }
      i := i + 1;
    }
    assert events[i..] == [];
    r := Ok(parser.cells);
    ghost var c :| FilledAt(start, done, c, Convert(j).value);
  }
}

/** `getDerivations`: the search for packages in a value, and the selection paths it reports. */
module GetDrvs {
  import opened Wrappers
  import opened AttrPath

  datatype Package = Package(path: string, id: nat)

  // One move of the search. A path is a list of moves, written down with dots.
  datatype Move = Name(name: string) | Index(index: nat)

  function Text(m: Move): string {
    match m case Name(name) => name case Index(i) => Decimal(i)
  }

  function Texts(moves: seq<Move>): (r: seq<string>)
    ensures |r| == |moves|
  {
    if moves == [] then [] else [Text(moves[0])] + Texts(moves[1..])
  }

  function Render(moves: seq<Move>): string {
    if moves == [] then "" else AddToPath(Render(moves[..|moves| - 1]), Text(moves[|moves| - 1]))
  }

  predicate IsLetter(c: char) {
    'A' <= c <= 'Z' || 'a' <= c <= 'z'
  }

  predicate IsAttrPathComponent(s: string) {
    && s != ""
    && (IsLetter(s[0]) || s[0] == '_')
    && forall i :: 1 <= i < |s| ==> IsLetter(s[i]) || IsDigit(s[i]) || s[i] in "-_+"
  }

  predicate Sound(m: Move) {
    m.Name? ==> IsAttrPathComponent(m.name)
  }

  // ---- what the search looks at ----

  datatype Verdict = NotDerivation | Derivation(id: nat) | Raises(error: Error)

  /** `forceValue` followed by `isDerivation`. */
  function Inspect(w: World, v: Ref): Verdict {
    match w.view(v)
    case Fails(e) => Raises(e)
    case AttrsV(id) =>
      (match Lookup(w.attrs(id), "type")
       case None => NotDerivation
       case Some(t) =>
         match w.view(t)
         case Fails(e) => Raises(e)
         case StrV(text) => if text == "derivation" then Derivation(id) else NotDerivation
         case _ => NotDerivation)
    case _ => NotDerivation
  }

  /** `queryName`, which may fail. */
  function NameError(w: World, id: nat): Option<Error> {
    match Lookup(w.attrs(id), "name")
    case None => Some(TypeMismatch)
    case Some(n) =>
      match w.view(n)
      case Fails(e) => Some(e)
      case StrV(_) => None
      case _ => Some(TypeMismatch)
  }

  function WantsRecursion(w: World, id: nat): Result<bool, Error> {
    match Lookup(w.attrs(id), "recurseForDerivations")
    case None => Ok(false)
    case Some(r) =>
      match w.view(r)
      case Fails(e) => Err(e)
      case BoolV(flag) => Ok(flag)
      case _ => Err(TypeMismatch)
  }

  predicate CombinesChannels(w: World, id: nat) {
    Lookup(w.attrs(id), "_combineChannels").Some?
  }

  // ---- the search as a function ----

  datatype Found = Found(moves: seq<Move>, id: nat)

  datatype Hunt = Hunt(found: seq<Found>, done: set<nat>)

  /** `getDerivation`: the flag says whether to look inside `v`. */
  function Consider(w: World, v: Ref, moves: seq<Move>, h: Hunt, ignore: bool): Result<(Hunt, bool), Error> {
    match Inspect(w, v)
    case Raises(e) => if ignore && e == AssertionFailed then Ok((h, false)) else Err(e)
    case NotDerivation => Ok((h, true))
    case Derivation(id) =>
      if id in h.done then Ok((h, false)) else
      var marked := h.(done := h.done + {id});
      match NameError(w, id)
      case None => Ok((marked.(found := h.found + [Found(moves, id)]), false))
      case Some(e) => if ignore && e == AssertionFailed then Ok((marked, false)) else Err(e)
  }

  function Search(w: World, vIn: Ref, moves: seq<Move>, h: Hunt, ignore: bool, depth: nat): Result<Hunt, Error>
    decreases depth, 0
  {
    if depth == 0 then Err(TooDeep) else
    var v :- w.auto(vIn, Render(moves));
    var (h1, inside) :- Consider(w, v, moves, h, ignore);
    if !inside then Ok(h1) else
    match w.view(v)
    case AttrsV(id) => SearchAttrs(w, id, 0, moves, h1, ignore, depth - 1)
    case ListV(elems) => SearchElems(w, elems, 0, moves, h1, ignore, depth - 1)
    case _ => Err(TypeMismatch)
  }

  function SearchAttr(w: World, combine: bool, v: Ref, moves: seq<Move>, h: Hunt, ignore: bool, depth: nat): Result<Hunt, Error>
    decreases depth, 1
  {
    if combine then Search(w, v, moves, h, ignore, depth) else
    var (h1, inside) :- Consider(w, v, moves, h, ignore);
    if !inside || !w.view(v).AttrsV? then Ok(h1) else
    var wants :- WantsRecursion(w, w.view(v).id);
    if wants then Search(w, v, moves, h1, ignore, depth) else Ok(h1)
  }

  function SearchAttrs(w: World, id: nat, k: nat, moves: seq<Move>, h: Hunt, ignore: bool, depth: nat): Result<Hunt, Error>
    requires k <= |w.attrs(id)|
    decreases depth, 2, |w.attrs(id)| - k
  {
    if k == |w.attrs(id)| then Ok(h) else
    var a := w.attrs(id)[k];
    if !IsAttrPathComponent(a.name) then SearchAttrs(w, id, k + 1, moves, h, ignore, depth) else
    var h1 :- SearchAttr(w, CombinesChannels(w, id), a.value, moves + [Name(a.name)], h, ignore, depth);
    SearchAttrs(w, id, k + 1, moves, h1, ignore, depth)
  }

  function SearchElems(w: World, elems: seq<Ref>, k: nat, moves: seq<Move>, h: Hunt, ignore: bool, depth: nat): Result<Hunt, Error>
    requires k <= |elems|
    decreases depth, 2, |elems| - k
  {
    if k == |elems| then Ok(h) else
    var h1 :- SearchElem(w, elems[k], moves + [Index(k)], h, ignore, depth);
    SearchElems(w, elems, k + 1, moves, h1, ignore, depth)
  }

  function SearchElem(w: World, v: Ref, here: seq<Move>, h: Hunt, ignore: bool, depth: nat): Result<Hunt, Error>
    decreases depth, 1
  {
    var (h1, inside) :- Consider(w, v, here, h, ignore);
    if inside then Search(w, v, here, h1, ignore, depth) else Ok(h1)
  }

  // ---- the search in place ----

  function Written(found: seq<Found>): (r: seq<Package>)
    ensures |r| == |found|
    ensures forall i :: 0 <= i < |found| ==> r[i] == Package(Render(found[i].moves), found[i].id)
  {
    if found == [] then []
    else Written(found[..|found| - 1]) + [Package(Render(found[|found| - 1].moves), found[|found| - 1].id)]
  }

  class Collector {
    var drvs: seq<Package>
    var done: set<nat>
    // the moves behind every reported path
    ghost var found: seq<Found>

    constructor ()
      ensures Valid() && State() == Hunt([], {})
    {
      drvs, done, found := [], {}, [];
    }

    ghost predicate Valid()
      reads this
    {
      drvs == Written(found)
    }

    ghost function State(): Hunt
      reads this
    {
      Hunt(found, done)
    }

    method GetDerivation(w: World, v: Ref, attrPath: string, ghost moves: seq<Move>, ignore: bool)
        returns (r: Result<bool, Error>)
      requires Valid() && attrPath == Render(moves)
      modifies this
      ensures Valid()
      ensures match r
        case Ok(inside) => Consider(w, v, moves, old(State()), ignore) == Ok((State(), inside))
        case Err(e) => Consider(w, v, moves, old(State()), ignore) == Err(e)
    {
      match Inspect(w, v)
      case Raises(e) => return if ignore && e == AssertionFailed then Ok(false) else Err(e);
      case NotDerivation => return Ok(true);
      case Derivation(id) =>
        if id in done { return Ok(false); }
        done := done + {id};
        var failed := NameError(w, id);
        if failed.Some? {
          return if ignore && failed.value == AssertionFailed then Ok(false) else Err(failed.value);
        }
        drvs := drvs + [Package(attrPath, id)];
        found := found + [Found(moves, id)];
        assert found[..|found| - 1] == old(found);
        return Ok(false);
    }

    /** Searches in `vIn`; the result is the error raised, if any. */
    method GetDerivations(w: World, vIn: Ref, pathPrefix: string, ghost moves: seq<Move>, ignore: bool, depth: nat)
        returns (r: Option<Error>)
      requires Valid() && pathPrefix == Render(moves)
      modifies this
      ensures Valid()
      ensures Search(w, vIn, moves, old(State()), ignore, depth) == if r.None? then Ok(State()) else Err(r.value)
      decreases depth, 0
    {
      if depth == 0 { return Some(TooDeep); }
      var called := w.auto(vIn, pathPrefix);
      if called.Err? { return Some(called.error); }
      var v := called.value;
      var inside := GetDerivation(w, v, pathPrefix, moves, ignore);
      if inside.Err? { return Some(inside.error); }
      if !inside.value { return None; }
      match w.view(v)
      case AttrsV(id) => r := InAttrs(w, id, pathPrefix, moves, ignore, depth - 1);
      case ListV(elems) => r := InList(w, elems, pathPrefix, moves, ignore, depth - 1);
      case _ => return Some(TypeMismatch);
    }

    method InAttrs(w: World, id: nat, pathPrefix: string, ghost moves: seq<Move>, ignore: bool, depth: nat)
        returns (r: Option<Error>)
      requires Valid() && pathPrefix == Render(moves)
      modifies this
      ensures Valid()
      ensures SearchAttrs(w, id, 0, moves, old(State()), ignore, depth) == if r.None? then Ok(State()) else Err(r.value)
      decreases depth, 2
    {
      var combineChannels := CombinesChannels(w, id);
      var attrs := w.attrs(id);
      var k := 0;
      while k < |attrs|
        invariant 0 <= k <= |attrs| && Valid()
        invariant SearchAttrs(w, id, 0, moves, old(State()), ignore, depth)
               == SearchAttrs(w, id, k, moves, State(), ignore, depth)
      {
        var a := attrs[k];
        k := k + 1;
        if !IsAttrPathComponent(a.name) { continue; }
        var failed := InAttr(w, combineChannels, a, pathPrefix, moves, ignore, depth);
        if failed.Some? { return failed; }
      }
      return None;
    }

    method InAttr(w: World, combineChannels: bool, a: Attribute, pathPrefix: string, ghost moves: seq<Move>, ignore: bool,
                  depth: nat)
        returns (r: Option<Error>)
      requires Valid() && pathPrefix == Render(moves)
      modifies this
      ensures Valid()
      ensures SearchAttr(w, combineChannels, a.value, moves + [Name(a.name)], old(State()), ignore, depth)
           == if r.None? then Ok(State()) else Err(r.value)
      decreases depth, 1
    {
      var pathPrefix2 := AddToPath(pathPrefix, a.name);
      ghost var here := moves + [Name(a.name)];
      assert here[..|here| - 1] == moves;
      if combineChannels {
        r := GetDerivations(w, a.value, pathPrefix2, here, ignore, depth);
        return;
      }
      var inside := GetDerivation(w, a.value, pathPrefix2, here, ignore);
      if inside.Err? { return Some(inside.error); }
      if inside.value && w.view(a.value).AttrsV? {
        var wants := WantsRecursion(w, w.view(a.value).id);
        if wants.Err? { return Some(wants.error); }
        if wants.value {
          r := GetDerivations(w, a.value, pathPrefix2, here, ignore, depth);
          return;
        }
      }
      return None;
    }

    method InList(w: World, elems: seq<Ref>, pathPrefix: string, ghost moves: seq<Move>, ignore: bool, depth: nat)
        returns (r: Option<Error>)
      requires Valid() && pathPrefix == Render(moves)
      modifies this
      ensures Valid()
      ensures SearchElems(w, elems, 0, moves, old(State()), ignore, depth)
           == if r.None? then Ok(State()) else Err(r.value)
      decreases depth, 2
    {
      var n := 0;
      while n < |elems|
        invariant 0 <= n <= |elems| && Valid()
        invariant SearchElems(w, elems, 0, moves, old(State()), ignore, depth)
               == SearchElems(w, elems, n, moves, State(), ignore, depth)
      {
        r := AtIndex(w, elems[n], n, pathPrefix, moves, ignore, depth);
        if r.Some? { return; }
        n := n + 1;
      }
      return None;
    }

    /** One list element: considered, and searched when it is no derivation. */
    method AtIndex(w: World, v: Ref, n: nat, pathPrefix: string, ghost moves: seq<Move>, ignore: bool, depth: nat)
        returns (r: Option<Error>)
      requires Valid() && pathPrefix == Render(moves)
      modifies this
      ensures Valid()
      ensures SearchElem(w, v, moves + [Index(n)], old(State()), ignore, depth) == if r.None? then Ok(State()) else Err(r.value)
      decreases depth, 1
    {
      var pathPrefix2 := AddToPath(pathPrefix, Decimal(n));
      ghost var here := moves + [Index(n)];
      assert here[..|here| - 1] == moves;
      var inside := GetDerivation(w, v, pathPrefix2, here, ignore);
      if inside.Err? { return Some(inside.error); }
      if !inside.value { return None; }
      r := GetDerivations(w, v, pathPrefix2, here, ignore, depth);
    }
  }

  // ---- paths are read back as the moves made ----

  lemma ComponentIsPlain(s: string)
    requires IsAttrPathComponent(s)
    ensures IsPlain(s) && String2Unsigned(s) == None
  {
    assert !IsDigit(s[0]);
    forall c | c in s ensures c != '.' && c != '"' {
      var i :| 0 <= i < |s| && s[i] == c;
    }
  }

  lemma TextIsPlain(m: Move)
    requires Sound(m)
    ensures Text(m) != "" && IsPlain(Text(m))
  {
    match m
    case Name(name) => ComponentIsPlain(name);
    case Index(i) =>
      DecimalValue(i);
      var d := Decimal(i);
      forall c | c in d ensures c != '.' && c != '"' {
        var j :| 0 <= j < |d| && d[j] == c;
        assert IsDigit(d[j]);
      }
  }

  lemma TextsOfMore(moves: seq<Move>, m: Move)
    ensures Texts(moves + [m]) == Texts(moves) + [Text(m)]
  {
    if moves != [] {
      assert (moves + [m])[1..] == moves[1..] + [m];
      TextsOfMore(moves[1..], m);
    }
  }

  lemma ReadText(t: string, rest: string)
    requires IsPlain(t)
    ensures Components(t + ("." + rest), "") == Prepend([t], Components(rest, ""))
  {
    ReadPlain(t, "." + rest, "");
    assert "" + t == t && ("." + rest)[1..] == rest;
  }

  lemma ReadLast(t: string)
    requires IsPlain(t) && t != ""
    ensures Components(t, "") == Ok([t])
  {
    ReadPlain(t, "", "");
    assert t + "" == t && "" + t == t;
  }

  ghost predicate AllSound(moves: seq<Move>) {
    forall i :: 0 <= i < |moves| ==> Sound(moves[i])
  }

  /** Reading what `Render` wrote, up to the next dot. */
  lemma {:induction false} ReadRendered(moves: seq<Move>, rest: string)
    requires moves != [] && AllSound(moves)
    ensures Render(moves) != ""
    ensures Components(Render(moves) + ("." + rest), "") == Prepend(Texts(moves), Components(rest, ""))
  {
    var front, last := moves[..|moves| - 1], moves[|moves| - 1];
    var t := Text(last);
    TextIsPlain(last);
    ReadText(t, rest);
    TextsOfMore(front, last);
    assert moves == front + [last];
    if front == [] {
      assert Texts(moves) == [t];
      assert Render(moves) == t;
    } else {
      ReadRendered(front, t + ("." + rest));
      Regroup(Render(front), t, rest);
      PrependTwice(Texts(front), [t], Components(rest, ""));
    }
  }

  lemma Regroup(p: string, t: string, rest: string)
    ensures (p + "." + t) + ("." + rest) == p + ("." + (t + ("." + rest)))
  {}

  /** `parseAttrPath` returns exactly the names and indices traversed. */
  lemma RenderedRoundTrip(moves: seq<Move>)
    requires AllSound(moves)
    ensures Components(Render(moves), "") == Ok(Texts(moves))
  {
    if moves != [] {
      var front, last := moves[..|moves| - 1], moves[|moves| - 1];
      var t := Text(last);
      TextIsPlain(last);
      ReadLast(t);
      TextsOfMore(front, last);
      assert moves == front + [last];
      if front == [] {
        assert Render(moves) == t && Texts(moves) == [t];
      } else {
        ReadRendered(front, t);
        assert Render(front) + "." + t == Render(front) + ("." + t);
      }
    }
  }

  // ---- following the moves ----

  function Step(w: World, m: Move, v: Ref, here: string): Option<Ref> {
    match w.auto(v, here)
    case Err(_) => None
    case Ok(called) =>
      match m
      case Name(name) => if w.view(called).AttrsV? then Lookup(w.attrs(w.view(called).id), name) else None
      case Index(i) =>
        if w.view(called).ListV? && i < |w.view(called).elems| then Some(w.view(called).elems[i]) else None
  }

  /** Makes the moves one after the other, auto-calling before each. */
  function Steps(w: World, moves: seq<Move>, v: Ref): Option<Ref> {
    if moves == [] then Some(v) else
    match Steps(w, moves[..|moves| - 1], v)
    case None => None
    case Some(u) => Step(w, moves[|moves| - 1], u, Render(moves[..|moves| - 1]))
  }

  predicate Fits(m: Move) {
    m.Index? ==> m.index < UINT_LIMIT
  }

  predicate AllFit(moves: seq<Move>) {
    forall i :: 0 <= i < |moves| ==> Fits(moves[i])
  }

  lemma OneName(w: World, name: string, v: Ref, here: string)
    requires name != "" && String2Unsigned(name) == None && Step(w, Name(name), v, here).Some?
    ensures FollowOne(w, name, v, here) == Ok(Step(w, Name(name), v, here).value)
  {}

  /** An index of 2^32 or more is taken for an attribute name. */
  lemma OneIndex(w: World, text: string, i: nat, v: Ref, here: string)
    requires String2Unsigned(text) == (if Fits(Index(i)) then Some(i) else None) && Step(w, Index(i), v, here).Some?
    ensures FollowOne(w, text, v, here) == if Fits(Index(i)) then Ok(Step(w, Index(i), v, here).value) else Err(TypeMismatch)
  {}

  lemma OneMove(w: World, m: Move, v: Ref, here: string)
    requires Sound(m) && Step(w, m, v, here).Some?
    ensures FollowOne(w, Text(m), v, here) == if Fits(m) then Ok(Step(w, m, v, here).value) else Err(TypeMismatch)
  {
    match m
    case Name(name) =>
      ComponentIsPlain(name);
      OneName(w, name, v, here);
    case Index(i) =>
      IndexReadBack(i);
      OneIndex(w, Text(m), i, v, here);
  }

  /** The path after `tokens`. */
  function Joined(here: string, tokens: seq<string>): string
    decreases |tokens|
  {
    if tokens == [] then here else Joined(AddToPath(here, tokens[0]), tokens[1..])
  }

  lemma {:induction false} JoinedMore(here: string, tokens: seq<string>, t: string)
    ensures Joined(here, tokens + [t]) == AddToPath(Joined(here, tokens), t)
    decreases |tokens|
  {
    if tokens == [] {
      assert (tokens + [t])[1..] == [];
    } else {
      assert (tokens + [t])[1..] == tokens[1..] + [t];
      JoinedMore(AddToPath(here, tokens[0]), tokens[1..], t);
    }
  }

  lemma {:induction false} JoinedIsRender(moves: seq<Move>)
    ensures Joined("", Texts(moves)) == Render(moves)
    decreases |moves|
  {
    if moves != [] {
      var front, last := moves[..|moves| - 1], moves[|moves| - 1];
      assert moves == front + [last];
      JoinedIsRender(front);
      TextsOfMore(front, last);
      JoinedMore("", Texts(front), Text(last));
    }
  }

  lemma {:induction false} FollowMore(w: World, tokens: seq<string>, t: string, v: Ref, here: string)
    ensures Follow(w, tokens + [t], v, here)
         == match Follow(w, tokens, v, here) case Ok(u) => FollowOne(w, t, u, Joined(here, tokens)) case Err(e) => Err(e)
    decreases |tokens|
  {
    if tokens == [] {
      assert (tokens + [t])[1..] == [];
    } else {
      assert (tokens + [t])[1..] == tokens[1..] + [t];
      var next := FollowOne(w, tokens[0], v, here);
      if next.Ok? { FollowMore(w, tokens[1..], t, next.value, AddToPath(here, tokens[0])); }
    }
  }

  /** Selection follows the moves if and only if every index on the way fits in 32 bits. */
  lemma {:induction false} FollowIsSteps(w: World, moves: seq<Move>, v: Ref)
    requires AllSound(moves) && Steps(w, moves, v).Some?
    ensures Follow(w, Texts(moves), v, "")
         == if AllFit(moves) then Ok(Steps(w, moves, v).value) else Err(TypeMismatch)
    decreases |moves|
  {
    if moves != [] {
      var front, last := moves[..|moves| - 1], moves[|moves| - 1];
      assert moves == front + [last];
      FollowIsSteps(w, front, v);
      TextsOfMore(front, last);
      FollowMore(w, Texts(front), Text(last), v, "");
      JoinedIsRender(front);
      OneMove(w, last, Steps(w, front, v).value, Render(front));
    }
  }

  // ---- what the search reports ----

  ghost predicate IsPackage(w: World, v: Ref, id: nat) {
    Inspect(w, v) == Derivation(id) && NameError(w, id).None?
  }

  /** The moves lead from the root to the package, up to one final auto-call. */
  ghost predicate Leads(w: World, root: Ref, f: Found) {
    && AllSound(f.moves)
    && Steps(w, f.moves, root).Some?
    && var v := Steps(w, f.moves, root).value;
       IsPackage(w, v, f.id) || (w.auto(v, Render(f.moves)).Ok? && IsPackage(w, w.auto(v, Render(f.moves)).value, f.id))
  }

  ghost predicate AllLead(w: World, root: Ref, found: seq<Found>) {
    forall f :: f in found ==> Leads(w, root, f)
  }

  /** The moves made so far reach `v`. */
  ghost predicate AtRef(w: World, root: Ref, moves: seq<Move>, v: Ref) {
    AllSound(moves) && Steps(w, moves, root) == Some(v)
  }

  lemma ConsiderLeads(w: World, root: Ref, moves: seq<Move>, at: Ref, v: Ref, h: Hunt, ignore: bool)
    requires AtRef(w, root, moves, at) && (v == at || w.auto(at, Render(moves)) == Ok(v)) && AllLead(w, root, h.found)
    ensures var r := Consider(w, v, moves, h, ignore); r.Ok? ==> AllLead(w, root, r.value.0.found)
  {}

  lemma AtNext(w: World, root: Ref, moves: seq<Move>, v: Ref, m: Move, next: Ref)
    requires AtRef(w, root, moves, v) && Sound(m) && Step(w, m, v, Render(moves)) == Some(next)
    ensures AtRef(w, root, moves + [m], next)
  {
    assert (moves + [m])[..|moves|] == moves;
  }

  lemma {:induction false} SearchLeads(w: World, root: Ref, v: Ref, moves: seq<Move>, h: Hunt, ignore: bool, depth: nat)
    requires Valid(w) && AtRef(w, root, moves, v) && AllLead(w, root, h.found)
    ensures var r := Search(w, v, moves, h, ignore, depth); r.Ok? ==> AllLead(w, root, r.value.found)
    decreases depth, 0
  {
    if depth > 0 && w.auto(v, Render(moves)).Ok? {
      var called := w.auto(v, Render(moves)).value;
      ConsiderLeads(w, root, moves, v, called, h, ignore);
      var c := Consider(w, called, moves, h, ignore);
      if c.Ok? && c.value.1 { SearchInsideLeads(w, root, v, called, moves, c.value.0, ignore, depth - 1); }
    }
  }

  lemma {:induction false} SearchInsideLeads(w: World, root: Ref, v: Ref, called: Ref, moves: seq<Move>, h: Hunt, ignore: bool, depth: nat)
    requires Valid(w) && AtRef(w, root, moves, v) && AllLead(w, root, h.found) && w.auto(v, Render(moves)) == Ok(called)
    ensures match w.view(called)
      case AttrsV(id) =>
        var r := SearchAttrs(w, id, 0, moves, h, ignore, depth); r.Ok? ==> AllLead(w, root, r.value.found)
      case ListV(elems) =>
        var r := SearchElems(w, elems, 0, moves, h, ignore, depth); r.Ok? ==> AllLead(w, root, r.value.found)
      case _ => true
    decreases depth, 3
  {
    match w.view(called)
    case AttrsV(id) => SearchAttrsLeads(w, root, v, id, 0, moves, h, ignore, depth);
    case ListV(elems) => SearchElemsLeads(w, root, v, elems, 0, moves, h, ignore, depth);
    case _ =>
  }

  lemma {:induction false} SearchAttrsLeads(w: World, root: Ref, v: Ref, id: nat, k: nat, moves: seq<Move>, h: Hunt, ignore: bool, depth: nat)
    requires Valid(w) && AtRef(w, root, moves, v) && AllLead(w, root, h.found)
    requires w.auto(v, Render(moves)).Ok? && w.view(w.auto(v, Render(moves)).value) == AttrsV(id) && k <= |w.attrs(id)|
    ensures var r := SearchAttrs(w, id, k, moves, h, ignore, depth); r.Ok? ==> AllLead(w, root, r.value.found)
    decreases depth, 2, |w.attrs(id)| - k
  {
    if k < |w.attrs(id)| {
      var a := w.attrs(id)[k];
      if !IsAttrPathComponent(a.name) {
        SearchAttrsLeads(w, root, v, id, k + 1, moves, h, ignore, depth);
      } else {
        LookupAt(w, id, k);
        AtNext(w, root, moves, v, Name(a.name), a.value);
        var combine := CombinesChannels(w, id);
        SearchAttrLeads(w, root, combine, a.value, moves + [Name(a.name)], h, ignore, depth);
        var r := SearchAttr(w, combine, a.value, moves + [Name(a.name)], h, ignore, depth);
        if r.Ok? { SearchAttrsLeads(w, root, v, id, k + 1, moves, r.value, ignore, depth); }
      }
    }
  }

  lemma {:induction false} SearchAttrLeads(w: World, root: Ref, combine: bool, v: Ref, moves: seq<Move>, h: Hunt, ignore: bool, depth: nat)
    requires Valid(w) && AtRef(w, root, moves, v) && AllLead(w, root, h.found)
    ensures var r := SearchAttr(w, combine, v, moves, h, ignore, depth); r.Ok? ==> AllLead(w, root, r.value.found)
    decreases depth, 1
  {
    if combine {
      SearchLeads(w, root, v, moves, h, ignore, depth);
    } else {
      ConsiderLeads(w, root, moves, v, v, h, ignore);
      var c := Consider(w, v, moves, h, ignore);
      if c.Ok? { SearchLeads(w, root, v, moves, c.value.0, ignore, depth); }
    }
  }

  lemma {:induction false} SearchElemsLeads(w: World, root: Ref, v: Ref, elems: seq<Ref>, k: nat, moves: seq<Move>, h: Hunt, ignore: bool, depth: nat)
    requires Valid(w) && AtRef(w, root, moves, v) && AllLead(w, root, h.found)
    requires w.auto(v, Render(moves)).Ok? && w.view(w.auto(v, Render(moves)).value) == ListV(elems) && k <= |elems|
    ensures var r := SearchElems(w, elems, k, moves, h, ignore, depth); r.Ok? ==> AllLead(w, root, r.value.found)
    decreases depth, 2, |elems| - k
  {
    if k < |elems| {
      var here := moves + [Index(k)];
      AtNext(w, root, moves, v, Index(k), elems[k]);
      ConsiderLeads(w, root, here, elems[k], elems[k], h, ignore);
      var c := Consider(w, elems[k], here, h, ignore);
      if c.Ok? {
        SearchLeads(w, root, elems[k], here, c.value.0, ignore, depth);
        var r := if c.value.1 then Search(w, elems[k], here, c.value.0, ignore, depth) else Ok(c.value.0);
        if r.Ok? { SearchElemsLeads(w, root, v, elems, k + 1, moves, r.value, ignore, depth); }
      }
    }
  }

  /** A path fit for `-A` reaches the package, up to one auto-call of the value reached. */
  ghost predicate Reaches(w: World, root: Ref, p: Package) {
    && FindAlong(w, p.path, root).Ok?
    && var v := FindAlong(w, p.path, root).value;
       IsPackage(w, v, p.id) || (w.auto(v, p.path).Ok? && IsPackage(w, w.auto(v, p.path).value, p.id))
  }

  /** Every reported path can be followed, unless a list index on the way needs more than 32
      bits; then selection complains about a list where it expects a set. */
  lemma PathsCanBeFollowed(w: World, root: Ref, f: Found)
    requires Leads(w, root, f)
    ensures Components(Render(f.moves), "") == Ok(Texts(f.moves))
    ensures AllFit(f.moves) <==> Reaches(w, root, Package(Render(f.moves), f.id))
    ensures !AllFit(f.moves) ==> FindAlong(w, Render(f.moves), root) == Err(TypeMismatch)
  {
    RenderedRoundTrip(f.moves);
    FollowIsSteps(w, f.moves, root);
  }

  // ---- every package in sight is reported once ----

  /** The search of `v`, at the end of `moves`, comes across the derivation `id`. */
  ghost predicate Exposes(w: World, v: Ref, moves: seq<Move>, id: nat, depth: nat)
    decreases depth, 0
  {
    && depth > 0
    && w.auto(v, Render(moves)).Ok?
    && var called := w.auto(v, Render(moves)).value;
       match Inspect(w, called)
       case Derivation(found) => found == id
       case Raises(_) => false
       case NotDerivation =>
         match w.view(called)
         case AttrsV(inner) => AttrsExpose(w, inner, 0, moves, id, depth - 1)
         case ListV(elems) => ElemsExpose(w, elems, 0, moves, id, depth - 1)
         case _ => false
  }

  ghost predicate AttrsExpose(w: World, attrs: nat, from: nat, moves: seq<Move>, id: nat, depth: nat)
    decreases depth, 2
  {
    exists k: nat :: from <= k < |w.attrs(attrs)| && IsAttrPathComponent(w.attrs(attrs)[k].name)
      && AttrExposes(w, CombinesChannels(w, attrs), w.attrs(attrs)[k].value, moves + [Name(w.attrs(attrs)[k].name)], id, depth)
  }

  ghost predicate AttrExposes(w: World, combine: bool, v: Ref, moves: seq<Move>, id: nat, depth: nat)
    decreases depth, 1
  {
    if combine then Exposes(w, v, moves, id, depth)
    else
      || Inspect(w, v) == Derivation(id)
      || (Inspect(w, v) == NotDerivation && w.view(v).AttrsV? && WantsRecursion(w, w.view(v).id) == Ok(true)
          && Exposes(w, v, moves, id, depth))
  }

  ghost predicate ElemsExpose(w: World, elems: seq<Ref>, from: nat, moves: seq<Move>, id: nat, depth: nat)
    decreases depth, 2
  {
    exists k: nat :: from <= k < |elems| && ElemExposes(w, elems[k], moves + [Index(k)], id, depth)
  }

  ghost predicate ElemExposes(w: World, v: Ref, moves: seq<Move>, id: nat, depth: nat)
    decreases depth, 1
  {
    Inspect(w, v) == Derivation(id) || (Inspect(w, v) == NotDerivation && Exposes(w, v, moves, id, depth))
  }

  lemma {:induction false} SearchDone(w: World, v: Ref, moves: seq<Move>, h: Hunt, ignore: bool, depth: nat, id: nat)
    ensures var r := Search(w, v, moves, h, ignore, depth);
      r.Ok? ==> (id in r.value.done <==> id in h.done || Exposes(w, v, moves, id, depth))
    decreases depth, 0
  {
    if depth > 0 && w.auto(v, Render(moves)).Ok? {
      var called := w.auto(v, Render(moves)).value;
      var c := Consider(w, called, moves, h, ignore);
      if c.Ok? && c.value.1 {
        match w.view(called)
        case AttrsV(attrs) => SearchAttrsDone(w, attrs, 0, moves, h, ignore, depth - 1, id);
        case ListV(elems) => SearchElemsDone(w, elems, 0, moves, h, ignore, depth - 1, id);
        case _ =>
      }
    }
  }

  lemma {:induction false} SearchAttrDone(w: World, combine: bool, v: Ref, moves: seq<Move>, h: Hunt, ignore: bool, depth: nat, id: nat)
    ensures var r := SearchAttr(w, combine, v, moves, h, ignore, depth);
      r.Ok? ==> (id in r.value.done <==> id in h.done || AttrExposes(w, combine, v, moves, id, depth))
    decreases depth, 1
  {
    SearchDone(w, v, moves, h, ignore, depth, id);
  }

  lemma {:induction false} SearchAttrsDone(w: World, attrs: nat, k: nat, moves: seq<Move>, h: Hunt, ignore: bool, depth: nat, id: nat)
    requires k <= |w.attrs(attrs)|
    ensures var r := SearchAttrs(w, attrs, k, moves, h, ignore, depth);
      r.Ok? ==> (id in r.value.done <==> id in h.done || AttrsExpose(w, attrs, k, moves, id, depth))
    decreases depth, 2, |w.attrs(attrs)| - k
  {
    if k < |w.attrs(attrs)| {
      var a := w.attrs(attrs)[k];
      var combine := CombinesChannels(w, attrs);
      var here := moves + [Name(a.name)];
      assert AttrsExpose(w, attrs, k, moves, id, depth)
        <==> (IsAttrPathComponent(a.name) && AttrExposes(w, combine, a.value, here, id, depth)) || AttrsExpose(w, attrs, k + 1, moves, id, depth);
      if !IsAttrPathComponent(a.name) {
        SearchAttrsDone(w, attrs, k + 1, moves, h, ignore, depth, id);
      } else {
        SearchAttrDone(w, combine, a.value, moves + [Name(a.name)], h, ignore, depth, id);
        var r := SearchAttr(w, combine, a.value, moves + [Name(a.name)], h, ignore, depth);
        if r.Ok? { SearchAttrsDone(w, attrs, k + 1, moves, r.value, ignore, depth, id); }
      }
    }
  }

  lemma {:induction false} SearchElemsDone(w: World, elems: seq<Ref>, k: nat, moves: seq<Move>, h: Hunt, ignore: bool, depth: nat, id: nat)
    requires k <= |elems|
    ensures var r := SearchElems(w, elems, k, moves, h, ignore, depth);
      r.Ok? ==> (id in r.value.done <==> id in h.done || ElemsExpose(w, elems, k, moves, id, depth))
    decreases depth, 2, |elems| - k
  {
    if k < |elems| {
      var here := moves + [Index(k)];
      assert ElemsExpose(w, elems, k, moves, id, depth)
        <==> ElemExposes(w, elems[k], here, id, depth) || ElemsExpose(w, elems, k + 1, moves, id, depth);
      var c := Consider(w, elems[k], here, h, ignore);
      if c.Ok? {
        var h1 := c.value.0;
        SearchDone(w, elems[k], here, h1, ignore, depth, id);
        var r := if c.value.1 then Search(w, elems[k], here, h1, ignore, depth) else Ok(h1);
        if r.Ok? { SearchElemsDone(w, elems, k + 1, moves, r.value, ignore, depth, id); }
      }
    }
  }

  /** `found` lists the named derivations in `done`, each once. */
  ghost predicate Tidy(w: World, h: Hunt) {
    && (forall i, j :: 0 <= i < j < |h.found| ==> h.found[i].id != h.found[j].id)
    && (forall id :: Reported(h, id) <==> id in h.done && NameError(w, id).None?)
  }

  ghost predicate Reported(h: Hunt, id: nat) {
    exists i :: 0 <= i < |h.found| && h.found[i].id == id
  }

  lemma ConsiderTidy(w: World, v: Ref, moves: seq<Move>, h: Hunt, ignore: bool)
    requires Tidy(w, h)
    ensures var r := Consider(w, v, moves, h, ignore); r.Ok? ==> Tidy(w, r.value.0)
  {
    var r := Consider(w, v, moves, h, ignore);
    if r.Ok? {
      var h1 := r.value.0;
      match Inspect(w, v)
      case Derivation(newId) =>
        if newId !in h.done {
          assert !Reported(h, newId);
          forall id ensures Reported(h1, id) <==> id in h1.done && NameError(w, id).None? {
            if h1.found != h.found {
              assert h1.found[|h.found|] == Found(moves, newId);
              assert Reported(h, id) ==> Reported(h1, id) by {
                if Reported(h, id) {
                  var i :| 0 <= i < |h.found| && h.found[i].id == id;
                  assert h1.found[i].id == id;
                }
              }
            }
          }
        }
      case _ =>
    }
  }

  lemma {:induction false} SearchTidy(w: World, v: Ref, moves: seq<Move>, h: Hunt, ignore: bool, depth: nat)
    requires Tidy(w, h)
    ensures var r := Search(w, v, moves, h, ignore, depth); r.Ok? ==> Tidy(w, r.value)
    decreases depth, 0
  {
    if depth > 0 && w.auto(v, Render(moves)).Ok? {
      var called := w.auto(v, Render(moves)).value;
      ConsiderTidy(w, called, moves, h, ignore);
      var c := Consider(w, called, moves, h, ignore);
      if c.Ok? && c.value.1 {
        match w.view(called)
        case AttrsV(attrs) => SearchAttrsTidy(w, attrs, 0, moves, h, ignore, depth - 1);
        case ListV(elems) => SearchElemsTidy(w, elems, 0, moves, h, ignore, depth - 1);
        case _ =>
      }
    }
  }

  lemma {:induction false} SearchAttrTidy(w: World, combine: bool, v: Ref, moves: seq<Move>, h: Hunt, ignore: bool, depth: nat)
    requires Tidy(w, h)
    ensures var r := SearchAttr(w, combine, v, moves, h, ignore, depth); r.Ok? ==> Tidy(w, r.value)
    decreases depth, 1
  {
    if combine {
      SearchTidy(w, v, moves, h, ignore, depth);
    } else {
      ConsiderTidy(w, v, moves, h, ignore);
      var c := Consider(w, v, moves, h, ignore);
      if c.Ok? { SearchTidy(w, v, moves, c.value.0, ignore, depth); }
    }
  }

  lemma {:induction false} SearchAttrsTidy(w: World, attrs: nat, k: nat, moves: seq<Move>, h: Hunt, ignore: bool, depth: nat)
    requires Tidy(w, h) && k <= |w.attrs(attrs)|
    ensures var r := SearchAttrs(w, attrs, k, moves, h, ignore, depth); r.Ok? ==> Tidy(w, r.value)
    decreases depth, 2, |w.attrs(attrs)| - k
  {
    if k < |w.attrs(attrs)| {
      var a := w.attrs(attrs)[k];
      if !IsAttrPathComponent(a.name) {
        SearchAttrsTidy(w, attrs, k + 1, moves, h, ignore, depth);
      } else {
        var combine := CombinesChannels(w, attrs);
        SearchAttrTidy(w, combine, a.value, moves + [Name(a.name)], h, ignore, depth);
        var r := SearchAttr(w, combine, a.value, moves + [Name(a.name)], h, ignore, depth);
        if r.Ok? { SearchAttrsTidy(w, attrs, k + 1, moves, r.value, ignore, depth); }
      }
    }
  }

  lemma {:induction false} SearchElemsTidy(w: World, elems: seq<Ref>, k: nat, moves: seq<Move>, h: Hunt, ignore: bool, depth: nat)
    requires Tidy(w, h) && k <= |elems|
    ensures var r := SearchElems(w, elems, k, moves, h, ignore, depth); r.Ok? ==> Tidy(w, r.value)
    decreases depth, 2, |elems| - k
  {
    if k < |elems| {
      var here := moves + [Index(k)];
      ConsiderTidy(w, elems[k], here, h, ignore);
      var c := Consider(w, elems[k], here, h, ignore);
      if c.Ok? {
        SearchTidy(w, elems[k], here, c.value.0, ignore, depth);
        var r := if c.value.1 then Search(w, elems[k], here, c.value.0, ignore, depth) else Ok(c.value.0);
        if r.Ok? { SearchElemsTidy(w, elems, k + 1, moves, r.value, ignore, depth); }
      }
    }
  }

  /** A successful search reports each derivation in sight whose name evaluates, exactly once. */
  lemma ReportedExactlyWhenExposed(w: World, root: Ref, ignore: bool, depth: nat, id: nat)
    ensures var r := Search(w, root, [], Hunt([], {}), ignore, depth);
      r.Ok? ==>
        && (Reported(r.value, id) <==> Exposes(w, root, [], id, depth) && NameError(w, id).None?)
        && forall i, j :: 0 <= i < j < |r.value.found| ==> r.value.found[i].id != r.value.found[j].id
  {
    SearchTidy(w, root, [], Hunt([], {}), ignore, depth);
    SearchDone(w, root, [], Hunt([], {}), ignore, depth, id);
  }

  // ---- what marks a package and a set to be searched ----

  /** The set `id` has an attribute `name` with value `v`. */
  ghost predicate HasNamed(w: World, id: nat, name: string, v: Ref) {
    exists i :: 0 <= i < |w.attrs(id)| && w.attrs(id)[i] == Attribute(name, v)
  }

  lemma LookupIsNamed(w: World, id: nat, name: string)
    requires AttrPath.Valid(w)
    ensures forall v: Ref :: Lookup(w.attrs(id), name) == Some(v) <==> HasNamed(w, id, name, v)
  {
    forall v: Ref | HasNamed(w, id, name, v) ensures Lookup(w.attrs(id), name) == Some(v) {
      var i :| 0 <= i < |w.attrs(id)| && w.attrs(id)[i] == Attribute(name, v);
      LookupAt(w, id, i);
    }
  }

  /** A package is a set whose `type` is the string "derivation". */
  lemma PackagesAreMarked(w: World, v: Ref, id: nat)
    requires AttrPath.Valid(w)
    ensures Inspect(w, v) == Derivation(id) <==>
      w.view(v) == AttrsV(id) && exists t :: HasNamed(w, id, "type", t) && w.view(t) == StrV("derivation")
  {
    LookupIsNamed(w, id, "type");
  }

  /** It can be reported when its `name` is a string. */
  lemma PackagesAreNamed(w: World, id: nat)
    requires AttrPath.Valid(w)
    ensures NameError(w, id).None? <==> exists t :: HasNamed(w, id, "name", t) && w.view(t).StrV?
  {
    LookupIsNamed(w, id, "name");
  }

  /** Every attribute of a set with `_combineChannels` is searched. */
  lemma ChannelsAreSearched(w: World, attrs: nat, v: Ref, moves: seq<Move>, id: nat, depth: nat)
    requires AttrPath.Valid(w) && exists t :: HasNamed(w, attrs, "_combineChannels", t)
    ensures AttrExposes(w, CombinesChannels(w, attrs), v, moves, id, depth) <==> Exposes(w, v, moves, id, depth)
  {
    LookupIsNamed(w, attrs, "_combineChannels");
  }

  /** In any other set, an attribute that is a set and no package is searched exactly when its
      `recurseForDerivations` is true. */
  lemma FlaggedSetsAreSearched(w: World, attrs: nat, v: Ref, inner: nat, moves: seq<Move>, id: nat, depth: nat)
    requires AttrPath.Valid(w) && !exists t :: HasNamed(w, attrs, "_combineChannels", t)
    requires w.view(v) == AttrsV(inner) && Inspect(w, v) == NotDerivation
    ensures AttrExposes(w, CombinesChannels(w, attrs), v, moves, id, depth) <==>
      Exposes(w, v, moves, id, depth) && exists t :: HasNamed(w, inner, "recurseForDerivations", t) && w.view(t) == BoolV(true)
  {
    LookupIsNamed(w, attrs, "_combineChannels");
    LookupIsNamed(w, inner, "recurseForDerivations");
  }

  /** A package is in sight itself, and what is neither a package nor a set has nothing in sight. */
  lemma PlainAttributes(w: World, attrs: nat, v: Ref, moves: seq<Move>, id: nat, depth: nat)
    requires AttrPath.Valid(w) && !exists t :: HasNamed(w, attrs, "_combineChannels", t)
    ensures Inspect(w, v).Derivation? ==> (AttrExposes(w, CombinesChannels(w, attrs), v, moves, id, depth) <==> Inspect(w, v) == Derivation(id))
    ensures Inspect(w, v).Raises? || (Inspect(w, v).NotDerivation? && !w.view(v).AttrsV?) ==>
      !AttrExposes(w, CombinesChannels(w, attrs), v, moves, id, depth)
  {
    LookupIsNamed(w, attrs, "_combineChannels");
  }

  /** The names that are searched, character by character. */
  lemma ComponentCharacters(s: string)
    ensures IsAttrPathComponent(s) <==>
      && s != ""
      && s[0] in "ABCDEFGHIJKLMNOPQRSTUVWXYZabcdefghijklmnopqrstuvwxyz_"
      && forall i :: 1 <= i < |s| ==> s[i] in "ABCDEFGHIJKLMNOPQRSTUVWXYZabcdefghijklmnopqrstuvwxyz0123456789-_+"
  {
    if s != "" { FirstCharacter(s[0]); }
    forall i | 1 <= i < |s|
      ensures IsLetter(s[i]) || IsDigit(s[i]) || s[i] in "-_+" <==> s[i] in "ABCDEFGHIJKLMNOPQRSTUVWXYZabcdefghijklmnopqrstuvwxyz0123456789-_+"
    {
      LaterCharacter(s[i]);
    }
  }

  lemma FirstCharacter(c: char)
    ensures IsLetter(c) || c == '_' <==> c in "ABCDEFGHIJKLMNOPQRSTUVWXYZabcdefghijklmnopqrstuvwxyz_"
  {
    var letters := "ABCDEFGHIJKLMNOPQRSTUVWXYZabcdefghijklmnopqrstuvwxyz";
    assert letters + "_" == "ABCDEFGHIJKLMNOPQRSTUVWXYZabcdefghijklmnopqrstuvwxyz_";
    AllLetters(c);
  }

  lemma LaterCharacter(c: char)
    ensures IsLetter(c) || IsDigit(c) || c in "-_+" <==> c in "ABCDEFGHIJKLMNOPQRSTUVWXYZabcdefghijklmnopqrstuvwxyz0123456789-_+"
  {
    var letters := "ABCDEFGHIJKLMNOPQRSTUVWXYZabcdefghijklmnopqrstuvwxyz";
    assert letters + "0123456789-_+" == "ABCDEFGHIJKLMNOPQRSTUVWXYZabcdefghijklmnopqrstuvwxyz0123456789-_+";
    AllLetters(c);
    OtherCharacter(c);
  }

  lemma AllLetters(c: char)
    ensures IsLetter(c) <==> c in "ABCDEFGHIJKLMNOPQRSTUVWXYZabcdefghijklmnopqrstuvwxyz"
  {
    var upper, lower := "ABCDEFGHIJKLMNOPQRSTUVWXYZ", "abcdefghijklmnopqrstuvwxyz";
    assert upper + lower == "ABCDEFGHIJKLMNOPQRSTUVWXYZabcdefghijklmnopqrstuvwxyz";
    Letters(c);
  }

  lemma OtherCharacter(c: char)
    ensures IsDigit(c) || c in "-_+" <==> c in "0123456789-_+"
  {
    assert "0123456789" + "-_+" == "0123456789-_+";
    Digits(c);
  }

  lemma Letters(c: char)
    ensures IsLetter(c) <==> c in "ABCDEFGHIJKLMNOPQRSTUVWXYZ" || c in "abcdefghijklmnopqrstuvwxyz"
  {
    UpperLetters(c);
    LowerLetters(c);
  }

  lemma UpperLetters(c: char)
    ensures 'A' <= c <= 'Z' <==> c in "ABCDEFGHIJKLMNOPQRSTUVWXYZ"
  {
    var upper := "ABCDEFGHIJKLMNOPQRSTUVWXYZ";
    assert forall i :: 0 <= i < 26 ==> upper[i] == 'A' + i as char;
    if 'A' <= c <= 'Z' { assert upper[(c - 'A') as int] == c; }
  }

  lemma LowerLetters(c: char)
    ensures 'a' <= c <= 'z' <==> c in "abcdefghijklmnopqrstuvwxyz"
  {
    var lower := "abcdefghijklmnopqrstuvwxyz";
    assert forall i :: 0 <= i < 26 ==> lower[i] == 'a' + i as char;
    if 'a' <= c <= 'z' { assert lower[(c - 'a') as int] == c; }
  }

  lemma Digits(c: char)
    ensures IsDigit(c) <==> c in "0123456789"
  {
    var digits := "0123456789";
    assert forall i :: 0 <= i < 10 ==> digits[i] == '0' + i as char;
    if IsDigit(c) { assert digits[(c - '0') as int] == c; }
  }

  // A list of 2^32 empty lists and one package.
  function LongWorld(): World {
    World(
      (v: Ref) =>
        if v == 0 then ListV(seq(UINT_LIMIT, _ => 1) + [2])
        else if v == 1 then ListV([])
        else if v == 2 then AttrsV(0)
        else StrV("derivation"),
      (v: Ref, here: string) => Ok(v),
      (id: nat) => [Attribute("name", 3), Attribute("type", 3)])
  }

  ghost predicate IsEmptyList(w: World, e: Ref) {
    w.view(e) == ListV([]) && forall here :: w.auto(e, here) == Ok(e)
  }

  lemma NothingInEmptyList(w: World, e: Ref, here: seq<Move>, h: Hunt)
    requires IsEmptyList(w, e)
    ensures SearchElem(w, e, here, h, false, 1) == Ok(h)
  {
    assert w.auto(e, Render(here)) == Ok(e);
  }

  lemma {:induction false} EmptyListsAreSkipped(w: World, e: Ref, elems: seq<Ref>, k: nat, n: nat, h: Hunt)
    requires IsEmptyList(w, e) && k <= n < |elems| && forall j :: 0 <= j < n ==> elems[j] == e
    ensures SearchElems(w, elems, k, [], h, false, 1) == SearchElems(w, elems, n, [], h, false, 1)
    decreases n - k
  {
    if k < n {
      NothingInEmptyList(w, e, [] + [Index(k)], h);
      EmptyListsAreSkipped(w, e, elems, k + 1, n, h);
    }
  }

  lemma PackageFound(here: seq<Move>)
    ensures Consider(LongWorld(), 2, here, Hunt([], {}), false) == Ok((Hunt([Found(here, 0)], {0}), false))
  {
    var w, h := LongWorld(), Hunt([], {});
    assert Lookup(w.attrs(0)[1..], "type") == Some(3);
    assert "name"[0] != "type"[0];
    assert Inspect(w, 2) == Derivation(0) && NameError(w, 0) == None;
    assert h.done + {0} == {0} && h.found + [Found(here, 0)] == [Found(here, 0)];
  }

  /** The search reports a path that selection cannot follow. */
  lemma LargeIndexIsNotFollowed()
    ensures var f := Found([Index(UINT_LIMIT)], 0);
      && Search(LongWorld(), 0, [], Hunt([], {}), false, 2) == Ok(Hunt([f], {0}))
      && FindAlong(LongWorld(), Render(f.moves), 0) == Err(TypeMismatch)
  {
    var w, h := LongWorld(), Hunt([], {});
    var elems := seq(UINT_LIMIT, _ => 1) + [2];
    EmptyListsAreSkipped(w, 1, elems, 0, UINT_LIMIT, h);
    var f := Found([Index(UINT_LIMIT)], 0);
    PackageFound([] + [Index(UINT_LIMIT)]);
    assert [] + [Index(UINT_LIMIT)] == [Index(UINT_LIMIT)];
    assert f.moves[..0] == [];
    assert Steps(w, f.moves, 0) == Some(2);
    assert !Fits(f.moves[0]);
    PathsCanBeFollowed(w, 0, f);
  }

  // `[ f f ]`, where calling `f` builds a package.
  function TwiceWorld(): World {
    World(
      (v: Ref) =>
        if v == 0 then ListV([1, 1])
        else if v == 1 then OtherV
        else if v == 2 then AttrsV(0)
        else if v == 3 then AttrsV(1)
        else StrV("derivation"),
      (v: Ref, here: string) => Ok(if v != 1 then v else if here == "0" then 2 else 3),
      (id: nat) => [Attribute("name", 4), Attribute("type", 4)])
  }

  lemma BuiltPackage(v: Ref, here: seq<Move>, h: Hunt)
    requires v == 2 || v == 3
    requires TwiceWorld().auto(1, Render(here)) == Ok(v) && v - 2 !in h.done
    ensures SearchElem(TwiceWorld(), 1, here, h, false, 1) == Ok(Hunt(h.found + [Found(here, v - 2)], h.done + {v - 2}))
  {
    var w := TwiceWorld();
    assert Lookup(w.attrs(v - 2)[1..], "type") == Some(4);
    assert "name"[0] != "type"[0];
    assert Inspect(w, v) == Derivation(v - 2) && NameError(w, v - 2) == None;
    assert Inspect(w, 1) == NotDerivation;
  }

  lemma TwoElems(w: World, a: Ref, b: Ref, h: Hunt, h1: Hunt, h2: Hunt)
    requires SearchElem(w, a, [] + [Index(0)], h, false, 1) == Ok(h1) && SearchElem(w, b, [] + [Index(1)], h1, false, 1) == Ok(h2)
    ensures SearchElems(w, [a, b], 0, [], h, false, 1) == Ok(h2)
  {
    assert SearchElems(w, [a, b], 2, [], h2, false, 1) == Ok(h2);
    assert SearchElems(w, [a, b], 1, [], h1, false, 1) == Ok(h2);
  }

  lemma RenderDigit(k: nat)
    requires k < 10
    ensures Render([] + [Index(k)]) == ['0' + k as char]
  {
    assert [] + [Index(k)] == [Index(k)];
    assert Decimal(k) == ['0' + k as char];
  }

  /** A function called at two places gives two packages, and both are reported. */
  lemma CalledTwiceReportedTwice()
    ensures Search(TwiceWorld(), 0, [], Hunt([], {}), false, 2)
         == Ok(Hunt([Found([Index(0)], 0), Found([Index(1)], 1)], {0, 1}))
  {
    var h0, h1 := Hunt([], {}), Hunt([Found([] + [Index(0)], 0)], {0});
    var h2 := Hunt(h1.found + [Found([] + [Index(1)], 1)], {0} + {1});
    RenderDigit(0);
    RenderDigit(1);
    BuiltPackage(2, [] + [Index(0)], h0);
    assert h0.found + [Found([] + [Index(0)], 0)] == h1.found && h0.done + {0} == {0};
    BuiltPackage(3, [] + [Index(1)], h1);
    TwoElems(TwiceWorld(), 1, 1, h0, h1, h2);
    assert [] + [Index(0)] == [Index(0)] && [] + [Index(1)] == [Index(1)];
    assert h2.found == [Found([Index(0)], 0), Found([Index(1)], 1)] && h2.done == {0, 1};
  }

  // `{ no = { p = <20>; recurseForDerivations = false; }; off = { p = <21>; };
  //    on = { p = <22>; recurseForDerivations = true; }; }`, with packages 20, 21 and 22.
  function FlagWorld(): World {
    World(
      (v: Ref) =>
        if v <= 3 then AttrsV(v)
        else if 20 <= v <= 22 then AttrsV(v)
        else if v == 10 then BoolV(false)
        else if v == 11 then BoolV(true)
        else StrV("derivation"),
      (v: Ref, here: string) => Ok(v),
      (id: nat) =>
        if id == 0 then [Attribute("no", 1), Attribute("off", 2), Attribute("on", 3)]
        else if id == 1 then [Attribute("p", 20), Attribute("recurseForDerivations", 10)]
        else if id == 2 then [Attribute("p", 21)]
        else if id == 3 then [Attribute("p", 22), Attribute("recurseForDerivations", 11)]
        else [Attribute("name", 30), Attribute("type", 31)])
  }

  /** The texts that play a part there differ. */
  lemma FlagTexts()
    ensures "no" != "type" && "off" != "type" && "on" != "type" && "p" != "type" && "recurseForDerivations" != "type" && "name" != "type"
    ensures "no" != "_combineChannels" && "off" != "_combineChannels" && "on" != "_combineChannels"
    ensures "p" != "_combineChannels" && "recurseForDerivations" != "_combineChannels" && "p" != "recurseForDerivations"
  {
    assert "name"[0] != "type"[0];
  }

  /** What is looked up in the sets of that world. */
  lemma FlagLookups()
    ensures var w := FlagWorld();
      && Lookup(w.attrs(0), "type") == None && Lookup(w.attrs(0), "_combineChannels") == None
      && (forall id: nat :: 1 <= id <= 3 ==> Lookup(w.attrs(id), "type") == None && Lookup(w.attrs(id), "_combineChannels") == None)
      && Lookup(w.attrs(1), "recurseForDerivations") == Some(10) && Lookup(w.attrs(2), "recurseForDerivations") == None
      && Lookup(w.attrs(3), "recurseForDerivations") == Some(11)
  {
    FlagTexts();
    var w := FlagWorld();
    assert w.attrs(0)[1..] == [Attribute("off", 2), Attribute("on", 3)] && w.attrs(0)[1..][1..] == [Attribute("on", 3)] && w.attrs(0)[1..][1..][1..] == [];
    forall id: nat | 1 <= id <= 3 ensures Lookup(w.attrs(id), "type") == None && Lookup(w.attrs(id), "_combineChannels") == None {
      if id == 2 {
        assert w.attrs(id)[1..] == [];
      } else {
        assert w.attrs(id)[1..] == [Attribute("recurseForDerivations", if id == 1 then 10 else 11)] && w.attrs(id)[1..][1..] == [];
      }
    }
    assert w.attrs(1)[1..] == [Attribute("recurseForDerivations", 10)] && w.attrs(3)[1..] == [Attribute("recurseForDerivations", 11)];
    assert w.attrs(2)[1..] == [];
  }

  lemma FlagNamesAreSearched()
    ensures IsAttrPathComponent("no") && IsAttrPathComponent("off") && IsAttrPathComponent("on")
    ensures IsAttrPathComponent("p") && IsAttrPathComponent("recurseForDerivations")
  {}

  lemma OneAttr(w: World, id: nat, k: nat, moves: seq<Move>, here: seq<Move>, h: Hunt, h1: Hunt, h2: Hunt, depth: nat)
    requires k < |w.attrs(id)| && IsAttrPathComponent(w.attrs(id)[k].name) && here == moves + [Name(w.attrs(id)[k].name)]
    requires SearchAttr(w, CombinesChannels(w, id), w.attrs(id)[k].value, here, h, false, depth) == Ok(h1)
    requires SearchAttrs(w, id, k + 1, moves, h1, false, depth) == Ok(h2)
    ensures SearchAttrs(w, id, k, moves, h, false, depth) == Ok(h2)
  {}

  lemma NoAttrs(w: World, id: nat, moves: seq<Move>, h: Hunt, depth: nat)
    ensures SearchAttrs(w, id, |w.attrs(id)|, moves, h, false, depth) == Ok(h)
  {}

  /** An attribute that is no package and asks for no search changes nothing. */
  lemma NotSearched(w: World, v: Ref, here: seq<Move>, h: Hunt, depth: nat)
    requires Inspect(w, v) == NotDerivation && (w.view(v).AttrsV? ==> WantsRecursion(w, w.view(v).id) == Ok(false))
    ensures SearchAttr(w, false, v, here, h, false, depth) == Ok(h)
  {}

  /** What the search finds in that world. */
  ghost predicate LooksFlagged(w: World) {
    && (forall v: Ref, here :: w.auto(v, here) == Ok(v))
    && w.view(0) == AttrsV(0) && w.view(1) == AttrsV(1) && w.view(2) == AttrsV(2) && w.view(3) == AttrsV(3) && w.view(11).BoolV?
    && w.attrs(0) == [Attribute("no", 1), Attribute("off", 2), Attribute("on", 3)]
    && w.attrs(3) == [Attribute("p", 22), Attribute("recurseForDerivations", 11)]
    && JudgedFlagged(w)
  }

  ghost predicate JudgedFlagged(w: World) {
    && !CombinesChannels(w, 0) && !CombinesChannels(w, 3)
    && Inspect(w, 0) == Inspect(w, 1) == Inspect(w, 2) == Inspect(w, 3) == Inspect(w, 11) == NotDerivation
    && WantsRecursion(w, 1) == WantsRecursion(w, 2) == Ok(false) && WantsRecursion(w, 3) == Ok(true)
    && Inspect(w, 22) == Derivation(22) && NameError(w, 22) == None
  }

  lemma FlagWorldLooks()
    ensures LooksFlagged(FlagWorld())
  {
    FlagWorldJudged();
  }

  lemma FlagWorldJudged()
    ensures JudgedFlagged(FlagWorld())
  {
    FlagWorldSets();
    FlagWorldWants();
    FlagWorldPackage();
  }

  lemma FlagWorldSets()
    ensures var w := FlagWorld();
      && !CombinesChannels(w, 0) && !CombinesChannels(w, 3)
      && Inspect(w, 0) == Inspect(w, 1) == Inspect(w, 2) == Inspect(w, 3) == Inspect(w, 11) == NotDerivation
  {
    FlagLookups();
  }

  lemma FlagWorldWants()
    ensures var w := FlagWorld(); WantsRecursion(w, 1) == WantsRecursion(w, 2) == Ok(false) && WantsRecursion(w, 3) == Ok(true)
  {
    FlagLookups();
  }

  lemma FlagWorldPackage()
    ensures Inspect(FlagWorld(), 22) == Derivation(22) && NameError(FlagWorld(), 22) == None
  {
    var w := FlagWorld();
    assert "name"[0] != "type"[0];
    assert w.attrs(22)[1..] == [Attribute("type", 31)];
    assert Lookup(w.attrs(22), "type") == Some(31) && Lookup(w.attrs(22), "name") == Some(30);
    assert w.view(30) == w.view(31) == StrV("derivation");
  }

  /** Of three nested sets, only the one that asks for it is searched. */
  lemma OnlyFlaggedIsReported()
    ensures Search(FlagWorld(), 0, [], Hunt([], {}), false, 3) == Ok(Hunt([Found([Name("on"), Name("p")], 22)], {22}))
  {
    FlagWorldLooks();
    SearchRoot(FlagWorld(), Hunt([], {}));
  }

  lemma SearchRoot(w: World, h: Hunt)
    requires LooksFlagged(w) && h == Hunt([], {})
    ensures Search(w, 0, [], h, false, 3) == Ok(Hunt([Found([Name("on"), Name("p")], 22)], {22}))
  {
    var h1 := Hunt([Found([Name("on"), Name("p")], 22)], {22});
    FlagNamesAreSearched();
    SearchFlagged(w, h);
    NoAttrs(w, 0, [], h1, 2);
    OneAttr(w, 0, 2, [], [Name("on")], h, h1, h1, 2);
    NotSearched(w, 2, [Name("off")], h, 2);
    OneAttr(w, 0, 1, [], [Name("off")], h, h, h1, 2);
    NotSearched(w, 1, [Name("no")], h, 2);
    OneAttr(w, 0, 0, [], [Name("no")], h, h, h1, 2);
  }

  lemma SearchFlagged(w: World, h: Hunt)
    requires LooksFlagged(w) && h == Hunt([], {})
    ensures SearchAttr(w, false, 3, [Name("on")], h, false, 2) == Ok(Hunt([Found([Name("on"), Name("p")], 22)], {22}))
  {
    var here := [Name("on"), Name("p")];
    var h1 := Hunt([Found(here, 22)], {22});
    FlagNamesAreSearched();
    PackageAttr(w, 22, 22, here, h, 1);
    assert h.done + {22} == {22} && h.found + [Found(here, 22)] == [Found(here, 22)];
    NoAttrs(w, 3, [Name("on")], h1, 1);
    NotSearched(w, 11, [Name("on"), Name("recurseForDerivations")], h1, 1);
    OneAttr(w, 3, 1, [Name("on")], [Name("on"), Name("recurseForDerivations")], h1, h1, h1, 1);
    OneAttr(w, 3, 0, [Name("on")], here, h, h1, h1, 1);
    SearchedSet(w, 3, 3, [Name("on")], h, h1, 1);
  }

  lemma SearchedSet(w: World, v: Ref, id: nat, here: seq<Move>, h: Hunt, h1: Hunt, depth: nat)
    requires w.auto(v, Render(here)) == Ok(v) && w.view(v) == AttrsV(id) && Inspect(w, v) == NotDerivation && WantsRecursion(w, id) == Ok(true)
    requires SearchAttrs(w, id, 0, here, h, false, depth) == Ok(h1)
    ensures SearchAttr(w, false, v, here, h, false, depth + 1) == Ok(h1)
  {}

  lemma PackageAttr(w: World, v: Ref, id: nat, here: seq<Move>, h: Hunt, depth: nat)
    requires Inspect(w, v) == Derivation(id) && NameError(w, id) == None && id !in h.done
    ensures SearchAttr(w, false, v, here, h, false, depth) == Ok(Hunt(h.found + [Found(here, id)], h.done + {id}))
  {}

  /** The exported `getDerivations` with an empty prefix. */
  method GetAllDerivations(w: World, v: Ref, ignore: bool, depth: nat) returns (r: Result<seq<Package>, Error>, ghost found: seq<Found>)
    requires Valid(w)
    ensures r.Ok? ==> |found| == |r.value| && forall i :: 0 <= i < |found| ==>
      && r.value[i] == Package(Render(found[i].moves), found[i].id)
      && Components(r.value[i].path, "") == Ok(Texts(found[i].moves))
      && (AllFit(found[i].moves) <==> Reaches(w, v, r.value[i]))
    ensures r.Ok? ==> forall id ::
      (exists i :: 0 <= i < |r.value| && r.value[i].id == id) <==> Exposes(w, v, [], id, depth) && NameError(w, id).None?
    ensures r.Ok? ==> forall i, j :: 0 <= i < j < |r.value| ==> r.value[i].id != r.value[j].id
  {
    var c := new Collector();
    var failed := c.GetDerivations(w, v, "", [], ignore, depth);
    found := c.found;
    if failed.Some? { return Err(failed.value), found; }
    r := Ok(c.drvs);
    SearchLeads(w, v, v, [], Hunt([], {}), ignore, depth);
    forall i | 0 <= i < |found| ensures
        && Components(r.value[i].path, "") == Ok(Texts(found[i].moves))
        && (AllFit(found[i].moves) <==> Reaches(w, v, r.value[i])) {
      assert found[i] in found;
      PathsCanBeFollowed(w, v, found[i]);
    }
    forall id ensures (exists i :: 0 <= i < |r.value| && r.value[i].id == id) <==> Exposes(w, v, [], id, depth) && NameError(w, id).None? {
      ReportedExactlyWhenExposed(w, v, ignore, depth, id);
      assert (exists i :: 0 <= i < |r.value| && r.value[i].id == id) <==> Reported(Hunt(found, c.done), id);
    }
    ReportedExactlyWhenExposed(w, v, ignore, depth, 0);
  }
}

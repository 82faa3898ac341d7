/** Selection paths: `parseAttrPath`, `string2Int<unsigned int>` and `findAlongAttrPath`. */
module AttrPath {
  import opened Wrappers

  type Ref = nat

  datatype Error = AssertionFailed | TypeMismatch | NotFound | EmptyName | UnclosedQuote | TooDeep | Failure

  // What forcing a value gives. `AttrsV` names the attribute array, which values may share.
  datatype View = Fails(error: Error) | AttrsV(id: nat) | ListV(elems: seq<Ref>) | StrV(text: string) | BoolV(flag: bool) | OtherV

  datatype Attribute = Attribute(name: string, value: Ref)

  // `auto` is `autoCallFunction` with the automatic arguments fixed. Each call builds its result
  // anew, so the same function called at two paths may give two values.
  datatype World = World(view: Ref -> View, auto: (Ref, string) -> Result<Ref, Error>, attrs: nat -> seq<Attribute>)

  ghost predicate Valid(w: World) {
    forall id: nat, i, j :: 0 <= i < j < |w.attrs(id)| ==> w.attrs(id)[i].name != w.attrs(id)[j].name
  }

  function Lookup(attrs: seq<Attribute>, name: string): (r: Option<Ref>)
    ensures r.None? ==> forall i :: 0 <= i < |attrs| ==> attrs[i].name != name
    ensures r.Some? ==> exists i :: 0 <= i < |attrs| && attrs[i] == Attribute(name, r.value)
  {
    if attrs == [] then None
    else if attrs[0].name == name then Some(attrs[0].value)
    else
      var rest := Lookup(attrs[1..], name);
      assert rest.Some? ==> exists i :: 0 <= i < |attrs| - 1 && attrs[1..][i] == attrs[i + 1] == Attribute(name, rest.value);
      rest
  }

  lemma LookupAt(w: World, id: nat, i: nat)
    requires Valid(w) && i < |w.attrs(id)|
    ensures Lookup(w.attrs(id), w.attrs(id)[i].name) == Some(w.attrs(id)[i].value)
  {
    var attrs := w.attrs(id);
    var r := Lookup(attrs, attrs[i].name);
    var j :| 0 <= j < |attrs| && attrs[j] == Attribute(attrs[i].name, r.value);
    assert j == i;
  }

  // ---- reading a path ----

  function Prepend(names: seq<string>, r: Result<seq<string>, Error>): Result<seq<string>, Error> {
    match r
    case Ok(rest) => Ok(names + rest)
    case Err(e) => Err(e)
  }

  /** The components of `cur + s`, where `cur` has been read and `s` has not. */
  function Components(s: string, cur: string): Result<seq<string>, Error>
    decreases |s|
  {
    if s == "" then Ok(if cur == "" then [] else [cur])
    else if s[0] == '.' then Prepend([cur], Components(s[1..], ""))
    else if s[0] == '"' then InQuotes(s[1..], cur)
    else Components(s[1..], cur + [s[0]])
  }

  function InQuotes(s: string, cur: string): Result<seq<string>, Error>
    decreases |s|
  {
    if s == "" then Err(UnclosedQuote)
    else if s[0] == '"' then Components(s[1..], cur)
    else InQuotes(s[1..], cur + [s[0]])
  }

  lemma PrependTwice(xs: seq<string>, ys: seq<string>, r: Result<seq<string>, Error>)
    ensures Prepend(xs, Prepend(ys, r)) == Prepend(xs + ys, r)
  {
    if r.Ok? { assert xs + (ys + r.value) == (xs + ys) + r.value; }
  }

  method ParseAttrPath(s: string) returns (r: Result<seq<string>, Error>)
    ensures r == Components(s, "")
  {
    var res: seq<string>, cur, i := [], "", 0;
    assert s[0..] == s;
    assert Components(s, "").Ok? ==> [] + Components(s, "").value == Components(s, "").value;
    while i != |s|
      invariant 0 <= i <= |s|
      invariant Components(s, "") == Prepend(res, Components(s[i..], cur))
    {
      assert s[i..][1..] == s[i + 1..];
      if s[i] == '.' {
        PrependTwice(res, [cur], Components(s[i + 1..], ""));
        res, cur := res + [cur], "";
      } else if s[i] == '"' {
        i := i + 1;
        while true
          invariant 0 <= i <= |s|
          invariant Components(s, "") == Prepend(res, InQuotes(s[i..], cur))
          decreases |s| - i
        {
          if i == |s| { return Err(UnclosedQuote); }
          assert s[i..][1..] == s[i + 1..];
          if s[i] == '"' { break; }
          cur, i := cur + [s[i]], i + 1;
        }
      } else {
        cur := cur + [s[i]];
      }
      i := i + 1;
    }
    assert s[i..] == "" && res + [] == res;
    if cur != "" { res := res + [cur]; }
    return Ok(res);
  }

  /** Neither a separator nor a quote. */
  ghost predicate IsPlain(s: string) {
    forall c :: c in s ==> c != '.' && c != '"'
  }

  lemma {:induction false} ReadPlain(t: string, rest: string, cur: string)
    requires IsPlain(t)
    ensures Components(t + rest, cur) == Components(rest, cur + t)
    decreases |t|
  {
    if t == "" {
      assert t + rest == rest && cur + t == cur;
    } else {
      assert t[0] in t;
      assert (t + rest)[1..] == t[1..] + rest;
      assert (cur + [t[0]]) + t[1..] == cur + t;
      assert forall c :: c in t[1..] ==> c in t;
      ReadPlain(t[1..], rest, cur + [t[0]]);
    }
  }

  lemma {:induction false} ReadQuoted(t: string, rest: string, cur: string)
    requires '"' !in t
    ensures InQuotes(t + "\"" + rest, cur) == Components(rest, cur + t)
    decreases |t|
  {
    if t == "" {
      assert (t + "\"" + rest)[1..] == rest && cur + t == cur;
    } else {
      assert (t + "\"" + rest)[1..] == t[1..] + "\"" + rest;
      assert (cur + [t[0]]) + t[1..] == cur + t;
      ReadQuoted(t[1..], rest, cur + [t[0]]);
    }
  }

  /** Every name between quotes, with dots in between. */
  function QuoteAll(names: seq<string>): string {
    if names == [] then ""
    else "\"" + names[0] + "\"" + if |names| == 1 then "" else "." + QuoteAll(names[1..])
  }

  /** An empty last name cannot be told from none. */
  function WithoutEmptyLast(names: seq<string>): seq<string> {
    if names != [] && names[|names| - 1] == "" then names[..|names| - 1] else names
  }

  ghost predicate NoQuotes(names: seq<string>) {
    forall n :: n in names ==> '"' !in n
  }

  /** No component that is read ever holds a quote. */
  lemma {:induction false} ReadNoQuotes(s: string, cur: string)
    requires '"' !in cur
    ensures Components(s, cur).Ok? ==> NoQuotes(Components(s, cur).value)
    ensures InQuotes(s, cur).Ok? ==> NoQuotes(InQuotes(s, cur).value)
    decreases |s|
  {
    if s != "" {
      ReadNoQuotes(s[1..], "");
      ReadNoQuotes(s[1..], cur);
      if s[0] != '"' { ReadNoQuotes(s[1..], cur + [s[0]]); }
    }
  }

  /** Quoted names are read back, but for an empty last one, if and only if none holds a quote. */
  lemma QuotingRoundTrip(names: seq<string>)
    ensures Components(QuoteAll(names), "") == Ok(WithoutEmptyLast(names)) <==> NoQuotes(names)
  {
    if NoQuotes(names) {
      QuotedIsRead(names);
    } else {
      var n :| n in names && '"' in n;
      var k :| 0 <= k < |names| && names[k] == n;
      assert WithoutEmptyLast(names)[k] == n;
      ReadNoQuotes(QuoteAll(names), "");
    }
  }

  lemma {:induction false} QuotedIsRead(names: seq<string>)
    requires NoQuotes(names)
    ensures Components(QuoteAll(names), "") == Ok(WithoutEmptyLast(names))
    decreases |names|
  {
    if names != [] {
      var t := names[0];
      assert t in names;
      var rest := if |names| == 1 then "" else "." + QuoteAll(names[1..]);
      assert QuoteAll(names) == "\"" + (t + "\"" + rest);
      assert QuoteAll(names)[1..] == t + "\"" + rest;
      ReadQuoted(t, rest, "");
      assert "" + t == t;
      if |names| > 1 {
        QuotedIsRead(names[1..]);
        assert rest[1..] == QuoteAll(names[1..]);
        assert Components(QuoteAll(names), "") == Prepend([t], Components(QuoteAll(names[1..]), ""));
        assert names == [t] + names[1..];
        assert names[..|names| - 1] == [t] + names[1..][..|names| - 2];
      } else {
        assert rest == "";
        assert names == [t] && names[..0] == [];
      }
    }
  }

  // ---- indices ----

  predicate IsDigit(c: char) {
    '0' <= c <= '9'
  }

  predicate AllDigits(s: string) {
    forall i :: 0 <= i < |s| ==> IsDigit(s[i])
  }

  function DigitsValue(s: string): nat
    requires AllDigits(s)
  {
    if s == "" then 0
    else DigitsValue(s[..|s| - 1]) * 10 + (s[|s| - 1] - '0') as nat
  }

  const UINT_LIMIT: nat := 0x1_0000_0000

  /** `string2Int<unsigned int>`: an optional `+` and digits whose value fits in 32 bits. */
  function String2Unsigned(s: string): Option<nat> {
    if s != "" && s[0] == '-' then None else
    var digits := if s != "" && s[0] == '+' then s[1..] else s;
    if digits == "" || !AllDigits(digits) || DigitsValue(digits) >= UINT_LIMIT then None
    else Some(DigitsValue(digits))
  }

  /** Decimal notation, as the index of a list element is printed. */
  function Decimal(n: nat): string {
    (if n < 10 then "" else Decimal(n / 10)) + ['0' + (n % 10) as char]
  }

  lemma {:induction false} DecimalValue(n: nat)
    ensures Decimal(n) != "" && AllDigits(Decimal(n)) && DigitsValue(Decimal(n)) == n
  {
    var rest := if n < 10 then "" else Decimal(n / 10);
    if n >= 10 { DecimalValue(n / 10); }
    DigitsSnoc(rest, n % 10);
  }

  lemma DigitsSnoc(s: string, k: nat)
    requires AllDigits(s) && k < 10
    ensures var t := s + ['0' + k as char]; AllDigits(t) && DigitsValue(t) == DigitsValue(s) * 10 + k
  {
    var t := s + ['0' + k as char];
    assert t[..|t| - 1] == s;
  }

  /** A printed index is read back exactly when it fits in 32 bits. */
  lemma IndexReadBack(n: nat)
    ensures String2Unsigned(Decimal(n)) == if n < UINT_LIMIT then Some(n) else None
  {
    DecimalValue(n);
    assert IsDigit(Decimal(n)[0]);
  }

  // ---- following a path ----

  function AddToPath(s1: string, s2: string): string {
    if s1 == "" then s2 else s1 + "." + s2
  }

  /** One round of the loop of `findAlongAttrPath`; `here` is the path followed so far. */
  function FollowOne(w: World, token: string, v: Ref, here: string): Result<Ref, Error> {
    var called :- w.auto(v, here);
    match w.view(called)
    case Fails(e) => Err(e)
    case AttrsV(id) =>
      if String2Unsigned(token).Some? then Err(TypeMismatch)
      else if token == "" then Err(EmptyName)
      else (match Lookup(w.attrs(id), token) case None => Err(NotFound) case Some(r) => Ok(r))
    case ListV(elems) =>
      (match String2Unsigned(token)
       case None => Err(TypeMismatch)
       case Some(i) => if i < |elems| then Ok(elems[i]) else Err(NotFound))
    case _ => Err(TypeMismatch)
  }

  function Follow(w: World, tokens: seq<string>, v: Ref, here: string): Result<Ref, Error> {
    if tokens == [] then Ok(v) else
    var next :- FollowOne(w, tokens[0], v, here);
    Follow(w, tokens[1..], next, AddToPath(here, tokens[0]))
  }

  function FindAlong(w: World, path: string, v: Ref): Result<Ref, Error> {
    var tokens :- Components(path, "");
    Follow(w, tokens, v, "")
  }

  method FindAlongAttrPath(w: World, path: string, vIn: Ref) returns (r: Result<Ref, Error>)
    ensures r == FindAlong(w, path, vIn)
  {
    var parsed := ParseAttrPath(path);
    if parsed.Err? { return Err(parsed.error); }
    var tokens, v, k := parsed.value, vIn, 0;
    var here := "";
    while k < |tokens|
      invariant 0 <= k <= |tokens|
      invariant Follow(w, tokens, vIn, "") == Follow(w, tokens[k..], v, here)
    {
      var attr := tokens[k];
      assert tokens[k..][0] == attr && tokens[k..][1..] == tokens[k + 1..];
      var next := FollowToken(w, attr, v, here);
      if next.Err? { return next; }
      v := next.value;
      here := AddToPath(here, attr);
      k := k + 1;
    }
    return Ok(v);
  }

  /** The value is auto-called, and the token taken as an index of a list or a name in a set. */
  method FollowToken(w: World, attr: string, v: Ref, here: string) returns (r: Result<Ref, Error>)
    ensures r == FollowOne(w, attr, v, here)
  {
    var attrIndex := String2Unsigned(attr);
    var called := w.auto(v, here);
    if called.Err? { return Err(called.error); }
    var view := w.view(called.value);
    if view.Fails? { return Err(view.error); }
    if attrIndex.None? {
      if !view.AttrsV? { return Err(TypeMismatch); }
      if attr == "" { return Err(EmptyName); }
      var a := Lookup(w.attrs(view.id), attr);
      return if a.None? then Err(NotFound) else Ok(a.value);
    }
    if !view.ListV? { return Err(TypeMismatch); }
    return if attrIndex.value >= |view.elems| then Err(NotFound) else Ok(view.elems[attrIndex.value]);
  }
}

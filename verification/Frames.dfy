/** What the frames of `let`, `rec`, lambdas and lists of arguments hold, and which frame a name
    belongs to, said of the states themselves. A run that suspends every expression is
    considered; `Reuse` shows what reusing slots and constants changes. */
module Frames {
  import opened Wrappers
  import opened SortedAttrs
  import opened Syntax
  import opened Scope
  import opened Machine
  import opened NamedEval

  function Nth<T>(xs: List<T>, k: nat): T
    requires k < Length(xs)
  {
    if k == 0 then xs.head else Nth(xs.tail, k - 1)
  }

  // ---- names ----

  /** The environments from `env` outwards. */
  function Chain(envs: seq<NFrame>, env: nat): seq<nat> {
    if env >= |envs| then []
    else [env] + match envs[env].up case Some(u) => if u < env then Chain(envs, u) else [] case None => []
  }

  ghost predicate Declares(envs: seq<NFrame>, i: nat, name: Symbol) {
    i < |envs| && envs[i].NVars? && name in envs[i].vars
  }

  /** The k-th environment of the chain is the first that declares the name. */
  ghost predicate FirstAt(envs: seq<NFrame>, chain: seq<nat>, name: Symbol, k: nat) {
    k < |chain| && Declares(envs, chain[k], name) && forall j :: 0 <= j < k ==> !Declares(envs, chain[j], name)
  }

  ghost predicate NoneDeclares(envs: seq<NFrame>, chain: seq<nat>, name: Symbol) {
    forall j :: 0 <= j < |chain| ==> !Declares(envs, chain[j], name)
  }

  lemma NotAtHead(envs: seq<NFrame>, env: nat, chain: seq<nat>, name: Symbol, k: nat)
    requires !Declares(envs, env, name)
    ensures FirstAt(envs, chain, name, k) ==> FirstAt(envs, [env] + chain, name, k + 1) && ([env] + chain)[k + 1] == chain[k]
    ensures NoneDeclares(envs, chain, name) ==> NoneDeclares(envs, [env] + chain, name)
  {
    assert forall j :: 0 <= j < |chain| ==> ([env] + chain)[j + 1] == chain[j];
  }

  /** A name denotes what the innermost environment that declares it holds for it. */
  lemma {:induction false} InnermostDecides(envs: seq<NFrame>, env: nat, name: Symbol)
    ensures match Find(envs, env, name)
      case None => NoneDeclares(envs, Chain(envs, env), name)
      case Some(x) => exists k: nat :: FirstAt(envs, Chain(envs, env), name, k) && x == envs[Chain(envs, env)[k]].vars[name]
    decreases env
  {
    if env < |envs| {
      var chain := Chain(envs, env);
      if Declares(envs, env, name) {
        assert chain[0] == env && FirstAt(envs, chain, name, 0);
      } else if envs[env].up.Some? && envs[env].up.value < env {
        var u := envs[env].up.value;
        InnermostDecides(envs, u, name);
        NotAtHead(envs, env, Chain(envs, u), name, 0);
        if Find(envs, u, name).Some? {
          var k: nat :| FirstAt(envs, Chain(envs, u), name, k) && Find(envs, u, name).value == envs[Chain(envs, u)[k]].vars[name];
          NotAtHead(envs, env, Chain(envs, u), name, k);
        }
      } else {
        assert chain == [env];
      }
    }
  }

  // ---- suspended expressions ----

  /** The k-th expression is suspended in its own new cell. */
  lemma {:induction false} ThunksMean(es: List<Named>, env: nat, s: NState)
    requires !s.reuse
    ensures
      var (cs, s') := ThunksN(es, env, s);
      && |cs| == Length(es) && s' == s.(cells := s'.cells) && |s'.cells| == |s.cells| + |cs| && s.cells <= s'.cells
      && forall k :: 0 <= k < |cs| ==> cs[k] == |s.cells| + k && s'.cells[cs[k]] == Thunk(Nth(es, k), env)
    decreases es
  {
    if es.Cons? { ThunksMean(es.tail, env, MaybeThunkN(es.head, env, s).1); }
  }

  // ---- definitions ----

  /** The environment in which a definition is evaluated: the new frame, or that outside, or
      the frame of the sources of `inherit (src)`. */
  ghost predicate EvaluatedIn(kind: Kind, inner: nat, outer: nat, sources: nat, env: nat) {
    && (kind.Plain? ==> env == inner)
    && (kind.Inherited? ==> env == outer)
    && (kind.InheritedFrom? ==> env == sources)
  }

  /** Cell `c` suspends the definition where its kind says. */
  ghost predicate Suspends(s: NState, c: nat, d: AttrDef<(), ()>, inner: nat, outer: nat, sources: nat) {
    c < |s.cells| && s.cells[c].Thunk? && s.cells[c].e == d.e && EvaluatedIn(d.kind, inner, outer, sources, s.cells[c].env)
  }

  /** The frame `env` binds exactly the names of `defs` anew, the k-th to cell `from` + k. */
  ghost predicate Bound(s: NState, s': NState, defs: List<AttrDef<(), ()>>, from: nat, env: nat) {
    && |s'.envs| == |s.envs| && env < |s.envs| && s.envs[env].NVars? && s'.envs[env].NVars? && s'.envs[env].up == s.envs[env].up
    && (forall i :: 0 <= i < |s.envs| && i != env ==> s'.envs[i] == s.envs[i])
    && (forall x :: x in s'.envs[env].vars <==> x in s.envs[env].vars || x in DefNames(defs))
    && (forall x :: x in s.envs[env].vars && x !in DefNames(defs) ==> s'.envs[env].vars[x] == s.envs[env].vars[x])
    && (forall k :: 0 <= k < Length(defs) ==> Nth(defs, k).name in s'.envs[env].vars && s'.envs[env].vars[Nth(defs, k).name] == Some(from + k))
  }

  lemma {:induction false} NamesAreNth(defs: List<AttrDef<(), ()>>)
    ensures |DefNames(defs)| == Length(defs)
    ensures forall k :: 0 <= k < Length(defs) ==> Nth(defs, k).name == DefNames(defs)[k]
    decreases defs
  {
    if defs.Cons? { NamesAreNth(defs.tail); }
  }

  /** The k-th of the attributes `xs` is that of the k-th definition, suspended in the k-th new cell. */
  ghost predicate Suspended(s: NState, s': NState, defs: List<AttrDef<(), ()>>, xs: seq<Attr<nat>>, inner: nat, outer: nat, sources: nat) {
    && |xs| == Length(defs) && |s'.cells| == |s.cells| + |xs| && s.cells <= s'.cells
    && (forall k :: 0 <= k < |xs| ==> xs[k] == Attr(Nth(defs, k).name, |s.cells| + k))
    && (forall k :: 0 <= k < |xs| ==> Suspends(s', |s.cells| + k, Nth(defs, k), inner, outer, sources))
  }

  lemma SuspendedCons(s: NState, s2: NState, s': NState, defs: List<AttrDef<(), ()>>, xs: seq<Attr<nat>>, inner: nat, outer: nat, sources: nat, env: nat)
    requires defs.Cons? && EvaluatedIn(defs.head.kind, inner, outer, sources, env)
    requires s2.cells == s.cells + [Thunk(defs.head.e, env)] && Suspended(s2, s', defs.tail, xs, inner, outer, sources)
    ensures Suspended(s, s', defs, [Attr(defs.head.name, |s.cells|)] + xs, inner, outer, sources)
  {
    var all: seq<Attr<nat>> := [Attr(defs.head.name, |s.cells|)] + xs;
    assert s'.cells[|s.cells|] == s2.cells[|s.cells|];
    forall k | 0 <= k < |all|
      ensures all[k] == Attr(Nth(defs, k).name, |s.cells| + k) && Suspends(s', |s.cells| + k, Nth(defs, k), inner, outer, sources)
    {
      if k > 0 { assert Nth(defs, k) == Nth(defs.tail, k - 1) && all[k] == xs[k - 1]; }
    }
  }

  /** A `let` or `rec`: every definition is suspended in the environment of its kind, and its
      name bound to its cell. */
  lemma {:induction false} DeclareMeans(defs: List<AttrDef<(), ()>>, always: bool, inner: nat, outer: nat, sources: nat, s: NState)
    requires !s.reuse && inner < |s.envs| && s.envs[inner].NVars? && Distinct(DefNames(defs))
    ensures
      var (xs, s') := DeclareN(defs, always, inner, outer, sources, s);
      Suspended(s, s', defs, xs, inner, outer, sources) && Bound(s, s', defs, |s.cells|, inner)
    decreases defs
  {
    if defs.Cons? {
      var d, rest := defs.head, defs.tail;
      var env := DefEnv(d.kind, inner, outer, sources);
      var s2 := SetVar(inner, d.name, |s.cells|, Alloc(Thunk(d.e, env), s).1);
      TailDistinct(d.name, DefNames(rest));
      DeclareMeans(rest, always, inner, outer, sources, s2);
      var (xs, s') := DeclareN(rest, always, inner, outer, sources, s2);
      SuspendedCons(s, s2, s', defs, xs, inner, outer, sources, env);
      BoundCons(defs, inner, s, s2, s');
    }
  }

  lemma TailDistinct(x: Symbol, xs: seq<Symbol>)
    requires Distinct([x] + xs)
    ensures Distinct(xs) && x !in xs
  {
    var all := [x] + xs;
    assert forall i :: 0 <= i < |xs| ==> xs[i] == all[i + 1];
    assert x == all[0];
  }

  lemma BoundCons(defs: List<AttrDef<(), ()>>, env: nat, s: NState, s2: NState, s': NState)
    requires defs.Cons? && env < |s.envs| && s.envs[env].NVars? && defs.head.name !in DefNames(defs.tail)
    requires s2.envs == s.envs[env := s.envs[env].(vars := s.envs[env].vars[defs.head.name := Some(|s.cells|)])]
    requires Bound(s2, s', defs.tail, |s.cells| + 1, env)
    ensures Bound(s, s', defs, |s.cells|, env)
  {
    NamesAreNth(defs.tail);
    forall k | 0 <= k < Length(defs)
      ensures Nth(defs, k).name in s'.envs[env].vars && s'.envs[env].vars[Nth(defs, k).name] == Some(|s.cells| + k)
    {
      if k > 0 { assert Nth(defs, k) == Nth(defs.tail, k - 1); }
    }
  }

  /** A set that is not recursive: the same without a frame. */
  lemma {:induction false} ThunkDefsMean(defs: List<AttrDef<(), ()>>, env: nat, sources: nat, s: NState)
    requires !s.reuse
    ensures
      var (xs, s') := ThunkDefsN(defs, env, sources, s);
      Suspended(s, s', defs, xs, env, env, sources) && s'.envs == s.envs
    decreases defs
  {
    if defs.Cons? {
      var d := defs.head;
      var target := DefEnv(d.kind, env, env, sources);
      var s1 := MaybeThunkN(d.e, target, s).1;
      ThunkDefsMean(defs.tail, env, sources, s1);
      var (xs, s') := ThunkDefsN(defs.tail, env, sources, s1);
      SuspendedCons(s, s1, s', defs, xs, env, env, sources, target);
    }
  }

  // ---- formals ----

  /** The formal has an argument, or else a default. */
  ghost predicate Supplied(f: Formal<(), ()>, args: seq<Attr<nat>>) {
    Get(args, f.name).Some? || f.def.Some?
  }

  /** A formal denotes its argument if there is one, and else its default, suspended in the frame. */
  ghost predicate BoundTo(s: NState, f: Formal<(), ()>, args: seq<Attr<nat>>, env: nat) {
    && env < |s.envs| && s.envs[env].NVars? && f.name in s.envs[env].vars
    && match Get(args, f.name)
       case Some(c) => s.envs[env].vars[f.name] == Some(c)
       case None =>
         && f.def.Some? && s.envs[env].vars[f.name].Some?
         && var c := s.envs[env].vars[f.name].value; c < |s.cells| && s.cells[c] == Thunk(f.def.value, env)
  }

  /** Names other than the formals' are bound as before. */
  ghost predicate OthersStay(s: NState, s': NState, names: seq<Symbol>, env: nat) {
    && s.cells <= s'.cells && env < |s.envs| == |s'.envs| && s.envs[env].NVars? && s'.envs[env].NVars?
    && (forall x :: x in s.envs[env].vars ==> x in s'.envs[env].vars)
    && (forall x :: x in s.envs[env].vars && x !in names ==> s'.envs[env].vars[x] == s.envs[env].vars[x])
  }

  /** The k-th formal is the first that is not supplied. */
  ghost predicate FirstUnsupplied(formals: List<Formal<(), ()>>, args: seq<Attr<nat>>, k: nat) {
    k < Length(formals) && !Supplied(Nth(formals, k), args) && forall j :: 0 <= j < k ==> Supplied(Nth(formals, j), args)
  }

  ghost predicate AllBound(s: NState, formals: List<Formal<(), ()>>, args: seq<Attr<nat>>, env: nat) {
    forall k :: 0 <= k < Length(formals) ==> Supplied(Nth(formals, k), args) && BoundTo(s, Nth(formals, k), args, env)
  }

  ghost predicate Matched(formals: List<Formal<(), ()>>, args: seq<Attr<nat>>, env: nat, s: NState, r: Out<(), NState>) {
    match r
    case Done(_, s') => OthersStay(s, s', FormalNames(formals), env) && AllBound(s', formals, args, env)
    case Raised(err) => exists k: nat :: FirstUnsupplied(formals, args, k) && err == MissingArg(Nth(formals, k).name)
    case OutOfFuel => false
  }

  /** Matching succeeds exactly when every formal is supplied, and then every formal is bound;
      otherwise the first one that is not supplied is reported. */
  lemma {:induction false} FormalsMean(formals: List<Formal<(), ()>>, args: seq<Attr<nat>>, env: nat, s: NState)
    requires !s.reuse && env < |s.envs| && s.envs[env].NVars? && Distinct(FormalNames(formals))
    ensures Matched(formals, args, env, s, FormalsN(formals, args, env, s))
    decreases formals
  {
    if formals.Cons? {
      var f, rest := formals.head, formals.tail;
      TailDistinct(f.name, FormalNames(rest));
      match Get(args, f.name)
      case Some(c) =>
        var s2 := SetVar(env, f.name, c, s);
        FormalsMean(rest, args, env, s2);
        MatchedCons(formals, args, env, s, s2, c, FormalsN(rest, args, env, s2));
      case None =>
        match f.def
        case None => assert FirstUnsupplied(formals, args, 0) && Nth(formals, 0) == f;
        case Some(d) =>
          var s2 := SetVar(env, f.name, |s.cells|, Alloc(Thunk(d, env), s).1);
          FormalsMean(rest, args, env, s2);
          MatchedCons(formals, args, env, s, s2, |s.cells|, FormalsN(rest, args, env, s2));
    }
  }

  lemma MatchedCons(formals: List<Formal<(), ()>>, args: seq<Attr<nat>>, env: nat, s: NState, s2: NState, c: nat, r: Out<(), NState>)
    requires formals.Cons? && env < |s.envs| && s.envs[env].NVars? && formals.head.name !in FormalNames(formals.tail)
    requires s2.envs == s.envs[env := s.envs[env].(vars := s.envs[env].vars[formals.head.name := Some(c)])]
    requires s.cells <= s2.cells && Supplied(formals.head, args) && BoundTo(s2, formals.head, args, env)
    requires Matched(formals.tail, args, env, s2, r)
    ensures Matched(formals, args, env, s, r)
  {
    match r
    case Done(_, s') =>
      StaysBound(s2, s', formals.head, args, env, FormalNames(formals.tail));
      forall k | 0 <= k < Length(formals) ensures Supplied(Nth(formals, k), args) && BoundTo(s', Nth(formals, k), args, env) {
        if k > 0 { assert Nth(formals, k) == Nth(formals.tail, k - 1); }
      }
    case Raised(err) =>
      var k: nat :| FirstUnsupplied(formals.tail, args, k) && err == MissingArg(Nth(formals.tail, k).name);
      assert Nth(formals, k + 1) == Nth(formals.tail, k);
      forall j | 0 <= j < k + 1 ensures Supplied(Nth(formals, j), args) {
        if j > 0 { assert Nth(formals, j) == Nth(formals.tail, j - 1); }
      }
      assert FirstUnsupplied(formals, args, k + 1);
  }

  lemma StaysBound(s: NState, s': NState, f: Formal<(), ()>, args: seq<Attr<nat>>, env: nat, names: seq<Symbol>)
    requires BoundTo(s, f, args, env) && OthersStay(s, s', names, env) && f.name !in names
    ensures BoundTo(s', f, args, env)
  {}

  /** An argument is unexpected exactly when no formal has its name, and the first such is
      reported. */
  lemma {:induction false} UnexpectedMeans(args: seq<Attr<nat>>, formals: seq<Symbol>)
    ensures match FirstUnexpected(args, formals)
      case None => forall i :: 0 <= i < |args| ==> args[i].name in formals
      case Some(x) => exists k :: 0 <= k < |args| && args[k].name == x && x !in formals && forall i :: 0 <= i < k ==> args[i].name in formals
  {
    if args != [] && args[0].name in formals {
      UnexpectedMeans(args[1..], formals);
      match FirstUnexpected(args[1..], formals)
      case None =>
        forall i | 0 <= i < |args| ensures args[i].name in formals {
          if i > 0 { assert args[i] == args[1..][i - 1]; }
        }
      case Some(x) =>
        var k :| 0 <= k < |args| - 1 && args[1..][k].name == x && x !in formals && forall i :: 0 <= i < k ==> args[1..][i].name in formals;
        forall i | 0 <= i < k + 1 ensures args[i].name in formals {
          if i > 0 { assert args[i] == args[1..][i - 1]; }
        }
        assert args[k + 1].name == x;
    }
  }

  // ---- overrides ----

  /** A name declared by the frame denotes the overriding attribute, if there is one, and
      every other name and environment is as before. */
  lemma OverrideMeans(over: seq<Attr<nat>>, env: nat, s: NState, i: nat, x: Symbol)
    requires env < |s.envs| && s.envs[env].NVars?
    ensures var s' := OverrideN(over, env, s);
      && s'.cells == s.cells && |s'.envs| == |s.envs|
      && (i < |s.envs| && i != env ==> s'.envs[i] == s.envs[i])
      && s'.envs[env].NVars? && s'.envs[env].up == s.envs[env].up && s'.envs[env].vars.Keys == s.envs[env].vars.Keys
      && (x in s.envs[env].vars ==>
            match Get(over, x)
            case Some(c) => s'.envs[env].vars[x] == Some(c)
            case None => s'.envs[env].vars[x] == s.envs[env].vars[x])
  {}
}

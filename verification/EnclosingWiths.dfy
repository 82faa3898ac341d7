/** Variables taken from `with`: evaluation moves no environment and no set of a `with`, so the
    sets asked are those that enclosed the variable at the start, each forced in its turn. */
module EnclosingWiths {
  import opened Wrappers
  import opened SortedAttrs
  import opened Syntax
  import opened Scope
  import opened Machine
  import opened NamedEval
  import opened AddressedEval
  import opened Correspondence
  import opened Simulation
  import opened LexicalAddressing

  // ---- what evaluation leaves as it was ----

  ghost predicate FrameStays(f: NFrame, g: NFrame) {
    g.up == f.up && (f.NWith? <==> g.NWith?) && (f.NWith? ==> g == f)
  }

  /** Every environment keeps its outer one, and every `with` its set. */
  ghost predicate Stays(s: NState, s': NState) {
    |s.envs| <= |s'.envs| && forall i :: 0 <= i < |s.envs| ==> FrameStays(s.envs[i], s'.envs[i])
  }

  ghost predicate StaysIn<T(!new)>(s: NState, r: Out<T, NState>) {
    r.Done? ==> Stays(s, r.s)
  }

  lemma StaysTwice(s: NState, s1: NState, s2: NState)
    requires Stays(s, s1) && Stays(s1, s2)
    ensures Stays(s, s2)
  {
    forall i | 0 <= i < |s.envs| ensures FrameStays(s.envs[i], s2.envs[i]) {
      assert FrameStays(s.envs[i], s1.envs[i]) && FrameStays(s1.envs[i], s2.envs[i]);
    }
  }

  lemma ThenStays<T(!new)>(s: NState, s1: NState, r: Out<T, NState>)
    requires Stays(s, s1) && StaysIn(s1, r)
    ensures StaysIn(s, r)
  {
    if r.Done? { StaysTwice(s, s1, r.s); }
  }

  lemma SameEnvs(s: NState, s': NState)
    requires s'.envs == s.envs
    ensures Stays(s, s')
  {}

  // ---- steps ----

  lemma {:induction false} ThunksStay(es: List<Named>, env: nat, s: NState)
    ensures ThunksN(es, env, s).1.envs == s.envs
    decreases es
  {
    if es.Cons? { ThunksStay(es.tail, env, MaybeThunkN(es.head, env, s).1); }
  }

  lemma PushStays(f: NFrame, s: NState)
    ensures Stays(s, PushN(f, s).1)
  {}

  lemma SetStays(env: nat, name: Symbol, c: nat, s: NState)
    ensures Stays(s, SetVar(env, name, c, s))
  {}

  lemma SourcesStay(from: List<Named>, up: nat, s: NState)
    ensures Stays(s, SourcesN(from, up, s).1)
  {
    if from.Cons? {
      ThunksStay(from, up, s);
      var (cs, s1) := ThunksN(from, up, s);
      PushStays(NSources(Some(up), cs), s1);
    }
  }

  lemma {:induction false} DeclareStays(defs: List<AttrDef<(), ()>>, always: bool, inner: nat, outer: nat, sources: nat, s: NState)
    ensures Stays(s, DeclareN(defs, always, inner, outer, sources, s).1)
    decreases defs
  {
    if defs.Cons? {
      var d := defs.head;
      var env := DefEnv(d.kind, inner, outer, sources);
      var (c, s1) := if always && !d.kind.Inherited? then Alloc(Thunk(d.e, env), s) else MaybeThunkN(d.e, env, s);
      SetStays(inner, d.name, c, s1);
      var s2 := SetVar(inner, d.name, c, s1);
      DeclareStays(defs.tail, always, inner, outer, sources, s2);
      StaysTwice(s, s2, DeclareN(defs.tail, always, inner, outer, sources, s2).1);
    }
  }

  lemma {:induction false} ThunkDefsStay(defs: List<AttrDef<(), ()>>, env: nat, sources: nat, s: NState)
    ensures ThunkDefsN(defs, env, sources, s).1.envs == s.envs
    decreases defs
  {
    if defs.Cons? { ThunkDefsStay(defs.tail, env, sources, MaybeThunkN(defs.head.e, DefEnv(defs.head.kind, env, env, sources), s).1); }
  }

  lemma OpenStays(defs: List<AttrDef<(), ()>>, from: List<Named>, always: bool, env: nat, s: NState)
    ensures Stays(s, OpenN(defs, from, always, env, s).1)
  {
    var f: NFrame := NVars(Some(env), Undeclared(DefNames(defs)));
    var (inner, s1) := PushN(f, s);
    var (sources, s2) := SourcesN(from, inner, s1);
    PushStays(f, s);
    SourcesStay(from, inner, s1);
    StaysTwice(s, s1, s2);
    DeclareStays(defs, always, inner, env, sources, s2);
    StaysTwice(s, s2, OpenN(defs, from, always, env, s).1);
  }

  lemma {:induction false} FormalsStay(formals: List<Formal<(), ()>>, args: seq<Attr<nat>>, env: nat, s: NState)
    ensures StaysIn(s, FormalsN(formals, args, env, s))
    decreases formals
  {
    if formals.Cons? {
      var f, rest := formals.head, formals.tail;
      if Get(args, f.name).Some? {
        var s1 := SetVar(env, f.name, Get(args, f.name).value, s);
        FormalsStay(rest, args, env, s1);
        ThenStays(s, s1, FormalsN(rest, args, env, s1));
      } else if f.def.Some? {
        var (c, s1) := MaybeThunkN(f.def.value, env, s);
        var s2 := SetVar(env, f.name, c, s1);
        FormalsStay(rest, args, env, s2);
        ThenStays(s, s2, FormalsN(rest, args, env, s2));
      }
    }
  }

  // ---- evaluation ----

  lemma {:induction false} ForceStays(n: nat, c: nat, s: NState)
    ensures StaysIn(s, ForceN(n, c, s))
    decreases n, 0, 0
  {
    if n > 0 && c < |s.cells| && s.cells[c].Thunk? {
      EvalStays(n - 1, s.cells[c].e, s.cells[c].env, s.(cells := s.cells[c := BlackHole]));
    }
  }

  /** No evaluation moves an environment or the set of a `with`. */
  lemma {:induction false} EvalStays(n: nat, e: Named, env: nat, s: NState)
    ensures StaysIn(s, EvalN(n, e, env, s))
    decreases n, 0, 2
  {
    if n > 0 {
      match e
      case Lit(_) =>
      case Lambda(_) =>
      case ListE(elems) => ThunksStay(elems, env, s);
      case Var(_, _) => VarStays(n, e, env, s);
      case InheritFrom(displ) =>
        if Source(s.envs, env, displ).Some? { ForceStays(n - 1, Source(s.envs, env, displ).value, s); }
      case Select(_, _, _) => SelectionStays(n, e, env, s);
      case HasAttr(_, _) => SelectionStays(n, e, env, s);
      case Attrs(attrs) => AttrsStay(n - 1, attrs, env, s);
      case Call(_, _) => CallExprStays(n, e, env, s);
      case Let(_, _, _) => LetStays(n, e, env, s);
      case With(_, _, _) => LetStays(n, e, env, s);
      case If(_, _, _) => ConditionStays(n, e, env, s);
      case Assert(_, _) => ConditionStays(n, e, env, s);
      case Not(_) => ConditionStays(n, e, env, s);
      case _ => BinaryStays(n, e, env, s);
    }
  }

  lemma {:induction false} VarStays(n: nat, e: Named, env: nat, s: NState)
    requires n > 0 && e.Var?
    ensures StaysIn(s, EvalN(n, e, env, s))
    decreases n, 0, 1
  {
    LookupStays(n - 1, e.name, env, s);
    var r := LookupN(n - 1, e.name, env, s);
    if r.Done? {
      ForceStays(n - 1, r.v, r.s);
      ThenStays(s, r.s, ForceN(n - 1, r.v, r.s));
    }
  }

  lemma {:induction false} SelectionStays(n: nat, e: Named, env: nat, s: NState)
    requires n > 0 && (e.Select? || e.HasAttr?)
    ensures StaysIn(s, EvalN(n, e, env, s))
    decreases n, 0, 1
  {
    EvalStays(n - 1, e.e, env, s);
    var r := EvalN(n - 1, e.e, env, s);
    if r.Done? {
      if e.Select? {
        SelectStays(n - 1, Direct(r.v), e.path, e.def, env, r.s);
      } else {
        HasAttrStays(n - 1, Direct(r.v), e.path, env, r.s);
      }
      ThenStays(s, r.s, EvalN(n, e, env, s));
    }
  }

  lemma {:induction false} CallExprStays(n: nat, e: Named, env: nat, s: NState)
    requires n > 0 && e.Call?
    ensures StaysIn(s, EvalN(n, e, env, s))
    decreases n, 0, 1
  {
    EvalStays(n - 1, e.fun, env, s);
    var r := EvalN(n - 1, e.fun, env, s);
    if r.Done? {
      ThunksStay(e.args, env, r.s);
      var (cs, s1) := ThunksN(e.args, env, r.s);
      CallStays(n - 1, r.v, cs, s1);
      SameEnvs(r.s, s1);
      StaysTwice(s, r.s, s1);
      ThenStays(s, s1, CallN(n - 1, r.v, cs, s1));
    }
  }

  lemma {:induction false} LetStays(n: nat, e: Named, env: nat, s: NState)
    requires n > 0 && (e.Let? || e.With?)
    ensures StaysIn(s, EvalN(n, e, env, s))
    decreases n, 0, 1
  {
    if e.Let? {
      OpenStays(e.defs, e.from, false, env, s);
      var s1 := OpenN(e.defs, e.from, false, env, s).1;
      EvalStays(n - 1, e.body, |s.envs|, s1);
      ThenStays(s, s1, EvalN(n - 1, e.body, |s.envs|, s1));
    } else {
      var (c, s1) := MaybeThunkN(e.scope, env, s);
      var (inner, s2) := PushN(NWith(Some(env), c), s1);
      EvalStays(n - 1, e.body, inner, s2);
      ThenStays(s, s2, EvalN(n - 1, e.body, inner, s2));
    }
  }

  lemma {:induction false} ConditionStays(n: nat, e: Named, env: nat, s: NState)
    requires n > 0 && (e.If? || e.Assert? || e.Not?)
    ensures StaysIn(s, EvalN(n, e, env, s))
    decreases n, 0, 1
  {
    var cond := if e.Not? then e.e else e.cond;
    EvalStays(n - 1, cond, env, s);
    var r := EvalN(n - 1, cond, env, s);
    if r.Done? && !e.Not? {
      var next := if e.Assert? then e.body else if r.v == Data(Bool(true)) then e.thn else e.els;
      EvalStays(n - 1, next, env, r.s);
      ThenStays(s, r.s, EvalN(n - 1, next, env, r.s));
    }
  }

  lemma {:induction false} BinaryStays(n: nat, e: Named, env: nat, s: NState)
    requires n > 0 && (e.BinBool? || e.Update? || e.ConcatLists?)
    ensures StaysIn(s, EvalN(n, e, env, s))
    decreases n, 0, 1
  {
    var first, second := if e.Update? then e.e2 else e.e1, if e.Update? then e.e1 else e.e2;
    EvalStays(n - 1, first, env, s);
    var r := EvalN(n - 1, first, env, s);
    if r.Done? {
      EvalStays(n - 1, second, env, r.s);
      ThenStays(s, r.s, EvalN(n - 1, second, env, r.s));
    }
  }

  lemma {:induction false} LookupStays(n: nat, name: Symbol, env: nat, s: NState)
    ensures StaysIn(s, LookupN(n, name, env, s))
    decreases n, 2
  {
    if Find(s.envs, env, name).None? { WithStays(n, name, env, s); }
  }

  lemma {:induction false} WithStays(n: nat, name: Symbol, env: nat, s: NState)
    ensures StaysIn(s, WithN(n, name, env, s))
    decreases n, 1, env, 1
  {
    if env < |s.envs| {
      match s.envs[env]
      case NWith(_, attrs) =>
        ForceStays(n, attrs, s);
        var r := ForceN(n, attrs, s);
        if r.Done? && r.v.AttrsV? && Get(r.v.attrs, name).None? && env < |r.s.envs| {
          OuterStays(n, name, r.s.envs[env].up, env, r.s);
          ThenStays(s, r.s, OuterN(n, name, r.s.envs[env].up, env, r.s));
        }
      case _ => OuterStays(n, name, s.envs[env].up, env, s);
    }
  }

  lemma {:induction false} OuterStays(n: nat, name: Symbol, up: Option<nat>, env: nat, s: NState)
    ensures StaysIn(s, OuterN(n, name, up, env, s))
    decreases n, 1, env, 0
  {
    if up.Some? && up.value < env { WithStays(n, name, up.value, s); }
  }

  lemma {:induction false} TargetStays(n: nat, t: Target<(), ()>, s: NState)
    ensures StaysIn(s, TargetN(n, t, s))
    decreases n, 1
  {
    if t.At? { ForceStays(n, t.cell, s); }
  }

  lemma {:induction false} NameStays(n: nat, a: AttrName<(), ()>, env: nat, s: NState)
    ensures StaysIn(s, NameN(n, a, env, s))
    decreases n, 1
  {
    if a.Dynamic? { EvalStays(n, a.e, env, s); }
  }

  lemma {:induction false} SelectStays(n: nat, t: Target<(), ()>, path: List<AttrName<(), ()>>, def: Option<Named>, env: nat, s: NState)
    ensures StaysIn(s, SelectN(n, t, path, def, env, s))
    decreases n, 2, path
  {
    if path.Nil? {
      TargetStays(n, t, s);
    } else {
      NameStays(n, path.head, env, s);
      var r := NameN(n, path.head, env, s);
      if r.Done? {
        TargetStays(n, t, r.s);
        var q := TargetN(n, t, r.s);
        if q.Done? {
          if q.v.AttrsV? && Get(q.v.attrs, r.v).Some? {
            SelectStays(n, At(Get(q.v.attrs, r.v).value), path.tail, def, env, q.s);
          } else if def.Some? {
            EvalStays(n, def.value, env, q.s);
          }
          StaysTwice(s, r.s, q.s);
          ThenStays(s, q.s, SelectN(n, t, path, def, env, s));
        }
      }
    }
  }

  lemma {:induction false} HasAttrStays(n: nat, t: Target<(), ()>, path: List<AttrName<(), ()>>, env: nat, s: NState)
    ensures StaysIn(s, HasAttrN(n, t, path, env, s))
    decreases n, 2, path
  {
    if path.Cons? {
      TargetStays(n, t, s);
      var r := TargetN(n, t, s);
      if r.Done? {
        NameStays(n, path.head, env, r.s);
        var q := NameN(n, path.head, env, r.s);
        if q.Done? {
          StaysTwice(s, r.s, q.s);
          if r.v.AttrsV? && Get(r.v.attrs, q.v).Some? {
            HasAttrStays(n, At(Get(r.v.attrs, q.v).value), path.tail, env, q.s);
            ThenStays(s, q.s, HasAttrN(n, t, path, env, s));
          }
        }
      }
    }
  }

  lemma {:induction false} AttrsStay(n: nat, attrs: AttrSet<(), ()>, env: nat, s: NState)
    ensures StaysIn(s, AttrsN(n, attrs, env, s))
    decreases n, 4
  {
    if attrs.recursive {
      RecIsN(n, attrs, env, s);
      var (bindings, s1) := OpenN(attrs.defs, attrs.from, OVERRIDES in DefNames(attrs.defs), env, s);
      OpenStays(attrs.defs, attrs.from, OVERRIDES in DefNames(attrs.defs), env, s);
      RecTailStays(n, attrs.dyn, bindings, |s.envs|, s1);
      ThenStays(s, s1, RecTailN(n, attrs.dyn, bindings, |s.envs|, s1));
    } else {
      var (sources, s1) := SourcesN(attrs.from, env, s);
      SourcesStay(attrs.from, env, s);
      ThunkDefsStay(attrs.defs, env, sources, s1);
      var (bindings, s2) := ThunkDefsN(attrs.defs, env, sources, s1);
      DynStays(n, attrs.dyn, bindings, env, s2);
      SameEnvs(s1, s2);
      StaysTwice(s, s1, s2);
      ThenStays(s, s2, DynN(n, attrs.dyn, bindings, env, s2));
    }
  }

  lemma {:induction false} RecTailStays(n: nat, dyn: List<DynAttr<(), ()>>, bindings: seq<Attr<nat>>, inner: nat, s: NState)
    ensures StaysIn(s, RecTailN(n, dyn, bindings, inner, s))
    decreases n, 3
  {
    match Get(bindings, OVERRIDES)
    case None => DynStays(n, dyn, bindings, inner, s);
    case Some(c) =>
      ForceStays(n, c, s);
      var r := ForceN(n, c, s);
      if r.Done? && r.v.AttrsV? {
        var s1 := OverrideN(r.v.attrs, inner, r.s);
        assert Stays(r.s, s1);
        StaysTwice(s, r.s, s1);
        DynStays(n, dyn, Merge(bindings, r.v.attrs), inner, s1);
        ThenStays(s, s1, DynN(n, dyn, Merge(bindings, r.v.attrs), inner, s1));
      }
  }

  lemma {:induction false} DynStays(n: nat, dyn: List<DynAttr<(), ()>>, bindings: seq<Attr<nat>>, env: nat, s: NState)
    ensures StaysIn(s, DynN(n, dyn, bindings, env, s))
    decreases n, 2, dyn
  {
    if dyn.Cons? {
      EvalStays(n, dyn.head.nameE, env, s);
      var r := EvalN(n, dyn.head.nameE, env, s);
      if r.Done? {
        if r.v == Data(Null) {
          DynStays(n, dyn.tail, bindings, env, r.s);
        } else if r.v.Data? && r.v.c.Str? && Get(bindings, r.v.c.sym).None? {
          var (c, s1) := MaybeThunkN(dyn.head.valueE, env, r.s);
          DynStays(n, dyn.tail, Insert(bindings, Attr(r.v.c.sym, c)), env, s1);
        }
        ThenStays(s, r.s, DynN(n, dyn, bindings, env, s));
      }
    }
  }

  lemma {:induction false} EnterStays(n: nat, lam: Lam<(), ()>, lamEnv: nat, arg: nat, s: NState)
    ensures StaysIn(s, EnterN(n, lam, lamEnv, arg, s))
    decreases n, 1
  {
    if lam.Pattern? {
      ForceStays(n, arg, s);
      var r := ForceN(n, arg, s);
      if r.Done? && r.v.AttrsV? {
        assert EnterN(n, lam, lamEnv, arg, s) == MatchN(lam, lamEnv, arg, r.v.attrs, r.s);
        var (inner, s1) := PushN(PatternFrameN(lam, lamEnv, arg), r.s);
        PushStays(PatternFrameN(lam, lamEnv, arg), r.s);
        FormalsStay(lam.formals, r.v.attrs, inner, s1);
        StaysTwice(s, r.s, s1);
        ThenStays(s, s1, FormalsN(lam.formals, r.v.attrs, inner, s1));
      }
    }
  }

  lemma {:induction false} CallStays(n: nat, f: NValue, args: seq<nat>, s: NState)
    ensures StaysIn(s, CallN(n, f, args, s))
    decreases n, 2, |args|
  {
    if args != [] {
      match f
      case Closure(lam, env) =>
        EnterStays(n, lam, env, args[0], s);
        var r := EnterN(n, lam, env, args[0], s);
        if r.Done? {
          EvalStays(n, lam.body, r.v, r.s);
          var q := EvalN(n, lam.body, r.v, r.s);
          if q.Done? {
            CallStays(n, q.v, args[1..], q.s);
            StaysTwice(s, r.s, q.s);
            ThenStays(s, q.s, CallN(n, q.v, args[1..], q.s));
          }
        }
      case AttrsV(attrs) =>
        if Get(attrs, FUNCTOR).Some? && n > 0 {
          FunctorStays(n, f, args[0], s);
          var r := FunctorN(n, f, args[0], s);
          if r.Done? {
            CallStays(n, r.v, args[1..], r.s);
            ThenStays(s, r.s, CallN(n, r.v, args[1..], r.s));
          }
        }
      case _ =>
    }
  }

  lemma {:induction false} FunctorStays(n: nat, f: NValue, arg: nat, s: NState)
    requires n > 0 && f.AttrsV? && Get(f.attrs, FUNCTOR).Some?
    ensures StaysIn(s, FunctorN(n, f, arg, s))
    decreases n, 0, 0
  {
    var s1 := Alloc(Val(f), s).1;
    ForceStays(n - 1, Get(f.attrs, FUNCTOR).value, s1);
    var r := ForceN(n - 1, Get(f.attrs, FUNCTOR).value, s1);
    if r.Done? {
      CallStays(n - 1, r.v, [|s.cells|, arg], r.s);
      ThenStays(s, r.s, CallN(n - 1, r.v, [|s.cells|, arg], r.s));
    }
  }

  // ---- the sets are asked in turn ----

  lemma {:induction false} WithsStay(fs: seq<NFrame>, gs: seq<NFrame>, env: nat)
    requires env < |fs| <= |gs| && forall i :: 0 <= i < |fs| ==> FrameStays(fs[i], gs[i])
    ensures Withs(gs, env) == Withs(fs, env)
    decreases env
  {
    assert FrameStays(fs[env], gs[env]);
    if fs[env].up.Some? && fs[env].up.value < env { WithsStay(fs, gs, fs[env].up.value); }
  }

  /** Asks the sets of the `with` environments `ws` for a name: the first that has it decides,
      and no set is forced unless those before it lack the name. */
  function AskInTurn(n: nat, name: Symbol, ws: seq<nat>, s: NState): Out<nat, NState> {
    if ws == [] then Raised(UndefinedVar(name))
    else if ws[0] >= |s.envs| || !s.envs[ws[0]].NWith? then Raised(Stuck)
    else
      var (v, s1) :- ForceN(n, s.envs[ws[0]].attrs, s);
      if !v.AttrsV? then Raised(TypeError) else
      match Get(v.attrs, name)
      case Some(c) => Done(c, s1)
      case None => AskInTurn(n, name, ws[1..], s1)
  }

  /** The walk outwards asks the sets that enclosed the variable at the start, whatever forcing
      them does on the way. */
  lemma {:induction false} WithOutcome(n: nat, name: Symbol, env: nat, s: NState)
    requires env < |s.envs| && (forall i :: 0 <= i <= env && s.envs[i].up.Some? ==> s.envs[i].up.value < i)
    ensures WithN(n, name, env, s) == AskInTurn(n, name, Withs(s.envs, env), s)
    decreases env
  {
    var up := s.envs[env].up;
    if s.envs[env].NWith? {
      ForceStays(n, s.envs[env].attrs, s);
      var r := ForceN(n, s.envs[env].attrs, s);
      if r.Done? && r.v.AttrsV? && Get(r.v.attrs, name).None? {
        assert FrameStays(s.envs[env], r.s.envs[env]);
        if up.Some? {
          forall i | 0 <= i <= up.value && r.s.envs[i].up.Some? ensures r.s.envs[i].up.value < i {
            assert FrameStays(s.envs[i], r.s.envs[i]);
          }
          WithsStay(s.envs, r.s.envs, up.value);
          WithOutcome(n, name, up.value, r.s);
        }
        assert Withs(s.envs, env)[1..] == if up.Some? then Withs(s.envs, up.value) else [];
      }
    } else if up.Some? {
      WithOutcome(n, name, up.value, s);
    }
  }

  /** A variable that no scope declares is found by level and `prevWith` as asking the enclosing
      sets in turn finds it. */
  lemma WithLookup(n: nat, name: Symbol, level: nat, node: WithInfo, env: nat, scopes: Scopes, sn: NState, sa: AState)
    requires Ready(scopes, sn, sa) && env < |scopes| && Resolve(name, scopes[env]) == Ok(FromWith(level, node))
    ensures exists scopes' ::
      scopes <= scopes'
      && SameCell(scopes', |sn.cells|, AskInTurn(n, name, Withs(sn.envs, env), sn), LookupVar(n, name, FromWith(level, node), env, sa))
  {
    forall i | 0 <= i <= env && sn.envs[i].up.Some? ensures sn.envs[i].up.value < i {
      assert FrameRel(scopes, i, sn.envs[i], sa.envs[i], |sn.cells|);
    }
    WithOutcome(n, name, env, sn);
    FindIsSlot(scopes, sn, sa, env, name);
    var scopes' := SimLookup(n, name, FromWith(level, node), env, scopes, sn, sa);
  }

  // ---- sets that are evaluated already ----

  /** The sets of the enclosing `with`s, all evaluated. */
  ghost predicate Evaluated(envs: seq<NFrame>, cells: seq<NCell>, withs: seq<nat>) {
    forall k :: 0 <= k < |withs| ==>
      && withs[k] < |envs| && envs[withs[k]].NWith? && envs[withs[k]].attrs < |cells|
      && cells[envs[withs[k]].attrs].Val? && cells[envs[withs[k]].attrs].v.AttrsV?
  }

  function SetOf(envs: seq<NFrame>, cells: seq<NCell>, w: nat): seq<Attr<nat>> {
    if w < |envs| && envs[w].NWith? && envs[w].attrs < |cells| && cells[envs[w].attrs].Val? && cells[envs[w].attrs].v.AttrsV?
    then cells[envs[w].attrs].v.attrs else []
  }

  /** `r` is the entry of the first set that has `name`; it is undefined exactly when none has. */
  ghost predicate FirstHolder(r: Out<nat, NState>, name: Symbol, ws: seq<nat>, s: NState) {
    match r
    case OutOfFuel => false
    case Raised(err) =>
      err == UndefinedVar(name) && forall k :: 0 <= k < |ws| ==> Get(SetOf(s.envs, s.cells, ws[k]), name).None?
    case Done(c, s') =>
      s' == s && exists k :: 0 <= k < |ws| && Get(SetOf(s.envs, s.cells, ws[k]), name) == Some(c)
                             && forall j :: 0 <= j < k ==> Get(SetOf(s.envs, s.cells, ws[j]), name).None?
  }

  lemma FirstHolderCons(r: Out<nat, NState>, name: Symbol, w: nat, ws: seq<nat>, s: NState)
    requires FirstHolder(r, name, ws, s) && Get(SetOf(s.envs, s.cells, w), name).None?
    ensures FirstHolder(r, name, [w] + ws, s)
  {
    var all := [w] + ws;
    if r.Done? {
      var k :| 0 <= k < |ws| && Get(SetOf(s.envs, s.cells, ws[k]), name) == Some(r.v)
               && forall j :: 0 <= j < k ==> Get(SetOf(s.envs, s.cells, ws[j]), name).None?;
      assert all[k + 1] == ws[k];
    }
  }

  /** Then the innermost set that has the name decides, and nothing changes. */
  lemma {:induction false} EvaluatedOutcome(n: nat, name: Symbol, ws: seq<nat>, s: NState)
    requires n > 0 && Evaluated(s.envs, s.cells, ws)
    ensures FirstHolder(AskInTurn(n, name, ws, s), name, ws, s)
    decreases |ws|
  {
    if ws != [] && Get(SetOf(s.envs, s.cells, ws[0]), name).None? {
      EvaluatedOutcome(n, name, ws[1..], s);
      FirstHolderCons(AskInTurn(n, name, ws[1..], s), name, ws[0], ws[1..], s);
      assert [ws[0]] + ws[1..] == ws;
    }
  }
}

/** The evaluator by name against the big-step semantics: it ends with an outcome, for some
    fuel, if and only if that outcome can be derived. */
module Adequacy {
  import opened Wrappers
  import opened SortedAttrs
  import opened Syntax
  import opened Scope
  import opened Machine
  import opened NamedEval
  import opened BigStep

  /** With fuel `n` the evaluator does what the judgement says. */
  ghost predicate Holds(j: Judgement, n: nat) {
    match j
    case Eval(e, env, s, r) => EvalN(n, e, env, s) == r && !r.OutOfFuel?
    case Force(c, s, r) => ForceN(n, c, s) == r && !r.OutOfFuel?
    case Denote(name, env, s, cell) => LookupN(n, name, env, s) == cell && !cell.OutOfFuel?
    case Ask(name, env, s, cell) => WithN(n, name, env, s) == cell && !cell.OutOfFuel?
    case NameOf(a, env, s, text) => NameN(n, a, env, s) == text && !text.OutOfFuel?
    case Reach(t, s, r) => TargetN(n, t, s) == r && !r.OutOfFuel?
    case Follow(t, path, def, env, s, r) => SelectN(n, t, path, def, env, s) == r && !r.OutOfFuel?
    case Has(t, path, env, s, r) => HasAttrN(n, t, path, env, s) == r && !r.OutOfFuel?
    case Add(dyn, bindings, env, s, r) => DynN(n, dyn, bindings, env, s) == r && !r.OutOfFuel?
    case Enter(lam, lamEnv, arg, s, inner) => EnterN(n, lam, lamEnv, arg, s) == inner && !inner.OutOfFuel?
    case Apply(f, args, s, r) => CallN(n, f, args, s) == r && !r.OutOfFuel?
  }

  ghost predicate AllHold(ps: List<Judgement>, n: nat) {
    ps.Cons? ==> Holds(ps.head, n) && AllHold(ps.tail, n)
  }

  // ---- what is derived is computed ----

  lemma RuleHolds(j: Judgement, ps: List<Judgement>, n: nat)
    requires n > 0 && Rule(j, ps) && AllHold(ps, n - 1) && AllHold(ps, n)
    ensures Holds(j, n)
  {
    if j.Eval? {
      EvalHolds(j.e, j.env, j.s, j.r, ps, n);
    } else if j.Follow? || j.Has? {
      PathHolds(j, ps, n);
    } else if j.Add? || j.Enter? {
      BuildHolds(j, ps, n);
    } else if j.Apply? {
      ApplyHolds(j.f, j.args, j.s, j.r, ps, n);
    } else {
      CellHolds(j, ps, n);
    }
  }

  lemma BuildHolds(j: Judgement, ps: List<Judgement>, n: nat)
    requires j.Add? || j.Enter?
    requires n > 0 && Rule(j, ps) && AllHold(ps, n)
    ensures Holds(j, n)
  {}

  lemma CellHolds(j: Judgement, ps: List<Judgement>, n: nat)
    requires j.Force? || j.Denote? || j.Ask? || j.NameOf? || j.Reach?
    requires n > 0 && Rule(j, ps) && AllHold(ps, n - 1) && AllHold(ps, n)
    ensures Holds(j, n)
  {}

  /** The third of three premises holds too. */
  lemma ThirdHolds(ps: List<Judgement>, n: nat)
    requires AllHold(ps, n)
    ensures ps.Cons? && ps.tail.Cons? && ps.tail.tail.Cons? ==> Holds(ps.tail.tail.head, n)
  {
    if ps.Cons? && ps.tail.Cons? { assert AllHold(ps.tail.tail, n); }
  }

  lemma PathHolds(j: Judgement, ps: List<Judgement>, n: nat)
    requires j.Follow? || j.Has?
    requires n > 0 && Rule(j, ps) && AllHold(ps, n)
    ensures Holds(j, n)
  {
    ThirdHolds(ps, n);
  }

  lemma ApplyHolds(f: NValue, args: seq<nat>, s: NState, r: Out<NValue, NState>, ps: List<Judgement>, n: nat)
    requires n > 0 && ApplyRule(f, args, s, r, ps) && AllHold(ps, n - 1) && AllHold(ps, n)
    ensures CallN(n, f, args, s) == r && !r.OutOfFuel?
  {
    ThirdHolds(ps, n);
  }

  lemma EvalHolds(e: Named, env: nat, s: NState, r: Out<NValue, NState>, ps: List<Judgement>, n: nat)
    requires n > 0 && EvalRule(e, env, s, r, ps) && AllHold(ps, n - 1)
    ensures EvalN(n, e, env, s) == r && !r.OutOfFuel?
  {
    if e.If? || e.Assert? || e.Not? {
      ConditionHolds(e, env, s, r, ps, n);
    } else if e.BinBool? || e.Update? || e.ConcatLists? {
      OperatorHolds(e, env, s, r, ps, n);
    } else if e.Attrs? {
      SetHolds(e, env, s, r, ps, n);
    } else {
      FormHolds(e, env, s, r, ps, n);
    }
  }

  lemma ConditionHolds(e: Named, env: nat, s: NState, r: Out<NValue, NState>, ps: List<Judgement>, n: nat)
    requires e.If? || e.Assert? || e.Not?
    requires n > 0 && EvalRule(e, env, s, r, ps) && AllHold(ps, n - 1)
    ensures EvalN(n, e, env, s) == r && !r.OutOfFuel?
  {}

  lemma OperatorHolds(e: Named, env: nat, s: NState, r: Out<NValue, NState>, ps: List<Judgement>, n: nat)
    requires e.BinBool? || e.Update? || e.ConcatLists?
    requires n > 0 && EvalRule(e, env, s, r, ps) && AllHold(ps, n - 1)
    ensures EvalN(n, e, env, s) == r && !r.OutOfFuel?
  {}

  lemma FormHolds(e: Named, env: nat, s: NState, r: Out<NValue, NState>, ps: List<Judgement>, n: nat)
    requires e.Lit? || e.Lambda? || e.ListE? || e.Var? || e.InheritFrom? || e.Select? || e.HasAttr? || e.Call? || e.Let? || e.With?
    requires n > 0 && EvalRule(e, env, s, r, ps) && AllHold(ps, n - 1)
    ensures EvalN(n, e, env, s) == r && !r.OutOfFuel?
  {}

  lemma SetHolds(e: Named, env: nat, s: NState, r: Out<NValue, NState>, ps: List<Judgement>, n: nat)
    requires e.Attrs?
    requires n > 0 && EvalRule(e, env, s, r, ps) && AllHold(ps, n - 1)
    ensures EvalN(n, e, env, s) == r && !r.OutOfFuel?
  {}

  function Height(d: Derivation): nat
    decreases d
  {
    1 + Heights(d.premises)
  }

  function Heights(ds: List<Derivation>): nat
    decreases ds
  {
    match ds case Nil => 0 case Cons(d, rest) => if Height(d) > Heights(rest) then Height(d) else Heights(rest)
  }

  /** From the height of the derivation on, every amount of fuel gives what it says. */
  lemma {:induction false} DerivedHolds(d: Derivation, n: nat)
    requires Valid(d) && n >= Height(d)
    ensures Holds(d.j, n)
    decreases d
  {
    AllDerivedHold(d.premises, n - 1);
    AllDerivedHold(d.premises, n);
    RuleHolds(d.j, Conclusions(d.premises), n);
  }

  lemma {:induction false} AllDerivedHold(ds: List<Derivation>, n: nat)
    requires AllValid(ds) && n >= Heights(ds)
    ensures AllHold(Conclusions(ds), n)
    decreases ds
  {
    if ds.Cons? {
      DerivedHolds(ds.head, n);
      AllDerivedHold(ds.tail, n);
    }
  }

  // ---- what is computed is derived ----

  lemma {:induction false} ForceDerived(n: nat, c: nat, s: NState)
    requires !ForceN(n, c, s).OutOfFuel?
    ensures Derivable(Force(c, s, ForceN(n, c, s)))
    decreases n, 0, 0
  {
    var j := Force(c, s, ForceN(n, c, s));
    if c < |s.cells| && s.cells[c].Thunk? {
      var e, env, s0 := s.cells[c].e, s.cells[c].env, s.(cells := s.cells[c := BlackHole]);
      EvalDerived(n - 1, e, env, s0);
      Derive1(j, Eval(e, env, s0, EvalN(n - 1, e, env, s0)));
    } else {
      Derive(j, Nil);
    }
  }

  /** Every outcome of the evaluator has a derivation. */
  lemma {:induction false} EvalDerived(n: nat, e: Named, env: nat, s: NState)
    requires !EvalN(n, e, env, s).OutOfFuel?
    ensures Derivable(Eval(e, env, s, EvalN(n, e, env, s)))
    decreases n, 0, 2
  {
    if e.If? || e.Assert? || e.Not? {
      ConditionDerived(n, e, env, s);
    } else if e.BinBool? {
      BooleanDerived(n, e, env, s);
    } else if e.Update? || e.ConcatLists? {
      OperatorDerived(n, e, env, s);
    } else if e.Attrs? {
      SetDerived(n, e, env, s);
    } else if e.Select? || e.HasAttr? || e.Call? {
      HeadDerived(n, e, env, s);
    } else if e.Let? || e.With? {
      ScopeDerived(n, e, env, s);
    } else {
      LeafDerived(n, e, env, s);
    }
  }

  lemma {:induction false} LeafDerived(n: nat, e: Named, env: nat, s: NState)
    requires e.Lit? || e.Lambda? || e.ListE? || e.Var? || e.InheritFrom?
    requires !EvalN(n, e, env, s).OutOfFuel?
    ensures Derivable(Eval(e, env, s, EvalN(n, e, env, s)))
    decreases n, 0, 1
  {
    var j := Eval(e, env, s, EvalN(n, e, env, s));
    if e.Var? {
      LookupDerived(n - 1, e.name, env, s);
      var rc := LookupN(n - 1, e.name, env, s);
      if rc.Done? {
        ForceDerived(n - 1, rc.v, rc.s);
        Derive2(j, Denote(e.name, env, s, rc), Force(rc.v, rc.s, j.r));
      } else {
        Derive1(j, Denote(e.name, env, s, rc));
      }
    } else if e.InheritFrom? && Source(s.envs, env, e.displ).Some? {
      var c := Source(s.envs, env, e.displ).value;
      ForceDerived(n - 1, c, s);
      Derive1(j, Force(c, s, j.r));
    } else {
      Derive(j, Nil);
    }
  }

  lemma {:induction false} HeadDerived(n: nat, e: Named, env: nat, s: NState)
    requires e.Select? || e.HasAttr? || e.Call?
    requires !EvalN(n, e, env, s).OutOfFuel?
    ensures Derivable(Eval(e, env, s, EvalN(n, e, env, s)))
    decreases n, 0, 1
  {
    var j := Eval(e, env, s, EvalN(n, e, env, s));
    var head := if e.Call? then e.fun else e.e;
    EvalDerived(n - 1, head, env, s);
    var rh := EvalN(n - 1, head, env, s);
    if rh.Done? {
      RestDerived(n, e, env, s, head, rh);
    } else {
      Derive1(j, Eval(head, env, s, rh));
    }
  }

  lemma {:induction false} RestDerived(n: nat, e: Named, env: nat, s: NState, head: Named, rh: Out<NValue, NState>)
    requires (e.Select? || e.HasAttr? || e.Call?) && head == if e.Call? then e.fun else e.e
    requires n > 0 && !EvalN(n, e, env, s).OutOfFuel?
    requires rh == EvalN(n - 1, head, env, s) && rh.Done? && Derivable(Eval(head, env, s, rh))
    ensures Derivable(Eval(e, env, s, EvalN(n, e, env, s)))
    decreases n, 0, 0
  {
    var j, first := Eval(e, env, s, EvalN(n, e, env, s)), Eval(head, env, s, rh);
    if e.Select? {
      SelectDerived(n - 1, Direct(rh.v), e.path, e.def, env, rh.s);
      Derive2(j, first, Follow(Direct(rh.v), e.path, e.def, env, rh.s, j.r));
    } else if e.HasAttr? {
      HasDerived(n - 1, Direct(rh.v), e.path, env, rh.s);
      Derive2(j, first, Has(Direct(rh.v), e.path, env, rh.s, j.r));
    } else {
      var (cs, s1) := ThunksN(e.args, env, rh.s);
      CallDerived(n - 1, rh.v, cs, s1);
      Derive2(j, first, Apply(rh.v, cs, s1, j.r));
    }
  }

  lemma {:induction false} ScopeDerived(n: nat, e: Named, env: nat, s: NState)
    requires e.Let? || e.With?
    requires !EvalN(n, e, env, s).OutOfFuel?
    ensures Derivable(Eval(e, env, s, EvalN(n, e, env, s)))
    decreases n, 0, 1
  {
    var j := Eval(e, env, s, EvalN(n, e, env, s));
    if e.Let? {
      var s1 := OpenN(e.defs, e.from, false, env, s).1;
      EvalDerived(n - 1, e.body, |s.envs|, s1);
      Derive1(j, Eval(e.body, |s.envs|, s1, j.r));
    } else {
      var (c, s1) := MaybeThunkN(e.scope, env, s);
      var s2 := s1.(envs := s1.envs + [NWith(Some(env), c)]);
      EvalDerived(n - 1, e.body, |s1.envs|, s2);
      Derive1(j, Eval(e.body, |s1.envs|, s2, j.r));
    }
  }

  lemma {:induction false} ConditionDerived(n: nat, e: Named, env: nat, s: NState)
    requires e.If? || e.Assert? || e.Not?
    requires !EvalN(n, e, env, s).OutOfFuel?
    ensures Derivable(Eval(e, env, s, EvalN(n, e, env, s)))
    decreases n, 0, 1
  {
    var j := Eval(e, env, s, EvalN(n, e, env, s));
    var cond := if e.Not? then e.e else e.cond;
    EvalDerived(n - 1, cond, env, s);
    var rc := EvalN(n - 1, cond, env, s);
    var first, b := Eval(cond, env, s, rc), AsBool(rc);
    if b.Done? && (e.If? || (e.Assert? && b.v)) {
      var next := if e.Assert? then e.body else if b.v then e.thn else e.els;
      EvalDerived(n - 1, next, env, b.s);
      Derive2(j, first, Eval(next, env, b.s, j.r));
    } else {
      Derive1(j, first);
    }
  }

  lemma {:induction false} BooleanDerived(n: nat, e: Named, env: nat, s: NState)
    requires e.BinBool?
    requires !EvalN(n, e, env, s).OutOfFuel?
    ensures Derivable(Eval(e, env, s, EvalN(n, e, env, s)))
    decreases n, 0, 1
  {
    var j := Eval(e, env, s, EvalN(n, e, env, s));
    EvalDerived(n - 1, e.e1, env, s);
    var r1 := EvalN(n - 1, e.e1, env, s);
    var first, b := Eval(e.e1, env, s, r1), AsBool(r1);
    if !b.Done? || (match e.op case And => !b.v case Or => b.v case Impl => !b.v) {
      Derive1(j, first);
    } else {
      EvalDerived(n - 1, e.e2, env, b.s);
      Derive2(j, first, Eval(e.e2, env, b.s, EvalN(n - 1, e.e2, env, b.s)));
    }
  }

  lemma {:induction false} OperatorDerived(n: nat, e: Named, env: nat, s: NState)
    requires e.Update? || e.ConcatLists?
    requires !EvalN(n, e, env, s).OutOfFuel?
    ensures Derivable(Eval(e, env, s, EvalN(n, e, env, s)))
    decreases n, 0, 1
  {
    var j := Eval(e, env, s, EvalN(n, e, env, s));
    var e1, e2 := if e.Update? then e.e2 else e.e1, if e.Update? then e.e1 else e.e2;
    EvalDerived(n - 1, e1, env, s);
    var r1 := EvalN(n - 1, e1, env, s);
    var first := Eval(e1, env, s, r1);
    if if e.Update? then !AsSet(r1).Done? else !r1.Done? {
      Derive1(j, first);
    } else {
      EvalDerived(n - 1, e2, env, r1.s);
      Derive2(j, first, Eval(e2, env, r1.s, EvalN(n - 1, e2, env, r1.s)));
    }
  }

  lemma {:induction false} SetDerived(n: nat, e: Named, env: nat, s: NState)
    requires e.Attrs?
    requires !EvalN(n, e, env, s).OutOfFuel?
    ensures Derivable(Eval(e, env, s, EvalN(n, e, env, s)))
    decreases n, 0, 1
  {
    var j := Eval(e, env, s, EvalN(n, e, env, s));
    var attrs := e.attrs;
    if !attrs.recursive {
      var (sources, s1) := SourcesN(attrs.from, env, s);
      var (bindings, s2) := ThunkDefsN(attrs.defs, env, sources, s1);
      DynDerived(n - 1, attrs.dyn, bindings, env, s2);
      Derive1(j, Add(attrs.dyn, bindings, env, s2, j.r));
    } else {
      RecDerived(n, e, env, s);
    }
  }

  lemma {:induction false} RecDerived(n: nat, e: Named, env: nat, s: NState)
    requires e.Attrs? && e.attrs.recursive
    requires !EvalN(n, e, env, s).OutOfFuel?
    ensures Derivable(Eval(e, env, s, EvalN(n, e, env, s)))
    decreases n, 0, 0
  {
    var j := Eval(e, env, s, EvalN(n, e, env, s));
    var attrs := e.attrs;
    var (bindings, s1) := OpenN(attrs.defs, attrs.from, OVERRIDES in DefNames(attrs.defs), env, s);
    match Get(bindings, OVERRIDES)
    case None =>
      DynDerived(n - 1, attrs.dyn, bindings, |s.envs|, s1);
      Derive1(j, Add(attrs.dyn, bindings, |s.envs|, s1, j.r));
    case Some(c) =>
      ForceDerived(n - 1, c, s1);
      var rc := ForceN(n - 1, c, s1);
      var first, over := Force(c, s1, rc), AsSet(rc);
      if !over.Done? {
        Derive1(j, first);
      } else {
        var s2 := OverrideN(over.v, |s.envs|, over.s);
        DynDerived(n - 1, attrs.dyn, Merge(bindings, over.v), |s.envs|, s2);
        Derive2(j, first, Add(attrs.dyn, Merge(bindings, over.v), |s.envs|, s2, j.r));
      }
  }

  lemma {:induction false} LookupDerived(n: nat, name: Symbol, env: nat, s: NState)
    requires !LookupN(n, name, env, s).OutOfFuel?
    ensures Derivable(Denote(name, env, s, LookupN(n, name, env, s)))
    decreases n, 2
  {
    var j := Denote(name, env, s, LookupN(n, name, env, s));
    if Find(s.envs, env, name).None? {
      WithDerived(n, name, env, s);
      Derive1(j, Ask(name, env, s, j.cell));
    } else {
      Derive(j, Nil);
    }
  }

  lemma {:induction false} WithDerived(n: nat, name: Symbol, env: nat, s: NState)
    requires !WithN(n, name, env, s).OutOfFuel?
    ensures Derivable(Ask(name, env, s, WithN(n, name, env, s)))
    decreases n, 1, env
  {
    var j := Ask(name, env, s, WithN(n, name, env, s));
    if env >= |s.envs| {
      Derive(j, Nil);
    } else if s.envs[env].NWith? {
      var c := s.envs[env].attrs;
      ForceDerived(n, c, s);
      var rc := ForceN(n, c, s);
      var first, set1 := Force(c, s, rc), AsSet(rc);
      if set1.Done? && Get(set1.v, name).None? && env < |set1.s.envs| && set1.s.envs[env].up.Some? && set1.s.envs[env].up.value < env {
        var u := set1.s.envs[env].up.value;
        WithDerived(n, name, u, set1.s);
        Derive2(j, first, Ask(name, u, set1.s, j.cell));
      } else {
        Derive1(j, first);
      }
    } else if s.envs[env].up.Some? && s.envs[env].up.value < env {
      WithDerived(n, name, s.envs[env].up.value, s);
      Derive1(j, Ask(name, s.envs[env].up.value, s, j.cell));
    } else {
      Derive(j, Nil);
    }
  }

  lemma {:induction false} TargetDerived(n: nat, t: Target<(), ()>, s: NState)
    requires !TargetN(n, t, s).OutOfFuel?
    ensures Derivable(Reach(t, s, TargetN(n, t, s)))
    decreases n, 1
  {
    var j := Reach(t, s, TargetN(n, t, s));
    if t.At? {
      ForceDerived(n, t.cell, s);
      Derive1(j, Force(t.cell, s, j.r));
    } else {
      Derive(j, Nil);
    }
  }

  lemma {:induction false} NameDerived(n: nat, a: AttrName<(), ()>, env: nat, s: NState)
    requires !NameN(n, a, env, s).OutOfFuel?
    ensures Derivable(NameOf(a, env, s, NameN(n, a, env, s)))
    decreases n, 1
  {
    var j := NameOf(a, env, s, NameN(n, a, env, s));
    if a.Dynamic? {
      EvalDerived(n, a.e, env, s);
      Derive1(j, Eval(a.e, env, s, EvalN(n, a.e, env, s)));
    } else {
      Derive(j, Nil);
    }
  }

  lemma {:induction false} SelectDerived(n: nat, t: Target<(), ()>, path: List<AttrName<(), ()>>, def: Option<Named>, env: nat, s: NState)
    requires !SelectN(n, t, path, def, env, s).OutOfFuel?
    ensures Derivable(Follow(t, path, def, env, s, SelectN(n, t, path, def, env, s)))
    decreases n, 2, path
  {
    var j := Follow(t, path, def, env, s, SelectN(n, t, path, def, env, s));
    match path
    case Nil =>
      TargetDerived(n, t, s);
      Derive1(j, Reach(t, s, j.r));
    case Cons(a, rest) =>
      NameDerived(n, a, env, s);
      var name := NameN(n, a, env, s);
      var first := NameOf(a, env, s, name);
      if !name.Done? {
        Derive1(j, first);
      } else {
        TargetDerived(n, t, name.s);
        var rt := TargetN(n, t, name.s);
        var second := Reach(t, name.s, rt);
        if rt.Done? && PartOf(rt.v, name.v).Some? {
          var c := PartOf(rt.v, name.v).value;
          SelectDerived(n, At(c), rest, def, env, rt.s);
          Derive3(j, first, second, Follow(At(c), rest, def, env, rt.s, j.r));
        } else if rt.Done? && def.Some? {
          EvalDerived(n, def.value, env, rt.s);
          Derive3(j, first, second, Eval(def.value, env, rt.s, j.r));
        } else {
          Derive2(j, first, second);
        }
      }
  }

  lemma {:induction false} HasDerived(n: nat, t: Target<(), ()>, path: List<AttrName<(), ()>>, env: nat, s: NState)
    requires !HasAttrN(n, t, path, env, s).OutOfFuel?
    ensures Derivable(Has(t, path, env, s, HasAttrN(n, t, path, env, s)))
    decreases n, 2, path
  {
    var j := Has(t, path, env, s, HasAttrN(n, t, path, env, s));
    if path.Nil? {
      Derive(j, Nil);
    } else {
      TargetDerived(n, t, s);
      var rt := TargetN(n, t, s);
      var first := Reach(t, s, rt);
      if !rt.Done? {
        Derive1(j, first);
      } else {
        NameDerived(n, path.head, env, rt.s);
        var name := NameN(n, path.head, env, rt.s);
        var second := NameOf(path.head, env, rt.s, name);
        if name.Done? && PartOf(rt.v, name.v).Some? {
          var c := PartOf(rt.v, name.v).value;
          HasDerived(n, At(c), path.tail, env, name.s);
          Derive3(j, first, second, Has(At(c), path.tail, env, name.s, j.r));
        } else {
          Derive2(j, first, second);
        }
      }
    }
  }

  lemma {:induction false} DynDerived(n: nat, dyn: List<DynAttr<(), ()>>, bindings: seq<Attr<nat>>, env: nat, s: NState)
    requires !DynN(n, dyn, bindings, env, s).OutOfFuel?
    ensures Derivable(Add(dyn, bindings, env, s, DynN(n, dyn, bindings, env, s)))
    decreases n, 2, dyn
  {
    var j := Add(dyn, bindings, env, s, DynN(n, dyn, bindings, env, s));
    if dyn.Nil? {
      Derive(j, Nil);
    } else {
      var d, rest := dyn.head, dyn.tail;
      EvalDerived(n, d.nameE, env, s);
      var rn := EvalN(n, d.nameE, env, s);
      var first := Eval(d.nameE, env, s, rn);
      if rn.Done? && rn.v == Data(Null) {
        DynDerived(n, rest, bindings, env, rn.s);
        Derive2(j, first, Add(rest, bindings, env, rn.s, j.r));
      } else if rn.Done? && rn.v.Data? && rn.v.c.Str? && Get(bindings, rn.v.c.sym).None? {
        var (c, s1) := MaybeThunkN(d.valueE, env, rn.s);
        var more := Insert(bindings, Attr(rn.v.c.sym, c));
        DynDerived(n, rest, more, env, s1);
        Derive2(j, first, Add(rest, more, env, s1, j.r));
      } else {
        Derive1(j, first);
      }
    }
  }

  lemma {:induction false} EnterDerived(n: nat, lam: Lam<(), ()>, lamEnv: nat, arg: nat, s: NState)
    requires !EnterN(n, lam, lamEnv, arg, s).OutOfFuel?
    ensures Derivable(Enter(lam, lamEnv, arg, s, EnterN(n, lam, lamEnv, arg, s)))
    decreases n, 1
  {
    var j := Enter(lam, lamEnv, arg, s, EnterN(n, lam, lamEnv, arg, s));
    if lam.Pattern? {
      ForceDerived(n, arg, s);
      Derive1(j, Force(arg, s, ForceN(n, arg, s)));
    } else {
      Derive(j, Nil);
    }
  }

  lemma {:induction false} CallDerived(n: nat, f: NValue, args: seq<nat>, s: NState)
    requires !CallN(n, f, args, s).OutOfFuel?
    ensures Derivable(Apply(f, args, s, CallN(n, f, args, s)))
    decreases n, 2, |args|
  {
    var j := Apply(f, args, s, CallN(n, f, args, s));
    if args == [] {
      Derive(j, Nil);
    } else {
      match f
      case Closure(_, _) => ClosureDerived(n, f, args, s);
      case AttrsV(attrs) =>
        if Get(attrs, FUNCTOR).Some? { FunctorDerived(n, f, args, s); } else { Derive(j, Nil); }
      case _ => Derive(j, Nil);
    }
  }

  lemma {:induction false} ClosureDerived(n: nat, f: NValue, args: seq<nat>, s: NState)
    requires f.Closure? && args != [] && !CallN(n, f, args, s).OutOfFuel?
    ensures Derivable(Apply(f, args, s, CallN(n, f, args, s)))
    decreases n, 2, |args|, 0
  {
    var j := Apply(f, args, s, CallN(n, f, args, s));
    EnterDerived(n, f.lam, f.env, args[0], s);
    var inner := EnterN(n, f.lam, f.env, args[0], s);
    var first := Enter(f.lam, f.env, args[0], s, inner);
    if !inner.Done? {
      Derive1(j, first);
    } else {
      EvalDerived(n, f.lam.body, inner.v, inner.s);
      var rb := EvalN(n, f.lam.body, inner.v, inner.s);
      var second := Eval(f.lam.body, inner.v, inner.s, rb);
      if !rb.Done? {
        Derive2(j, first, second);
      } else {
        CallDerived(n, rb.v, args[1..], rb.s);
        Derive3(j, first, second, Apply(rb.v, args[1..], rb.s, j.r));
      }
    }
  }

  lemma {:induction false} FunctorDerived(n: nat, f: NValue, args: seq<nat>, s: NState)
    requires f.AttrsV? && Get(f.attrs, FUNCTOR).Some? && args != [] && !CallN(n, f, args, s).OutOfFuel?
    ensures Derivable(Apply(f, args, s, CallN(n, f, args, s)))
    decreases n, 2, |args|, 0
  {
    var j := Apply(f, args, s, CallN(n, f, args, s));
    var c, s1 := Get(f.attrs, FUNCTOR).value, s.(cells := s.cells + [Val(f)]);
    ForceDerived(n - 1, c, s1);
    var rg := ForceN(n - 1, c, s1);
    var first := Force(c, s1, rg);
    if !rg.Done? {
      Derive1(j, first);
    } else {
      var two := [|s.cells|, args[0]];
      CallDerived(n - 1, rg.v, two, rg.s);
      var rc := CallN(n - 1, rg.v, two, rg.s);
      var second := Apply(rg.v, two, rg.s, rc);
      if !rc.Done? {
        Derive2(j, first, second);
      } else {
        CallDerived(n, rc.v, args[1..], rc.s);
        Derive3(j, first, second, Apply(rc.v, args[1..], rc.s, j.r));
      }
    }
  }

  // ---- the theorem ----

  /** The evaluator by name, given enough fuel, ends with outcome `r`. */
  ghost predicate Gives(e: Named, env: nat, s: NState, r: Out<NValue, NState>) {
    !r.OutOfFuel? && exists n :: EvalN(n, e, env, s) == r
  }

  /** Every amount of fuel from `h` on gives it. */
  ghost predicate GivesFrom(e: Named, env: nat, s: NState, r: Out<NValue, NState>, h: nat) {
    forall n :: n >= h ==> EvalN(n, e, env, s) == r
  }

  /** An outcome is reached, for some fuel, if and only if it has a derivation. */
  lemma GivesExactlyDerived(e: Named, env: nat, s: NState, r: Out<NValue, NState>)
    ensures Gives(e, env, s, r) <==> Derivable(Eval(e, env, s, r))
  {
    if n :| !r.OutOfFuel? && EvalN(n, e, env, s) == r { EvalDerived(n, e, env, s); }
    if Derivable(Eval(e, env, s, r)) {
      var d :| Valid(d) && d.j == Eval(e, env, s, r);
      DerivedHolds(d, Height(d));
    }
  }

  /** And then it is reached with all the fuel there may be beyond that. */
  lemma GivesForGood(e: Named, env: nat, s: NState, r: Out<NValue, NState>) returns (h: nat)
    requires Derivable(Eval(e, env, s, r))
    ensures GivesFrom(e, env, s, r, h)
  {
    var d :| Valid(d) && d.j == Eval(e, env, s, r);
    h := Height(d);
    forall n | n >= h ensures EvalN(n, e, env, s) == r { DerivedHolds(d, n); }
  }

  /** So a program has one outcome at most. */
  lemma OneOutcome(e: Named, env: nat, s: NState, r1: Out<NValue, NState>, r2: Out<NValue, NState>)
    requires Derivable(Eval(e, env, s, r1)) && Derivable(Eval(e, env, s, r2))
    ensures r1 == r2
  {
    var h1 := GivesForGood(e, env, s, r1);
    var h2 := GivesForGood(e, env, s, r2);
    assert EvalN(h1 + h2, e, env, s) == r1;
  }
}

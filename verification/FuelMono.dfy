/** More fuel changes no outcome that was reached with less; `m` is any larger amount. */
module FuelMono {
  import opened Wrappers
  import opened SortedAttrs
  import opened Syntax
  import opened Scope
  import opened Machine
  import opened AddressedEval

  lemma {:induction false} MoreForce(n: nat, m: nat, c: nat, s: AState)
    requires n <= m
    ensures ForceA(n, c, s).OutOfFuel? || ForceA(m, c, s) == ForceA(n, c, s)
    decreases n, 0
  {
    if n > 0 && c < |s.cells| && s.cells[c].Thunk? {
      MoreEval(n - 1, m - 1, s.cells[c].e, s.cells[c].env, s.(cells := s.cells[c := BlackHole]));
    }
  }

  lemma {:induction false} MoreEval(n: nat, m: nat, e: Bound, env: nat, s: AState)
    requires n <= m
    ensures EvalA(n, e, env, s).OutOfFuel? || EvalA(m, e, env, s) == EvalA(n, e, env, s)
    decreases n, 0
  {
    if n > 0 {
      match e
      case Lit(_) =>
      case Var(_, _) => MoreVar(n, m, e, env, s);
      case InheritFrom(displ) =>
        if Slot(s.envs, env, 0, displ).Some? { MoreForce(n - 1, m - 1, Slot(s.envs, env, 0, displ).value, s); }
      case Select(_, _, _) => MoreSelection(n, m, e, env, s);
      case HasAttr(_, _) => MoreSelection(n, m, e, env, s);
      case Attrs(attrs) => MoreAttrs(n - 1, m - 1, attrs, env, s);
      case ListE(_) =>
      case Lambda(_) =>
      case Call(_, _) => MoreCallE(n, m, e, env, s);
      case Let(_, _, _) => MoreLet(n, m, e, env, s);
      case With(_, _, _) => MoreLet(n, m, e, env, s);
      case If(_, _, _) => MoreCond(n, m, e, env, s);
      case Assert(_, _) => MoreCond(n, m, e, env, s);
      case Not(e1) => MoreBool(n - 1, m - 1, e1, env, s);
      case BinBool(_, _, _) => MoreBinary(n, m, e, env, s);
      case Update(_, _) => MoreBinary(n, m, e, env, s);
      case ConcatLists(_, _) => MoreBinary(n, m, e, env, s);
    }
  }

  lemma {:induction false} MoreVar(n: nat, m: nat, e: Bound, env: nat, s: AState)
    requires 0 < n <= m && e.Var?
    ensures EvalA(n, e, env, s).OutOfFuel? || EvalA(m, e, env, s) == EvalA(n, e, env, s)
    decreases n, 0, 0
  {
    MoreLookup(n - 1, m - 1, e.name, e.addr, env, s);
    var r := LookupVar(n - 1, e.name, e.addr, env, s);
    if r.Done? { MoreForce(n - 1, m - 1, r.v, r.s); }
  }

  lemma {:induction false} MoreSelection(n: nat, m: nat, e: Bound, env: nat, s: AState)
    requires 0 < n <= m && (e.Select? || e.HasAttr?)
    ensures EvalA(n, e, env, s).OutOfFuel? || EvalA(m, e, env, s) == EvalA(n, e, env, s)
    decreases n, 0, 0
  {
    MoreEval(n - 1, m - 1, e.e, env, s);
    var r := EvalA(n - 1, e.e, env, s);
    if r.Done? {
      if e.Select? {
        MoreSelect(n - 1, m - 1, Direct(r.v), e.path, e.def, env, r.s);
      } else {
        MoreHasAttr(n - 1, m - 1, Direct(r.v), e.path, env, r.s);
      }
    }
  }

  lemma {:induction false} MoreCallE(n: nat, m: nat, e: Bound, env: nat, s: AState)
    requires 0 < n <= m && e.Call?
    ensures EvalA(n, e, env, s).OutOfFuel? || EvalA(m, e, env, s) == EvalA(n, e, env, s)
    decreases n, 0, 0
  {
    MoreEval(n - 1, m - 1, e.fun, env, s);
    var r := EvalA(n - 1, e.fun, env, s);
    if r.Done? {
      var (cs, s2) := ThunksA(e.args, env, r.s);
      MoreCall(n - 1, m - 1, r.v, cs, s2);
    }
  }

  lemma {:induction false} MoreLet(n: nat, m: nat, e: Bound, env: nat, s: AState)
    requires 0 < n <= m && (e.Let? || e.With?)
    ensures EvalA(n, e, env, s).OutOfFuel? || EvalA(m, e, env, s) == EvalA(n, e, env, s)
    decreases n, 0, 0
  {
    if e.Let? {
      var (inner, s1) := Push(AFrame(Some(env), seq(Length(e.defs), _ => None)), s);
      var (sources, s2) := SourcesA(e.from, inner, s1);
      var (_, s3) := FillA(e.defs, 0, false, inner, env, sources, s2);
      MoreEval(n - 1, m - 1, e.body, inner, s3);
    } else {
      var (c, s1) := MaybeThunkA(e.scope, env, s);
      var (inner, s2) := Push(AFrame(Some(env), [Some(c)]), s1);
      MoreEval(n - 1, m - 1, e.body, inner, s2);
    }
  }

  lemma {:induction false} MoreCond(n: nat, m: nat, e: Bound, env: nat, s: AState)
    requires 0 < n <= m && (e.If? || e.Assert?)
    ensures EvalA(n, e, env, s).OutOfFuel? || EvalA(m, e, env, s) == EvalA(n, e, env, s)
    decreases n, 0, 0
  {
    MoreBool(n - 1, m - 1, e.cond, env, s);
    var r := BoolA(n - 1, e.cond, env, s);
    if r.Done? {
      MoreEval(n - 1, m - 1, if e.Assert? then e.body else if r.v then e.thn else e.els, env, r.s);
    }
  }

  lemma {:induction false} MoreBinary(n: nat, m: nat, e: Bound, env: nat, s: AState)
    requires 0 < n <= m && (e.BinBool? || e.Update? || e.ConcatLists?)
    ensures EvalA(n, e, env, s).OutOfFuel? || EvalA(m, e, env, s) == EvalA(n, e, env, s)
    decreases n, 0, 0
  {
    if e.BinBool? {
      MoreBool(n - 1, m - 1, e.e1, env, s);
      var r := BoolA(n - 1, e.e1, env, s);
      if r.Done? { MoreBool(n - 1, m - 1, e.e2, env, r.s); }
    } else if e.Update? {
      MoreEvalAttrs(n - 1, m - 1, e.e2, env, s);
      var r := EvalAttrsA(n - 1, e.e2, env, s);
      if r.Done? { MoreEvalAttrs(n - 1, m - 1, e.e1, env, r.s); }
    } else {
      MoreEval(n - 1, m - 1, e.e1, env, s);
      var r := EvalA(n - 1, e.e1, env, s);
      if r.Done? { MoreEval(n - 1, m - 1, e.e2, env, r.s); }
    }
  }

  lemma {:induction false} MoreBool(n: nat, m: nat, e: Bound, env: nat, s: AState)
    requires n <= m
    ensures BoolA(n, e, env, s).OutOfFuel? || BoolA(m, e, env, s) == BoolA(n, e, env, s)
    decreases n, 1
  {
    MoreEval(n, m, e, env, s);
  }

  lemma {:induction false} MoreEvalAttrs(n: nat, m: nat, e: Bound, env: nat, s: AState)
    requires n <= m
    ensures EvalAttrsA(n, e, env, s).OutOfFuel? || EvalAttrsA(m, e, env, s) == EvalAttrsA(n, e, env, s)
    decreases n, 1
  {
    MoreEval(n, m, e, env, s);
  }

  lemma {:induction false} MoreLookup(n: nat, m: nat, name: Symbol, addr: Addr, env: nat, s: AState)
    requires n <= m
    ensures LookupVar(n, name, addr, env, s).OutOfFuel? || LookupVar(m, name, addr, env, s) == LookupVar(n, name, addr, env, s)
    decreases n, 2
  {
    if addr.FromWith? && Climb(s.envs, env, addr.level).Some? {
      MoreWith(n, m, Climb(s.envs, env, addr.level).value, addr.node, name, s);
    }
  }

  lemma {:induction false} MoreWith(n: nat, m: nat, env: nat, node: WithInfo, name: Symbol, s: AState)
    requires n <= m
    ensures WithA(n, env, node, name, s).OutOfFuel? || WithA(m, env, node, name, s) == WithA(n, env, node, name, s)
    decreases n, 1, node
  {
    var slot := Slot(s.envs, env, 0, 0);
    if slot.Some? {
      MoreForce(n, m, slot.value, s);
      var r := ForceA(n, slot.value, s);
      if r.Done? && r.v.AttrsV? && node.parent.Some? {
        var f := Climb(r.s.envs, env, node.prevWith);
        if f.Some? { MoreWith(n, m, f.value, node.parent.value, name, r.s); }
      }
    }
  }

  lemma {:induction false} MoreTarget(n: nat, m: nat, t: Target<Addr, WithInfo>, s: AState)
    requires n <= m
    ensures TargetA(n, t, s).OutOfFuel? || TargetA(m, t, s) == TargetA(n, t, s)
    decreases n, 1
  {
    if t.At? { MoreForce(n, m, t.cell, s); }
  }

  lemma {:induction false} MoreName(n: nat, m: nat, a: AttrName<Addr, WithInfo>, env: nat, s: AState)
    requires n <= m
    ensures NameA(n, a, env, s).OutOfFuel? || NameA(m, a, env, s) == NameA(n, a, env, s)
    decreases n, 1
  {
    if a.Dynamic? { MoreEval(n, m, a.e, env, s); }
  }

  lemma {:induction false} MoreSelect(n: nat, m: nat, t: Target<Addr, WithInfo>, path: List<AttrName<Addr, WithInfo>>, def: Option<Bound>, env: nat, s: AState)
    requires n <= m
    ensures SelectA(n, t, path, def, env, s).OutOfFuel? || SelectA(m, t, path, def, env, s) == SelectA(n, t, path, def, env, s)
    decreases n, 2, path
  {
    match path
    case Nil => MoreTarget(n, m, t, s);
    case Cons(a, rest) =>
      MoreName(n, m, a, env, s);
      var name := NameA(n, a, env, s);
      if name.Done? {
        MoreTarget(n, m, t, name.s);
        var r := TargetA(n, t, name.s);
        if r.Done? {
          var found := if r.v.AttrsV? then Get(r.v.attrs, name.v) else None;
          if found.Some? {
            MoreSelect(n, m, At(found.value), rest, def, env, r.s);
          } else if def.Some? {
            MoreEval(n, m, def.value, env, r.s);
          }
        }
      }
  }

  lemma {:induction false} MoreHasAttr(n: nat, m: nat, t: Target<Addr, WithInfo>, path: List<AttrName<Addr, WithInfo>>, env: nat, s: AState)
    requires n <= m
    ensures HasAttrA(n, t, path, env, s).OutOfFuel? || HasAttrA(m, t, path, env, s) == HasAttrA(n, t, path, env, s)
    decreases n, 2, path
  {
    if path.Cons? {
      MoreTarget(n, m, t, s);
      var r := TargetA(n, t, s);
      if r.Done? {
        MoreName(n, m, path.head, env, r.s);
        var name := NameA(n, path.head, env, r.s);
        if name.Done? && r.v.AttrsV? && Get(r.v.attrs, name.v).Some? {
          MoreHasAttr(n, m, At(Get(r.v.attrs, name.v).value), path.tail, env, name.s);
        }
      }
    }
  }

  lemma {:induction false} MoreAttrs(n: nat, m: nat, attrs: AttrSet<Addr, WithInfo>, env: nat, s: AState)
    requires n <= m
    ensures AttrsA(n, attrs, env, s).OutOfFuel? || AttrsA(m, attrs, env, s) == AttrsA(n, attrs, env, s)
    decreases n, 3
  {
    if attrs.recursive {
      var (inner, s1) := Push(AFrame(Some(env), seq(Length(attrs.defs), _ => None)), s);
      var (sources, s2) := SourcesA(attrs.from, inner, s1);
      var over := IndexOf(DefNames(attrs.defs), OVERRIDES);
      var (bindings, s3) := FillA(attrs.defs, 0, over.Some?, inner, env, sources, s2);
      if over.None? {
        MoreDyn(n, m, attrs.dyn, bindings, inner, s3);
      } else if over.value < |bindings| {
        MoreForce(n, m, bindings[over.value].value, s3);
        var r := ForceA(n, bindings[over.value].value, s3);
        if r.Done? && r.v.AttrsV? {
          MoreDyn(n, m, attrs.dyn, Merge(bindings, r.v.attrs), inner, OverrideSlotsA(DefNames(attrs.defs), r.v.attrs, inner, r.s));
        }
      }
    } else {
      var (sources, s1) := SourcesA(attrs.from, env, s);
      var (bindings, s2) := ThunkDefsA(attrs.defs, env, sources, s1);
      MoreDyn(n, m, attrs.dyn, bindings, env, s2);
    }
  }

  lemma {:induction false} MoreDyn(n: nat, m: nat, dyn: List<DynAttr<Addr, WithInfo>>, bindings: seq<Attr<nat>>, env: nat, s: AState)
    requires n <= m
    ensures DynA(n, dyn, bindings, env, s).OutOfFuel? || DynA(m, dyn, bindings, env, s) == DynA(n, dyn, bindings, env, s)
    decreases n, 2, dyn
  {
    if dyn.Cons? {
      MoreEval(n, m, dyn.head.nameE, env, s);
      var r := EvalA(n, dyn.head.nameE, env, s);
      if r.Done? {
        if r.v == Data(Null) {
          MoreDyn(n, m, dyn.tail, bindings, env, r.s);
        } else if r.v.Data? && r.v.c.Str? && Get(bindings, r.v.c.sym).None? {
          var (c, s2) := MaybeThunkA(dyn.head.valueE, env, r.s);
          MoreDyn(n, m, dyn.tail, Insert(bindings, Attr(r.v.c.sym, c)), env, s2);
        }
      }
    }
  }

  lemma {:induction false} MoreEnter(n: nat, m: nat, lam: Lam<Addr, WithInfo>, lamEnv: nat, arg: nat, s: AState)
    requires n <= m
    ensures EnterA(n, lam, lamEnv, arg, s).OutOfFuel? || EnterA(m, lam, lamEnv, arg, s) == EnterA(n, lam, lamEnv, arg, s)
    decreases n, 1
  {
    if lam.Pattern? { MoreForce(n, m, arg, s); }
  }

  lemma {:induction false} MoreCall(n: nat, m: nat, f: AValue, args: seq<nat>, s: AState)
    requires n <= m
    ensures CallA(n, f, args, s).OutOfFuel? || CallA(m, f, args, s) == CallA(n, f, args, s)
    decreases n, 2, |args|
  {
    if args != [] {
      match f
      case Closure(lam, env) =>
        MoreEnter(n, m, lam, env, args[0], s);
        var r := EnterA(n, lam, env, args[0], s);
        if r.Done? {
          MoreEval(n, m, lam.body, r.v, r.s);
          var q := EvalA(n, lam.body, r.v, r.s);
          if q.Done? { MoreCall(n, m, q.v, args[1..], q.s); }
        }
      case AttrsV(attrs) =>
        if n > 0 && Get(attrs, FUNCTOR).Some? { MoreFunctor(n, m, f, args, s); }
      case _ =>
    }
  }

  lemma {:induction false} MoreFunctor(n: nat, m: nat, f: AValue, args: seq<nat>, s: AState)
    requires 0 < n <= m && args != [] && f.AttrsV? && Get(f.attrs, FUNCTOR).Some?
    ensures CallA(n, f, args, s).OutOfFuel? || CallA(m, f, args, s) == CallA(n, f, args, s)
    decreases n, 2, |args|, 0
  {
    var functor := Get(f.attrs, FUNCTOR).value;
    var (self, s1) := Alloc(Val(f), s);
    MoreForce(n - 1, m - 1, functor, s1);
    var g := ForceA(n - 1, functor, s1);
    if g.Done? {
      MoreCall(n - 1, m - 1, g.v, [self, args[0]], g.s);
      var r := CallA(n - 1, g.v, [self, args[0]], g.s);
      if r.Done? { MoreCall(n, m, r.v, args[1..], r.s); }
    }
  }
}

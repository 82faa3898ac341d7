/** The loops of the evaluator that climb environments and fill their slots, against the
    recursive definitions of AddressedEval. */
module EvalLoops {
  import opened Wrappers
  import opened SortedAttrs
  import opened Syntax
  import opened Scope
  import opened Machine
  import opened AddressedEval

  /** `for (auto l = level; l; --l, env = env->up);` */
  method ClimbLoop(envs: seq<AFrame>, start: nat, level: nat) returns (r: Option<nat>)
    ensures r == Climb(envs, start, level)
  {
    var env: nat, l: nat := start, level;
    while l != 0
      invariant Climb(envs, start, level) == Climb(envs, env, l)
    {
      if env >= |envs| || envs[env].up.None? { return None; }
      env, l := envs[env].up.value, l - 1;
    }
    return if env < |envs| then Some(env) else None;
  }

  /** `lookupVar`. */
  method LookupVarLoop(n: nat, name: Symbol, addr: Addr, start: nat, s: AState) returns (r: Out<nat, AState>)
    ensures r == LookupVar(n, name, addr, start, s)
  {
    var climbed := ClimbLoop(s.envs, start, addr.level);
    if climbed.None? { return Raised(Stuck); }
    var env := climbed.value;
    if addr.Lexical? {
      var slots := s.envs[env].values;
      if addr.displ >= |slots| || slots[addr.displ].None? { return Raised(Stuck); }
      return Done(slots[addr.displ].value, s);
    }
    var fromWith, cur := addr.node, s;
    while true
      invariant LookupVar(n, name, addr, start, s) == WithA(n, env, fromWith, name, cur)
      decreases fromWith
    {
      var holder := Slot(cur.envs, env, 0, 0);
      if holder.None? { return Raised(Stuck); }
      var forced := ForceA(n, holder.value, cur);
      if forced.Raised? { return Raised(forced.err); }
      if forced.OutOfFuel? { return OutOfFuel; }
      if !forced.v.AttrsV? { return Raised(TypeError); }
      cur := forced.s;
      var j := Get(forced.v.attrs, name);
      if j.Some? { return Done(j.value, cur); }
      if fromWith.parent.None? { return Raised(UndefinedVar(name)); }
      climbed := ClimbLoop(cur.envs, env, fromWith.prevWith);
      if climbed.None? { return Raised(Stuck); }
      env, fromWith := climbed.value, fromWith.parent.value;
    }
  }

  /** Arguments, list elements and `inherit` sources: one `maybeThunk` after the other. */
  method ThunksLoop(es: List<Bound>, env: nat, s: AState) returns (cells: seq<nat>, s': AState)
    ensures (cells, s') == ThunksA(es, env, s)
  {
    var rest := es;
    cells, s' := [], s;
    assert [] + ThunksA(es, env, s).0 == ThunksA(es, env, s).0;
    while rest.Cons?
      invariant ThunksA(es, env, s) == (cells + ThunksA(rest, env, s').0, ThunksA(rest, env, s').1)
      decreases rest
    {
      ghost var (later, last) := ThunksA(rest.tail, env, MaybeThunkA(rest.head, env, s').1);
      var (c, next) := MaybeThunkA(rest.head, env, s');
      Associates(cells, [c], later);
      cells, s', rest := cells + [c], next, rest.tail;
    }
    assert cells + [] == cells;
  }

  /** `env2.values[displ++] = ...` and `bindings.insert(...)` over all definitions of a `let` or `rec`. */
  method FillLoop(defs: List<AttrDef<Addr, WithInfo>>, hasOverrides: bool, inner: nat, outer: nat, sources: nat, s: AState)
      returns (bindings: seq<Attr<nat>>, s': AState)
    ensures (bindings, s') == FillA(defs, 0, hasOverrides, inner, outer, sources, s)
  {
    var rest, displ := defs, 0;
    bindings, s' := [], s;
    ghost var (all, _) := FillA(defs, 0, hasOverrides, inner, outer, sources, s);
    assert [] + all == all;
    while rest.Cons?
      invariant var (later, last) := FillA(rest, displ, hasOverrides, inner, outer, sources, s');
        FillA(defs, 0, hasOverrides, inner, outer, sources, s) == (bindings + later, last)
      decreases rest
    {
      var d := rest.head;
      var env := DefEnv(d.kind, inner, outer, sources);
      var c, next;
      if hasOverrides && !d.kind.Inherited? {
        c, next := Alloc(Thunk(d.e, env), s').0, Alloc(Thunk(d.e, env), s').1;
      } else {
        c, next := MaybeThunkA(d.e, env, s').0, MaybeThunkA(d.e, env, s').1;
      }
      next := SetSlot(inner, displ, c, next);
      ghost var (later, last) := FillA(rest.tail, displ + 1, hasOverrides, inner, outer, sources, next);
      Associates(bindings, [Attr(d.name, c)], later);
      bindings, s', rest, displ := bindings + [Attr(d.name, c)], next, rest.tail, displ + 1;
    }
    assert bindings + [] == bindings;
  }

  function Counting(used: nat, r: Out<nat, AState>): Out<nat, AState> {
    match r
    case Done(more, s) => Done(used + more, s)
    case Raised(err) => Raised(err)
    case OutOfFuel => OutOfFuel
  }

  /** The loop over formals in `callFunction`, with its counter of the arguments used. */
  method FormalsLoop(formals: List<Formal<Addr, WithInfo>>, first: nat, args: seq<Attr<nat>>, env: nat, s: AState)
      returns (r: Out<nat, AState>)
    ensures r == FormalsA(formals, first, args, env, s)
  {
    var rest, displ, attrsUsed, cur := formals, first, 0, s;
    while rest.Cons?
      invariant FormalsA(formals, first, args, env, s) == Counting(attrsUsed, FormalsA(rest, displ, args, env, cur))
      decreases rest
    {
      var f := rest.head;
      var j := Get(args, f.name);
      if j.None? {
        if f.def.None? { return Raised(MissingArg(f.name)); }
        var (c, next) := MaybeThunkA(f.def.value, env, cur);
        cur := SetSlot(env, displ, c, next);
      } else {
        attrsUsed := attrsUsed + 1;
        cur := SetSlot(env, displ, j.value, cur);
      }
      rest, displ := rest.tail, displ + 1;
    }
    return Done(attrsUsed, cur);
  }
}

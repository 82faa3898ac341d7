/** Lexical addressing preserves meaning: a bound expression evaluated by levels and
    displacements does, step for step, what the expression does by name. */
module Simulation {
  import opened Wrappers
  import opened SortedAttrs
  import opened Syntax
  import opened Scope
  import opened Machine
  import opened NamedEval
  import opened AddressedEval
  import opened Observation
  import opened Correspondence

  /** Corresponding states with every environment slot filled. */
  ghost predicate Ready(scopes: Scopes, sn: NState, sa: AState) {
    Rel(scopes, sn, sa) && Full(sa)
  }

  /** The same outcome: the same value, the same error (never a stuck machine), or no fuel. */
  ghost predicate Same<T(!new)>(scopes: Scopes, cells: nat, rn: Out<T, NState>, ra: Out<T, AState>) {
    match rn
    case OutOfFuel => ra.OutOfFuel?
    case Raised(err) => ra == Raised(err) && err != Stuck
    case Done(v, s) => ra.Done? && ra.v == v && Ready(scopes, s, ra.s) && cells <= |s.cells|
  }

  ghost predicate SameValue(scopes: Scopes, cells: nat, rn: Out<NValue, NState>, ra: Out<AValue, AState>) {
    match rn
    case OutOfFuel => ra.OutOfFuel?
    case Raised(err) => ra == Raised(err) && err != Stuck
    case Done(v, s) => ra.Done? && ValRel(scopes, |s.cells|, v, ra.v) && Ready(scopes, s, ra.s) && cells <= |s.cells|
  }

  ghost predicate SameCell(scopes: Scopes, cells: nat, rn: Out<nat, NState>, ra: Out<nat, AState>) {
    Same(scopes, cells, rn, ra) && (rn.Done? ==> rn.v < |rn.s.cells|)
  }

  ghost predicate TargetRel(scopes: Scopes, cells: nat, tn: Target<(), ()>, ta: Target<Addr, WithInfo>) {
    match tn
    case Direct(v) => ta.Direct? && ValRel(scopes, cells, v, ta.v)
    case At(c) => ta == At(c) && c < cells
  }

  lemma ValRelGrow(scopes: Scopes, scopes': Scopes, cells: nat, cells': nat, vn: NValue, va: AValue)
    requires ValRel(scopes, cells, vn, va) && scopes <= scopes' && cells <= cells'
    ensures ValRel(scopes', cells', vn, va)
  {}

  lemma TargetRelGrow(scopes: Scopes, scopes': Scopes, cells: nat, cells': nat, tn: Target<(), ()>, ta: Target<Addr, WithInfo>)
    requires TargetRel(scopes, cells, tn, ta) && scopes <= scopes' && cells <= cells'
    ensures TargetRel(scopes', cells', tn, ta)
  {
    if tn.Direct? { ValRelGrow(scopes, scopes', cells, cells', tn.v, ta.v); }
  }

  lemma SimForce(n: nat, c: nat, scopes: Scopes, sn: NState, sa: AState) returns (scopes': Scopes)
    requires Ready(scopes, sn, sa) && c < |sn.cells|
    ensures scopes <= scopes' && SameValue(scopes', |sn.cells|, ForceN(n, c, sn), ForceA(n, c, sa))
    decreases n, 1
  {
    scopes' := scopes;
    assert CellRel(scopes, |sn.cells|, sn.cells[c], sa.cells[c]);
    if n > 0 && sn.cells[c].Thunk? {
      var tn, ta := sn.cells[c], sa.cells[c];
      WriteRel(scopes, sn, sa, c, BlackHole, BlackHole);
      var sn0, sa0 := sn.(cells := sn.cells[c := BlackHole]), sa.(cells := sa.cells[c := BlackHole]);
      scopes' := SimEval(n - 1, tn.e, ta.e, tn.env, scopes, sn0, sa0);
      var rn, ra := EvalN(n - 1, tn.e, tn.env, sn0), EvalA(n - 1, ta.e, ta.env, sa0);
      if rn.Done? {
        WriteRel(scopes', rn.s, ra.s, c, Val(rn.v), Val(ra.v));
      }
    }
  }

  lemma SimBool(n: nat, en: Named, ea: Bound, env: nat, scopes: Scopes, sn: NState, sa: AState) returns (scopes': Scopes)
    requires Ready(scopes, sn, sa) && env < |scopes| && Bind(en, scopes[env]) == Ok(ea)
    ensures scopes <= scopes' && Same(scopes', |sn.cells|, BoolN(n, en, env, sn), BoolA(n, ea, env, sa))
    decreases n, 3
  {
    scopes' := SimEval(n, en, ea, env, scopes, sn, sa);
  }

  lemma SimEvalAttrs(n: nat, en: Named, ea: Bound, env: nat, scopes: Scopes, sn: NState, sa: AState) returns (scopes': Scopes)
    requires Ready(scopes, sn, sa) && env < |scopes| && Bind(en, scopes[env]) == Ok(ea)
    ensures scopes <= scopes'
    ensures Same(scopes', |sn.cells|, EvalAttrsN(n, en, env, sn), EvalAttrsA(n, ea, env, sa))
    ensures
      var rn := EvalAttrsN(n, en, env, sn);
      rn.Done? ==> Sorted(rn.v) && AttrsIn(rn.v, |rn.s.cells|)
    decreases n, 3
  {
    scopes' := SimEval(n, en, ea, env, scopes, sn, sa);
  }

  lemma SimTarget(n: nat, tn: Target<(), ()>, ta: Target<Addr, WithInfo>, scopes: Scopes, sn: NState, sa: AState) returns (scopes': Scopes)
    requires Ready(scopes, sn, sa) && TargetRel(scopes, |sn.cells|, tn, ta)
    ensures scopes <= scopes' && SameValue(scopes', |sn.cells|, TargetN(n, tn, sn), TargetA(n, ta, sa))
    decreases n, 3
  {
    scopes' := scopes;
    if tn.At? { scopes' := SimForce(n, tn.cell, scopes, sn, sa); }
  }

  lemma SimName(n: nat, an: AttrName<(), ()>, aa: AttrName<Addr, WithInfo>, env: nat, scopes: Scopes, sn: NState, sa: AState)
    returns (scopes': Scopes)
    requires Ready(scopes, sn, sa) && env < |scopes|
    requires BindPath(Cons(an, Nil), scopes[env]) == Ok(Cons(aa, Nil))
    ensures scopes <= scopes' && Same(scopes', |sn.cells|, NameN(n, an, env, sn), NameA(n, aa, env, sa))
    decreases n, 3
  {
    scopes' := scopes;
    assert BindPath(Nil, scopes[env]) == Ok(Nil);
    if an.Dynamic? { scopes' := SimEval(n, an.e, aa.e, env, scopes, sn, sa); }
  }

  lemma BindPathHead(pn: List<AttrName<(), ()>>, pa: List<AttrName<Addr, WithInfo>>, scope: StaticEnv)
    requires pn.Cons? && BindPath(pn, scope) == Ok(pa)
    ensures pa.Cons? && BindPath(Cons(pn.head, Nil), scope) == Ok(Cons(pa.head, Nil)) && BindPath(pn.tail, scope) == Ok(pa.tail)
  {
    assert BindPath(Nil, scope) == Ok(Nil);
  }

  lemma SimSelect(n: nat, tn: Target<(), ()>, ta: Target<Addr, WithInfo>, pn: List<AttrName<(), ()>>, pa: List<AttrName<Addr, WithInfo>>,
                  dn: Option<Named>, da: Option<Bound>, env: nat, scopes: Scopes, sn: NState, sa: AState)
    returns (scopes': Scopes)
    requires Ready(scopes, sn, sa) && env < |scopes| && TargetRel(scopes, |sn.cells|, tn, ta)
    requires BindPath(pn, scopes[env]) == Ok(pa) && BindOption(dn, scopes[env]) == Ok(da)
    ensures scopes <= scopes' && SameValue(scopes', |sn.cells|, SelectN(n, tn, pn, dn, env, sn), SelectA(n, ta, pa, da, env, sa))
    decreases n, 4, pn, 0
  {
    match pn
    case Nil => scopes' := SimTarget(n, tn, ta, scopes, sn, sa);
    case Cons(a, rest) =>
      BindPathHead(pn, pa, scopes[env]);
      var sc1 := SimName(n, a, pa.head, env, scopes, sn, sa);
      scopes' := sc1;
      var rn, ra := NameN(n, a, env, sn), NameA(n, pa.head, env, sa);
      if rn.Done? {
        TargetRelGrow(scopes, sc1, |sn.cells|, |rn.s.cells|, tn, ta);
        SelectIsN(n, tn, pn, dn, env, sn);
        SelectIsA(n, ta, pa, da, env, sa);
        scopes' := SimNamed(n, rn.v, tn, ta, rest, pa.tail, dn, da, env, sc1, rn.s, ra.s);
      }
  }

  /** The rest of a selection once the name is known, on either side. */
  function NamedN(n: nat, name: Symbol, t: Target<(), ()>, rest: List<AttrName<(), ()>>, def: Option<Named>, env: nat, s: NState): Out<NValue, NState> {
    var (v, s1) :- TargetN(n, t, s);
    SelectedN(n, name, v, rest, def, env, s1)
  }

  lemma SelectIsN(n: nat, t: Target<(), ()>, path: List<AttrName<(), ()>>, def: Option<Named>, env: nat, s: NState)
    requires path.Cons? && NameN(n, path.head, env, s).Done?
    ensures SelectN(n, t, path, def, env, s)
         == NamedN(n, NameN(n, path.head, env, s).v, t, path.tail, def, env, NameN(n, path.head, env, s).s)
  {}

  lemma SimNamed(n: nat, name: Symbol, tn: Target<(), ()>, ta: Target<Addr, WithInfo>, pn: List<AttrName<(), ()>>, pa: List<AttrName<Addr, WithInfo>>,
                 dn: Option<Named>, da: Option<Bound>, env: nat, scopes: Scopes, sn: NState, sa: AState)
    returns (scopes': Scopes)
    requires Ready(scopes, sn, sa) && env < |scopes| && TargetRel(scopes, |sn.cells|, tn, ta)
    requires BindPath(pn, scopes[env]) == Ok(pa) && BindOption(dn, scopes[env]) == Ok(da)
    ensures scopes <= scopes' && SameValue(scopes', |sn.cells|, NamedN(n, name, tn, pn, dn, env, sn), NamedA(n, name, ta, pa, da, env, sa))
    decreases n, 4, pn, 2
  {
    scopes' := SimTarget(n, tn, ta, scopes, sn, sa);
    var rn, ra := TargetN(n, tn, sn), TargetA(n, ta, sa);
    if rn.Done? { scopes' := SimSelected(n, name, rn.v, ra.v, pn, pa, dn, da, env, scopes', rn.s, ra.s); }
  }

  /** The rest of a selection once the value and the name are known, on either side. */
  function SelectedN(n: nat, name: Symbol, v: NValue, rest: List<AttrName<(), ()>>, def: Option<Named>, env: nat, s: NState): Out<NValue, NState> {
    if v.AttrsV? && Get(v.attrs, name).Some? then SelectN(n, At(Get(v.attrs, name).value), rest, def, env, s)
    else if def.Some? then EvalN(n, def.value, env, s)
    else Raised(if v.AttrsV? then MissingAttr(name) else TypeError)
  }

  lemma SimSelected(n: nat, name: Symbol, vn: NValue, va: AValue, pn: List<AttrName<(), ()>>, pa: List<AttrName<Addr, WithInfo>>,
                    dn: Option<Named>, da: Option<Bound>, env: nat, scopes: Scopes, sn: NState, sa: AState)
    returns (scopes': Scopes)
    requires Ready(scopes, sn, sa) && env < |scopes| && ValRel(scopes, |sn.cells|, vn, va)
    requires BindPath(pn, scopes[env]) == Ok(pa) && BindOption(dn, scopes[env]) == Ok(da)
    ensures scopes <= scopes' && SameValue(scopes', |sn.cells|, SelectedN(n, name, vn, pn, dn, env, sn), SelectedA(n, name, va, pa, da, env, sa))
    decreases n, 4, pn, 1
  {
    scopes' := scopes;
    if vn.AttrsV? && Get(vn.attrs, name).Some? {
      GetIn(vn.attrs, name, |sn.cells|);
      var c := Get(vn.attrs, name).value;
      scopes' := SimSelect(n, At(c), At(c), pn, pa, dn, da, env, scopes, sn, sa);
    } else if dn.Some? {
      scopes' := SimEval(n, dn.value, da.value, env, scopes, sn, sa);
    }
  }

  lemma SimHasAttr(n: nat, tn: Target<(), ()>, ta: Target<Addr, WithInfo>, pn: List<AttrName<(), ()>>, pa: List<AttrName<Addr, WithInfo>>,
                   env: nat, scopes: Scopes, sn: NState, sa: AState)
    returns (scopes': Scopes)
    requires Ready(scopes, sn, sa) && env < |scopes| && TargetRel(scopes, |sn.cells|, tn, ta)
    requires BindPath(pn, scopes[env]) == Ok(pa)
    ensures scopes <= scopes' && SameValue(scopes', |sn.cells|, HasAttrN(n, tn, pn, env, sn), HasAttrA(n, ta, pa, env, sa))
    decreases n, 4, pn, 1
  {
    scopes' := scopes;
    if pn.Cons? {
      BindPathHead(pn, pa, scopes[env]);
      var sc1 := SimTarget(n, tn, ta, scopes, sn, sa);
      scopes' := sc1;
      var rn, ra := TargetN(n, tn, sn), TargetA(n, ta, sa);
      if rn.Done? {
        scopes' := SimHas(n, rn.v, ra.v, pn, pa, env, sc1, rn.s, ra.s);
      }
    }
  }

  /** The rest of a test once the value is known, on either side. */
  function HasN(n: nat, v: NValue, path: List<AttrName<(), ()>>, env: nat, s: NState): Out<NValue, NState>
    requires path.Cons?
  {
    var (name, s1) :- NameN(n, path.head, env, s);
    if v.AttrsV? && Get(v.attrs, name).Some? then HasAttrN(n, At(Get(v.attrs, name).value), path.tail, env, s1)
    else Done(Data(Bool(false)), s1)
  }

  function HasA(n: nat, v: AValue, path: List<AttrName<Addr, WithInfo>>, env: nat, s: AState): Out<AValue, AState>
    requires path.Cons?
  {
    var (name, s1) :- NameA(n, path.head, env, s);
    if v.AttrsV? && Get(v.attrs, name).Some? then HasAttrA(n, At(Get(v.attrs, name).value), path.tail, env, s1)
    else Done(Data(Bool(false)), s1)
  }

  lemma SimHas(n: nat, vn: NValue, va: AValue, pn: List<AttrName<(), ()>>, pa: List<AttrName<Addr, WithInfo>>, env: nat,
               scopes: Scopes, sn: NState, sa: AState)
    returns (scopes': Scopes)
    requires Ready(scopes, sn, sa) && env < |scopes| && ValRel(scopes, |sn.cells|, vn, va)
    requires pn.Cons? && BindPath(pn, scopes[env]) == Ok(pa)
    ensures scopes <= scopes' && pa.Cons? && SameValue(scopes', |sn.cells|, HasN(n, vn, pn, env, sn), HasA(n, va, pa, env, sa))
    decreases n, 4, pn, 0
  {
    BindPathHead(pn, pa, scopes[env]);
    scopes' := SimName(n, pn.head, pa.head, env, scopes, sn, sa);
    var rn, ra := NameN(n, pn.head, env, sn), NameA(n, pa.head, env, sa);
    if rn.Done? && vn.AttrsV? && Get(vn.attrs, rn.v).Some? {
      GetIn(vn.attrs, rn.v, |sn.cells|);
      var c := Get(vn.attrs, rn.v).value;
      scopes' := SimHasAttr(n, At(c), At(c), pn.tail, pa.tail, env, scopes', rn.s, ra.s);
    }
  }

  /** Without a `with` outside, the walk by name ends in an error; otherwise it continues at
      the frame the level leads to. */
  lemma {:induction false} SkipToWith(n: nat, name: Symbol, env: nat, scopes: Scopes, sn: NState, sa: AState)
    requires Rel(scopes, sn, sa) && env < |scopes|
    ensures match FirstWith(scopes[env])
            case None => WithN(n, name, env, sn) == Raised(UndefinedVar(name))
            case Some((level, node)) =>
              var f := Climb(sa.envs, env, level);
              && f.Some? && f.value <= env
              && scopes[f.value].Env? && scopes[f.value].frame == IsWith(node)
              && WithN(n, name, env, sn) == WithN(n, name, f.value, sn)
    decreases env
  {
    assert FrameRel(scopes, env, sn.envs[env], sa.envs[env], |sn.cells|);
    if !scopes[env].frame.IsWith? {
      assert WithN(n, name, env, sn) == OuterN(n, name, sn.envs[env].up, env, sn);
      match sn.envs[env].up
      case None =>
      case Some(u) =>
        SkipToWith(n, name, u, scopes, sn, sa);
        if FirstWith(scopes[u]).Some? {
          ClimbUp(scopes, sn, sa, env, u, FirstWith(scopes[u]).value.0);
        }
    }
  }

  /** Each `prevWith` hop lands on the frame of `parentWith`. */
  lemma SimWith(n: nat, name: Symbol, env: nat, node: WithInfo, scopes: Scopes, sn: NState, sa: AState) returns (scopes': Scopes)
    requires Ready(scopes, sn, sa) && env < |scopes| && scopes[env].Env? && scopes[env].frame == IsWith(node)
    ensures scopes <= scopes' && SameCell(scopes', |sn.cells|, WithN(n, name, env, sn), WithA(n, env, node, name, sa))
    decreases n, 3, env
  {
    assert FrameRel(scopes, env, sn.envs[env], sa.envs[env], |sn.cells|);
    var c := sn.envs[env].attrs;
    assert Slot(sa.envs, env, 0, 0) == Some(c);
    scopes' := SimForce(n, c, scopes, sn, sa);
    var rn, ra := ForceN(n, c, sn), ForceA(n, c, sa);
    if rn.Done? && rn.v.AttrsV? {
      GetIn(rn.v.attrs, name, |rn.s.cells|);
      match Get(rn.v.attrs, name)
      case Some(found) =>
        assert WithN(n, name, env, sn) == Done(found, rn.s) && WithA(n, env, node, name, sa) == Done(found, ra.s);
      case None =>
        var sc1 := scopes';
        scopes' := SimNextWith(n, name, env, node, sc1, rn.s, ra.s);
        assert WithN(n, name, env, sn) == OuterN(n, name, rn.s.envs[env].up, env, rn.s);
        assert WithA(n, env, node, name, sa) == NextWithA(n, env, node, name, ra.s);
    }
  }

  /** What `lookupVar` does once the set of this `with` lacks the name. */
  function NextWithA(n: nat, env: nat, node: WithInfo, name: Symbol, s: AState): Out<nat, AState> {
    match node.parent
    case None => Raised(UndefinedVar(name))
    case Some(parent) =>
      match Climb(s.envs, env, node.prevWith)
      case None => Raised(Stuck)
      case Some(f) => WithA(n, f, parent, name, s)
  }

  lemma SimNextWith(n: nat, name: Symbol, env: nat, node: WithInfo, scopes: Scopes, sn: NState, sa: AState) returns (scopes': Scopes)
    requires Ready(scopes, sn, sa) && env < |scopes| && scopes[env].Env? && scopes[env].frame == IsWith(node)
    ensures scopes <= scopes'
    ensures SameCell(scopes', |sn.cells|, OuterN(n, name, sn.envs[env].up, env, sn), NextWithA(n, env, node, name, sa))
    decreases n, 3, env, 0
  {
    scopes' := scopes;
    assert FrameRel(scopes, env, sn.envs[env], sa.envs[env], |sn.cells|);
    if sn.envs[env].up.Some? {
      var u := sn.envs[env].up.value;
      SkipToWith(n, name, u, scopes, sn, sa);
      if FirstWith(scopes[u]).Some? {
        var (level, parent) := FirstWith(scopes[u]).value;
        ClimbUp(scopes, sn, sa, env, u, level);
        scopes' := SimWith(n, name, Climb(sa.envs, u, level).value, parent, scopes, sn, sa);
      }
    }
  }

  lemma SimLookup(n: nat, name: Symbol, addr: Addr, env: nat, scopes: Scopes, sn: NState, sa: AState) returns (scopes': Scopes)
    requires Ready(scopes, sn, sa) && env < |scopes| && Resolve(name, scopes[env]) == Ok(addr)
    ensures scopes <= scopes' && SameCell(scopes', |sn.cells|, LookupN(n, name, env, sn), LookupVar(n, name, addr, env, sa))
    decreases n, 4
  {
    scopes' := scopes;
    FindIsSlot(scopes, sn, sa, env, name);
    SlotInRange(scopes, sn, sa, env, addr);
    if addr.FromWith? {
      SkipToWith(n, name, env, scopes, sn, sa);
      scopes' := SimWith(n, name, Climb(sa.envs, env, addr.level).value, addr.node, scopes, sn, sa);
    }
  }

  lemma SimList(n: nat, en: Named, ea: Bound, env: nat, scopes: Scopes, sn: NState, sa: AState) returns (scopes': Scopes)
    requires n > 0 && (en.ListE? || en.Lit? || en.Lambda? || en.InheritFrom?)
    requires Ready(scopes, sn, sa) && env < |scopes| && Bind(en, scopes[env]) == Ok(ea)
    ensures scopes <= scopes' && SameValue(scopes', |sn.cells|, EvalN(n, en, env, sn), EvalA(n, ea, env, sa))
    decreases n, 0
  {
    scopes' := scopes;
    if en.ListE? {
      ThunksRel(en.elems, ea.elems, env, scopes, sn, sa);
    } else if en.InheritFrom? {
      SourceIsSlot(en.displ, ea, env, scopes, sn, sa);
      scopes' := SimForce(n - 1, Source(sn.envs, env, en.displ).value, scopes, sn, sa);
    }
  }

  lemma SimVar(n: nat, en: Named, ea: Bound, env: nat, scopes: Scopes, sn: NState, sa: AState) returns (scopes': Scopes)
    requires n > 0 && en.Var?
    requires Ready(scopes, sn, sa) && env < |scopes| && Bind(en, scopes[env]) == Ok(ea)
    ensures scopes <= scopes' && SameValue(scopes', |sn.cells|, EvalN(n, en, env, sn), EvalA(n, ea, env, sa))
    decreases n, 0
  {
    scopes' := SimLookup(n - 1, en.name, ea.addr, env, scopes, sn, sa);
    var rn, ra := LookupN(n - 1, en.name, env, sn), LookupVar(n - 1, en.name, ea.addr, env, sa);
    if rn.Done? { scopes' := SimForce(n - 1, rn.v, scopes', rn.s, ra.s); }
  }

  lemma SimSelection(n: nat, en: Named, ea: Bound, env: nat, scopes: Scopes, sn: NState, sa: AState) returns (scopes': Scopes)
    requires n > 0 && (en.Select? || en.HasAttr?)
    requires Ready(scopes, sn, sa) && env < |scopes| && Bind(en, scopes[env]) == Ok(ea)
    ensures scopes <= scopes' && SameValue(scopes', |sn.cells|, EvalN(n, en, env, sn), EvalA(n, ea, env, sa))
    decreases n, 0
  {
    scopes' := SimEval(n - 1, en.e, ea.e, env, scopes, sn, sa);
    var rn, ra := EvalN(n - 1, en.e, env, sn), EvalA(n - 1, ea.e, env, sa);
    if rn.Done? {
      if en.Select? {
        scopes' := SimSelect(n - 1, Direct(rn.v), Direct(ra.v), en.path, ea.path, en.def, ea.def, env, scopes', rn.s, ra.s);
      } else {
        scopes' := SimHasAttr(n - 1, Direct(rn.v), Direct(ra.v), en.path, ea.path, env, scopes', rn.s, ra.s);
      }
    }
  }

  lemma SimWithE(n: nat, en: Named, ea: Bound, env: nat, scopes: Scopes, sn: NState, sa: AState) returns (scopes': Scopes)
    requires n > 0 && en.With?
    requires Ready(scopes, sn, sa) && env < |scopes| && Bind(en, scopes[env]) == Ok(ea)
    ensures scopes <= scopes' && SameValue(scopes', |sn.cells|, EvalN(n, en, env, sn), EvalA(n, ea, env, sa))
    decreases n, 0
  {
    MaybeThunkRel(en.scope, ea.scope, env, scopes, sn, sa);
    var (c, sn1) := MaybeThunkN(en.scope, env, sn);
    var (_, sa1) := MaybeThunkA(ea.scope, env, sa);
    var scope := Env(IsWith(NodeFor(scopes[env])), scopes[env]);
    PushRel(scopes, sn1, sa1, scope, NWith(Some(env), c), AFrame(Some(env), [Some(c)]));
    scopes' := SimEval(n - 1, en.body, ea.body, |scopes|, scopes + [scope],
                       PushN(NWith(Some(env), c), sn1).1, Push(AFrame(Some(env), [Some(c)]), sa1).1);
  }

  lemma SimIf(n: nat, en: Named, ea: Bound, env: nat, scopes: Scopes, sn: NState, sa: AState) returns (scopes': Scopes)
    requires n > 0 && en.If?
    requires Ready(scopes, sn, sa) && env < |scopes| && Bind(en, scopes[env]) == Ok(ea)
    ensures scopes <= scopes' && SameValue(scopes', |sn.cells|, EvalN(n, en, env, sn), EvalA(n, ea, env, sa))
    decreases n, 0
  {
    scopes' := SimBool(n - 1, en.cond, ea.cond, env, scopes, sn, sa);
    var rn, ra := BoolN(n - 1, en.cond, env, sn), BoolA(n - 1, ea.cond, env, sa);
    if rn.Done? {
      var nextN, nextA := if rn.v then en.thn else en.els, if rn.v then ea.thn else ea.els;
      scopes' := SimEval(n - 1, nextN, nextA, env, scopes', rn.s, ra.s);
    }
  }

  lemma SimAssert(n: nat, en: Named, ea: Bound, env: nat, scopes: Scopes, sn: NState, sa: AState) returns (scopes': Scopes)
    requires n > 0 && en.Assert?
    requires Ready(scopes, sn, sa) && env < |scopes| && Bind(en, scopes[env]) == Ok(ea)
    ensures scopes <= scopes' && SameValue(scopes', |sn.cells|, EvalN(n, en, env, sn), EvalA(n, ea, env, sa))
    decreases n, 0
  {
    scopes' := SimBool(n - 1, en.cond, ea.cond, env, scopes, sn, sa);
    var rn, ra := BoolN(n - 1, en.cond, env, sn), BoolA(n - 1, ea.cond, env, sa);
    if rn.Done? && rn.v { scopes' := SimEval(n - 1, en.body, ea.body, env, scopes', rn.s, ra.s); }
  }

  lemma SimBoolOp(n: nat, en: Named, ea: Bound, env: nat, scopes: Scopes, sn: NState, sa: AState) returns (scopes': Scopes)
    requires n > 0 && (en.Not? || en.BinBool?)
    requires Ready(scopes, sn, sa) && env < |scopes| && Bind(en, scopes[env]) == Ok(ea)
    ensures scopes <= scopes' && SameValue(scopes', |sn.cells|, EvalN(n, en, env, sn), EvalA(n, ea, env, sa))
    decreases n, 0
  {
    if en.Not? {
      scopes' := SimBool(n - 1, en.e, ea.e, env, scopes, sn, sa);
    } else {
      scopes' := SimBool(n - 1, en.e1, ea.e1, env, scopes, sn, sa);
      var rn, ra := BoolN(n - 1, en.e1, env, sn), BoolA(n - 1, ea.e1, env, sa);
      if rn.Done? && !(match en.op case And => !rn.v case Or => rn.v case Impl => !rn.v) {
        scopes' := SimBool(n - 1, en.e2, ea.e2, env, scopes', rn.s, ra.s);
      }
    }
  }

  lemma SimUpdate(n: nat, en: Named, ea: Bound, env: nat, scopes: Scopes, sn: NState, sa: AState) returns (scopes': Scopes)
    requires n > 0 && en.Update?
    requires Ready(scopes, sn, sa) && env < |scopes| && Bind(en, scopes[env]) == Ok(ea)
    ensures scopes <= scopes' && SameValue(scopes', |sn.cells|, EvalN(n, en, env, sn), EvalA(n, ea, env, sa))
    decreases n, 0
  {
    scopes' := SimEvalAttrs(n - 1, en.e2, ea.e2, env, scopes, sn, sa);
    var rn, ra := EvalAttrsN(n - 1, en.e2, env, sn), EvalAttrsA(n - 1, ea.e2, env, sa);
    if rn.Done? {
      scopes' := SimEvalAttrs(n - 1, en.e1, ea.e1, env, scopes', rn.s, ra.s);
      var qn := EvalAttrsN(n - 1, en.e1, env, rn.s);
      if qn.Done? { MergeIn(qn.v, rn.v, |qn.s.cells|); }
    }
  }

  lemma MergeIn(xs: seq<Attr<nat>>, ys: seq<Attr<nat>>, cells: nat)
    requires Sorted(xs) && Sorted(ys) && AttrsIn(xs, cells) && AttrsIn(ys, cells)
    ensures Sorted(Merge(xs, ys)) && AttrsIn(Merge(xs, ys), cells)
  {
    MergeSorted(xs, ys);
    MergeNames(xs, ys);
  }

  lemma SimConcat(n: nat, en: Named, ea: Bound, env: nat, scopes: Scopes, sn: NState, sa: AState) returns (scopes': Scopes)
    requires n > 0 && en.ConcatLists?
    requires Ready(scopes, sn, sa) && env < |scopes| && Bind(en, scopes[env]) == Ok(ea)
    ensures scopes <= scopes' && SameValue(scopes', |sn.cells|, EvalN(n, en, env, sn), EvalA(n, ea, env, sa))
    decreases n, 0
  {
    scopes' := SimEval(n - 1, en.e1, ea.e1, env, scopes, sn, sa);
    var rn, ra := EvalN(n - 1, en.e1, env, sn), EvalA(n - 1, ea.e1, env, sa);
    if rn.Done? { scopes' := SimEval(n - 1, en.e2, ea.e2, env, scopes', rn.s, ra.s); }
  }

  lemma SimOpen(dn: List<AttrDef<(), ()>>, da: List<AttrDef<Addr, WithInfo>>, fn: List<Named>, fa: List<Bound>, always: bool,
                env: nat, scopes: Scopes, sn: NState, sa: AState)
    returns (scopes': Scopes)
    requires Ready(scopes, sn, sa) && env < |scopes| && Ascending(DefNames(dn))
    requires var inner := Env(Vars(DefNames(dn)), scopes[env]);
             BindList(fn, inner) == Ok(fa) && BindDefs(dn, inner, scopes[env], SourceScope(fn, inner)) == Ok(da)
    ensures scopes <= scopes' && |scopes| < |scopes'| && scopes'[|scopes|] == Env(Vars(DefNames(dn)), scopes[env])
    ensures DefNames(dn) == DefNames(da)
    ensures Filled(scopes', DefNames(dn), |sn.cells|, OpenN(dn, fn, always, env, sn), OpenA(da, fa, always, env, sa))
  {
    var inner := Env(Vars(DefNames(dn)), scopes[env]);
    BindDefsNames(dn, da, inner, scopes[env], SourceScope(fn, inner));
    var names := DefNames(dn);
    var frameN, frameA := NVars(Some(env), Undeclared(names)), AFrame(Some(env), seq(Length(da), _ => None));
    PushRel(scopes, sn, sa, inner, frameN, frameA);
    var sn1, sa1 := PushN(frameN, sn).1, Push(frameA, sa).1;
    SourcesRel(fn, fa, |scopes|, scopes + [inner], sn1, sa1, |scopes|, 0);
    scopes' := SourceScopes(fn, |scopes|, scopes + [inner]);
    var (srcN, sn2) := SourcesN(fn, |scopes|, sn1);
    var (srcA, sa2) := SourcesA(fa, |scopes|, sa1);
    assert names[0..] == names;
    FillRel(dn, da, 0, always, |scopes|, env, srcN, fn.Cons?, scopes', sn2, sa2);
  }

  lemma SimLet(n: nat, en: Named, ea: Bound, env: nat, scopes: Scopes, sn: NState, sa: AState) returns (scopes': Scopes)
    requires n > 0 && en.Let?
    requires Ready(scopes, sn, sa) && env < |scopes| && Bind(en, scopes[env]) == Ok(ea)
    ensures scopes <= scopes' && SameValue(scopes', |sn.cells|, EvalN(n, en, env, sn), EvalA(n, ea, env, sa))
    decreases n, 0
  {
    var sc1 := SimOpen(en.defs, ea.defs, en.from, ea.from, false, env, scopes, sn, sa);
    var sn1, sa1 := OpenN(en.defs, en.from, false, env, sn).1, OpenA(ea.defs, ea.from, false, env, sa).1;
    scopes' := SimEval(n - 1, en.body, ea.body, |scopes|, sc1, sn1, sa1);
  }

  lemma SimDyn(n: nat, dn: List<DynAttr<(), ()>>, da: List<DynAttr<Addr, WithInfo>>, bindings: seq<Attr<nat>>, env: nat,
               scopes: Scopes, sn: NState, sa: AState)
    returns (scopes': Scopes)
    requires Ready(scopes, sn, sa) && env < |scopes| && BindDyn(dn, scopes[env]) == Ok(da)
    requires Sorted(bindings) && AttrsIn(bindings, |sn.cells|)
    ensures scopes <= scopes' && SameValue(scopes', |sn.cells|, DynN(n, dn, bindings, env, sn), DynA(n, da, bindings, env, sa))
    decreases n, 4, dn, 1
  {
    scopes' := scopes;
    if dn.Cons? {
      var sc1 := SimEval(n, dn.head.nameE, da.head.nameE, env, scopes, sn, sa);
      scopes' := sc1;
      var rn, ra := EvalN(n, dn.head.nameE, env, sn), EvalA(n, da.head.nameE, env, sa);
      if rn.Done? {
        if rn.v == Data(Null) {
          scopes' := SimDyn(n, dn.tail, da.tail, bindings, env, sc1, rn.s, ra.s);
        } else if rn.v.Data? && rn.v.c.Str? && Get(bindings, rn.v.c.sym).None? {
          scopes' := SimAdd(n, dn, da, rn.v.c.sym, bindings, env, sc1, rn.s, ra.s);
        }
      }
    }
  }

  /** A dynamic attribute added and the rest, on either side. */
  function AddN(n: nat, dyn: List<DynAttr<(), ()>>, name: Symbol, bindings: seq<Attr<nat>>, env: nat, s: NState): Out<NValue, NState>
    requires dyn.Cons?
  {
    var (c, s1) := MaybeThunkN(dyn.head.valueE, env, s);
    DynN(n, dyn.tail, Insert(bindings, Attr(name, c)), env, s1)
  }

  lemma SimAdd(n: nat, dn: List<DynAttr<(), ()>>, da: List<DynAttr<Addr, WithInfo>>, name: Symbol, bindings: seq<Attr<nat>>, env: nat,
               scopes: Scopes, sn: NState, sa: AState)
    returns (scopes': Scopes)
    requires Ready(scopes, sn, sa) && env < |scopes| && dn.Cons? && BindDyn(dn, scopes[env]) == Ok(da)
    requires Sorted(bindings) && AttrsIn(bindings, |sn.cells|) && Get(bindings, name).None?
    ensures scopes <= scopes' && SameValue(scopes', |sn.cells|, AddN(n, dn, name, bindings, env, sn), AddA(n, da, name, bindings, env, sa))
    decreases n, 4, dn, 0
  {
    MaybeThunkRel(dn.head.valueE, da.head.valueE, env, scopes, sn, sa);
    var (c, sn1) := MaybeThunkN(dn.head.valueE, env, sn);
    var (_, sa1) := MaybeThunkA(da.head.valueE, env, sa);
    InsertIsMerge(bindings, Attr(name, c));
    MergeIn(bindings, [Attr(name, c)], |sn1.cells|);
    scopes' := SimDyn(n, dn.tail, da.tail, Insert(bindings, Attr(name, c)), env, scopes, sn1, sa1);
  }

  lemma GetNamed(attrs: seq<Attr<nat>>, name: Symbol)
    ensures match IndexOf(NamesOf(attrs), name)
            case None => Get(attrs, name) == None
            case Some(i) => i < |attrs| && Get(attrs, name) == Some(attrs[i].value)
  {
    if attrs != [] {
      assert NamesOf(attrs)[1..] == NamesOf(attrs[1..]);
      GetNamed(attrs[1..], name);
    }
  }

  /** The definitions of a set that is not recursive, and their sources. */
  function PlainN(an: AttrSet<(), ()>, env: nat, s: NState): (seq<Attr<nat>>, NState) {
    var (sources, s1) := SourcesN(an.from, env, s);
    ThunkDefsN(an.defs, env, sources, s1)
  }

  function PlainA(aa: AttrSet<Addr, WithInfo>, env: nat, s: AState): (seq<Attr<nat>>, AState) {
    var (sources, s1) := SourcesA(aa.from, env, s);
    ThunkDefsA(aa.defs, env, sources, s1)
  }

  lemma SimPlain(an: AttrSet<(), ()>, aa: AttrSet<Addr, WithInfo>, env: nat, scopes: Scopes, sn: NState, sa: AState)
    returns (scopes': Scopes)
    requires !an.recursive
    requires Ready(scopes, sn, sa) && env < |scopes| && Bind(Attrs(an), scopes[env]) == Ok(Attrs(aa))
    ensures scopes <= scopes' && Filled(scopes', DefNames(an.defs), |sn.cells|, PlainN(an, env, sn), PlainA(aa, env, sa))
  {
    SourcesRel(an.from, aa.from, env, scopes, sn, sa, env, |sa.envs[env].values|);
    scopes' := SourceScopes(an.from, env, scopes);
    var (srcN, sn1) := SourcesN(an.from, env, sn);
    var (_, sa1) := SourcesA(aa.from, env, sa);
    ThunkDefsRel(an.defs, aa.defs, env, srcN, an.from.Cons?, scopes', sn1, sa1);
  }

  lemma SimPlainAttrs(n: nat, an: AttrSet<(), ()>, aa: AttrSet<Addr, WithInfo>, env: nat, scopes: Scopes, sn: NState, sa: AState)
    returns (scopes': Scopes)
    requires !an.recursive
    requires Ready(scopes, sn, sa) && env < |scopes| && Bind(Attrs(an), scopes[env]) == Ok(Attrs(aa))
    ensures scopes <= scopes' && SameValue(scopes', |sn.cells|, AttrsN(n, an, env, sn), AttrsA(n, aa, env, sa))
    decreases n, 6
  {
    var sc1 := SimPlain(an, aa, env, scopes, sn, sa);
    var (bindings, sn1) := PlainN(an, env, sn);
    NamesSorted(bindings);
    scopes' := SimDyn(n, an.dyn, aa.dyn, bindings, env, sc1, sn1, PlainA(aa, env, sa).1);
  }

  lemma SimRecAttrs(n: nat, an: AttrSet<(), ()>, aa: AttrSet<Addr, WithInfo>, env: nat, scopes: Scopes, sn: NState, sa: AState)
    returns (scopes': Scopes)
    requires an.recursive
    requires Ready(scopes, sn, sa) && env < |scopes| && Bind(Attrs(an), scopes[env]) == Ok(Attrs(aa))
    ensures scopes <= scopes' && SameValue(scopes', |sn.cells|, AttrsN(n, an, env, sn), AttrsA(n, aa, env, sa))
    decreases n, 8
  {
    scopes' := SimRec(n, an, aa, env, scopes, sn, sa);
    RecIsN(n, an, env, sn);
    RecIsA(n, aa, env, sa);
  }

  lemma SimRec(n: nat, an: AttrSet<(), ()>, aa: AttrSet<Addr, WithInfo>, env: nat, scopes: Scopes, sn: NState, sa: AState)
    returns (scopes': Scopes)
    requires an.recursive
    requires Ready(scopes, sn, sa) && env < |scopes| && Bind(Attrs(an), scopes[env]) == Ok(Attrs(aa))
    ensures scopes <= scopes' && SameValue(scopes', |sn.cells|, RecN(n, an, env, sn), RecA(n, aa, env, sa))
    decreases n, 7
  {
    var names := DefNames(an.defs);
    var sc1 := SimOpen(an.defs, aa.defs, an.from, aa.from, OVERRIDES in names, env, scopes, sn, sa);
    var (bindings, sn1) := OpenN(an.defs, an.from, OVERRIDES in names, env, sn);
    var (_, sa1) := OpenA(aa.defs, aa.from, OVERRIDES in names, env, sa);
    scopes' := SimRecTail(n, an.dyn, aa.dyn, names, bindings, |scopes|, sc1, sn1, sa1);
  }

  /** A `rec` as its frame and what follows, on either side. */
  function RecN(n: nat, an: AttrSet<(), ()>, env: nat, s: NState): Out<NValue, NState> {
    var (bindings, s1) := OpenN(an.defs, an.from, OVERRIDES in DefNames(an.defs), env, s);
    RecTailN(n, an.dyn, bindings, |s.envs|, s1)
  }

  function RecA(n: nat, aa: AttrSet<Addr, WithInfo>, env: nat, s: AState): Out<AValue, AState> {
    var (bindings, s1) := OpenA(aa.defs, aa.from, OVERRIDES in DefNames(aa.defs), env, s);
    RecTailA(n, aa.dyn, DefNames(aa.defs), bindings, |s.envs|, s1)
  }

  lemma RecIsN(n: nat, an: AttrSet<(), ()>, env: nat, s: NState)
    requires an.recursive
    ensures AttrsN(n, an, env, s) == RecN(n, an, env, s)
  {}

  lemma RecIsA(n: nat, aa: AttrSet<Addr, WithInfo>, env: nat, s: AState)
    requires aa.recursive
    ensures AttrsA(n, aa, env, s) == RecA(n, aa, env, s)
  {}

  /** What follows the filling of a `rec`, on either side. */
  function RecTailN(n: nat, dyn: List<DynAttr<(), ()>>, bindings: seq<Attr<nat>>, inner: nat, s: NState): Out<NValue, NState> {
    match Get(bindings, OVERRIDES)
    case None => DynN(n, dyn, bindings, inner, s)
    case Some(c) => AfterFillN(n, dyn, bindings, c, inner, s)
  }

  function RecTailA(n: nat, dyn: List<DynAttr<Addr, WithInfo>>, names: seq<Symbol>, bindings: seq<Attr<nat>>, inner: nat, s: AState)
    : Out<AValue, AState>
  {
    match IndexOf(names, OVERRIDES)
    case None => DynA(n, dyn, bindings, inner, s)
    case Some(i) => if i >= |bindings| then Raised(Stuck) else AfterFillA(n, dyn, names, bindings, bindings[i].value, inner, s)
  }

  lemma SimRecTail(n: nat, dn: List<DynAttr<(), ()>>, da: List<DynAttr<Addr, WithInfo>>, names: seq<Symbol>, bindings: seq<Attr<nat>>, inner: nat,
                   scopes: Scopes, sn: NState, sa: AState)
    returns (scopes': Scopes)
    requires Ready(scopes, sn, sa) && inner < |scopes| && BindDyn(dn, scopes[inner]) == Ok(da)
    requires scopes[inner].Env? && scopes[inner].frame == Vars(names) && Ascending(names)
    requires NamesOf(bindings) == names && AttrsIn(bindings, |sn.cells|)
    ensures scopes <= scopes'
    ensures SameValue(scopes', |sn.cells|, RecTailN(n, dn, bindings, inner, sn), RecTailA(n, da, names, bindings, inner, sa))
    decreases n, 6
  {
    NamesSorted(bindings);
    GetNamed(bindings, OVERRIDES);
    match IndexOf(names, OVERRIDES)
    case None => scopes' := SimDyn(n, dn, da, bindings, inner, scopes, sn, sa);
    case Some(i) => scopes' := SimOverrides(n, dn, da, bindings, bindings[i].value, inner, scopes, sn, sa);
  }

  /** What follows the filling of a `rec` with `__overrides`, on either side. */
  function AfterFillN(n: nat, dyn: List<DynAttr<(), ()>>, bindings: seq<Attr<nat>>, c: nat, inner: nat, s: NState): Out<NValue, NState> {
    var (v, s4) :- ForceN(n, c, s);
    if !v.AttrsV? then Raised(TypeError) else
    DynN(n, dyn, Merge(bindings, v.attrs), inner, OverrideN(v.attrs, inner, s4))
  }

  function AfterFillA(n: nat, dyn: List<DynAttr<Addr, WithInfo>>, names: seq<Symbol>, bindings: seq<Attr<nat>>, c: nat, inner: nat, s: AState)
    : Out<AValue, AState>
  {
    var (v, s4) :- ForceA(n, c, s);
    if !v.AttrsV? then Raised(TypeError) else
    DynA(n, dyn, Merge(bindings, v.attrs), inner, OverrideSlotsA(names, v.attrs, inner, s4))
  }

  lemma SimOverrides(n: nat, dn: List<DynAttr<(), ()>>, da: List<DynAttr<Addr, WithInfo>>, bindings: seq<Attr<nat>>, c: nat, inner: nat,
                     scopes: Scopes, sn: NState, sa: AState)
    returns (scopes': Scopes)
    requires Ready(scopes, sn, sa) && inner < |scopes| && BindDyn(dn, scopes[inner]) == Ok(da)
    requires scopes[inner].Env? && scopes[inner].frame.Vars?
    requires Sorted(bindings) && AttrsIn(bindings, |sn.cells|) && c < |sn.cells|
    ensures scopes <= scopes'
    ensures SameValue(scopes', |sn.cells|, AfterFillN(n, dn, bindings, c, inner, sn),
                      AfterFillA(n, da, scopes[inner].frame.names, bindings, c, inner, sa))
    decreases n, 5
  {
    scopes' := SimForce(n, c, scopes, sn, sa);
    var rn, ra := ForceN(n, c, sn), ForceA(n, c, sa);
    if rn.Done? && rn.v.AttrsV? {
      OverrideRel(rn.v.attrs, inner, scopes', rn.s, ra.s);
      MergeIn(bindings, rn.v.attrs, |rn.s.cells|);
      scopes' := SimDyn(n, dn, da, Merge(bindings, rn.v.attrs), inner, scopes',
                        OverrideN(rn.v.attrs, inner, rn.s), OverrideSlotsA(scopes[inner].frame.names, rn.v.attrs, inner, ra.s));
    }
  }

  lemma SimEnter(n: nat, ln: Lam<(), ()>, la: Lam<Addr, WithInfo>, lamEnv: nat, arg: nat, scopes: Scopes, sn: NState, sa: AState)
    returns (scopes': Scopes)
    requires Ready(scopes, sn, sa) && lamEnv < |scopes| && arg < |sn.cells|
    requires Bind(Lambda(ln), scopes[lamEnv]) == Ok(Lambda(la))
    ensures scopes <= scopes' && Same(scopes', |sn.cells|, EnterN(n, ln, lamEnv, arg, sn), EnterA(n, la, lamEnv, arg, sa))
    ensures
      var rn := EnterN(n, ln, lamEnv, arg, sn);
      rn.Done? ==> rn.v < |scopes'| && scopes'[rn.v] == Env(Vars(LamNames(ln)), scopes[lamEnv])
    decreases n, 3
  {
    var scope := Env(Vars(LamNames(ln)), scopes[lamEnv]);
    match ln
    case ArgOnly(x, _) =>
      PushArg(x, scope, lamEnv, arg, scopes, sn, sa);
      scopes' := scopes + [scope];
    case Pattern(at, formals, ellipsis, _) =>
      var sc1 := SimForce(n, arg, scopes, sn, sa);
      scopes' := sc1;
      var rn, ra := ForceN(n, arg, sn), ForceA(n, arg, sa);
      if rn.Done? && rn.v.AttrsV? {
        scopes' := SimPattern(ln, la, lamEnv, arg, rn.v.attrs, sc1, rn.s, ra.s);
        assert EnterN(n, ln, lamEnv, arg, sn) == MatchN(ln, lamEnv, arg, rn.v.attrs, rn.s);
        assert EnterA(n, la, lamEnv, arg, sa) == MatchA(la, lamEnv, arg, rn.v.attrs, ra.s);
      }
  }

  lemma PushArg(x: Symbol, scope: StaticEnv, lamEnv: nat, arg: nat, scopes: Scopes, sn: NState, sa: AState)
    requires Ready(scopes, sn, sa) && lamEnv < |scopes| && arg < |sn.cells| && scope == Env(Vars([x]), scopes[lamEnv])
    ensures Ready(scopes + [scope], PushN(NVars(Some(lamEnv), map[x := Some(arg)]), sn).1, Push(AFrame(Some(lamEnv), [Some(arg)]), sa).1)
  {
    PushRel(scopes, sn, sa, scope, NVars(Some(lamEnv), map[x := Some(arg)]), AFrame(Some(lamEnv), [Some(arg)]));
  }

  function PatternFrameN(lam: Lam<(), ()>, lamEnv: nat, arg: nat): NFrame
    requires lam.Pattern?
  {
    var vars := Undeclared(LamNames(lam));
    NVars(Some(lamEnv), if lam.at.Some? then vars[lam.at.value := Some(arg)] else vars)
  }

  /** Matching an attribute set against a pattern: the tail of `EnterN` and `EnterA`. */
  function MatchN(lam: Lam<(), ()>, lamEnv: nat, arg: nat, attrs: seq<Attr<nat>>, s: NState): Out<nat, NState>
    requires lam.Pattern?
  {
    var (inner, s2) := PushN(PatternFrameN(lam, lamEnv, arg), s);
    var (_, s3) :- FormalsN(lam.formals, attrs, inner, s2);
    var unexpected := FirstUnexpected(attrs, FormalNames(lam.formals));
    if !lam.ellipsis && unexpected.Some? then Raised(UnexpectedArg(unexpected.value)) else Done(inner, s3)
  }

  lemma BindFormalsNames(fn: List<Formal<(), ()>>, fa: List<Formal<Addr, WithInfo>>, scope: StaticEnv)
    requires BindFormals(fn, scope) == Ok(fa)
    ensures FormalNames(fn) == FormalNames(fa) && Length(fn) == Length(fa) == |FormalNames(fn)|
    decreases fn
  {
    if fn.Cons? { BindFormalsNames(fn.tail, fa.tail, scope); }
  }

  /** The fresh frame of a pattern: `@`-name filled, formals still empty. */
  lemma PatternFrameRel(ln: Lam<(), ()>, la: Lam<Addr, WithInfo>, lamEnv: nat, arg: nat, scopes: Scopes, sn: NState, sa: AState)
    requires ln.Pattern? && la.Pattern? && ln.at == la.at && Length(la.formals) == |FormalNames(ln.formals)|
    requires Ready(scopes, sn, sa) && lamEnv < |scopes| && arg < |sn.cells| && Distinct(LamNames(ln))
    ensures
      var scopes' := scopes + [Env(Vars(LamNames(ln)), scopes[lamEnv])];
      var sn1, sa1 := PushN(PatternFrameN(ln, lamEnv, arg), sn).1, Push(PatternFrameA(la, lamEnv, arg), sa).1;
      Rel(scopes', sn1, sa1) && FullBut(sa1, |scopes|, if ln.at.Some? then 1 else 0)
  {
    var names := LamNames(ln);
    var scope := Env(Vars(names), scopes[lamEnv]);
    var fn, fa := PatternFrameN(ln, lamEnv, arg), PatternFrameA(la, lamEnv, arg);
    if ln.at.Some? { assert names[0] == ln.at.value; }
    forall d | 0 <= d < |names| ensures fn.vars[names[d]] == fa.values[d] {
      if ln.at.Some? && d > 0 { assert names[0] != names[d]; }
    }
    PushRel(scopes, sn, sa, scope, fn, fa);
  }

  lemma PatternNames(ln: Lam<(), ()>)
    requires ln.Pattern? && Distinct(LamNames(ln))
    ensures LamNames(ln)[if ln.at.Some? then 1 else 0..] == FormalNames(ln.formals) && Distinct(FormalNames(ln.formals))
  {
    var names, formals := LamNames(ln), FormalNames(ln.formals);
    if ln.at.Some? {
      assert names == [ln.at.value] + formals;
      assert names[1..] == formals;
    }
    DistinctDrop(names, if ln.at.Some? then 1 else 0);
  }

  lemma DistinctDrop(names: seq<Symbol>, k: nat)
    requires Distinct(names) && k <= |names|
    ensures Distinct(names[k..])
  {}

  lemma SimPattern(ln: Lam<(), ()>, la: Lam<Addr, WithInfo>, lamEnv: nat, arg: nat, attrs: seq<Attr<nat>>,
                   scopes: Scopes, sn: NState, sa: AState)
    returns (scopes': Scopes)
    requires ln.Pattern? && Ready(scopes, sn, sa) && lamEnv < |scopes| && arg < |sn.cells|
    requires Bind(Lambda(ln), scopes[lamEnv]) == Ok(Lambda(la))
    requires Sorted(attrs) && AttrsIn(attrs, |sn.cells|)
    ensures la.Pattern? && scopes' == scopes + [Env(Vars(LamNames(ln)), scopes[lamEnv])]
    ensures Same(scopes', |sn.cells|, MatchN(ln, lamEnv, arg, attrs, sn), MatchA(la, lamEnv, arg, attrs, sa))
    ensures MatchN(ln, lamEnv, arg, attrs, sn).Done? ==> MatchN(ln, lamEnv, arg, attrs, sn).v == |scopes|
  {
    var scope := Env(Vars(LamNames(ln)), scopes[lamEnv]);
    scopes' := scopes + [scope];
    BindFormalsNames(ln.formals, la.formals, scope);
    var displ := if ln.at.Some? then 1 else 0;
    PatternNames(ln);
    PatternFrameRel(ln, la, lamEnv, arg, scopes, sn, sa);
    FormalsRel(ln.formals, la.formals, displ, attrs, |scopes|, scopes',
               PushN(PatternFrameN(ln, lamEnv, arg), sn).1, Push(PatternFrameA(la, lamEnv, arg), sa).1);
    CountDecides(FormalNames(ln.formals), attrs);
  }

  lemma SimCall(n: nat, fn: NValue, fa: AValue, args: seq<nat>, scopes: Scopes, sn: NState, sa: AState) returns (scopes': Scopes)
    requires Ready(scopes, sn, sa) && ValRel(scopes, |sn.cells|, fn, fa) && CellsIn(args, |sn.cells|)
    ensures scopes <= scopes' && SameValue(scopes', |sn.cells|, CallN(n, fn, args, sn), CallA(n, fa, args, sa))
    decreases n, 5, |args|
  {
    scopes' := scopes;
    if args != [] {
      match fn
      case Closure(ln, env) =>
        scopes' := SimApply(n, ln, fa.lam, env, args[0], scopes, sn, sa);
        var rn, ra := ApplyN(n, ln, env, args[0], sn), ApplyA(n, fa.lam, env, args[0], sa);
        if rn.Done? { scopes' := SimCall(n, rn.v, ra.v, args[1..], scopes', rn.s, ra.s); }
      case AttrsV(attrs) =>
        if n > 0 && Get(attrs, FUNCTOR).Some? {
          GetIn(attrs, FUNCTOR, |sn.cells|);
          scopes' := SimFunctor(n, fn, fa, args[0], scopes, sn, sa);
          var rn, ra := FunctorN(n, fn, args[0], sn), FunctorA(n, fa, args[0], sa);
          if rn.Done? { scopes' := SimCall(n, rn.v, ra.v, args[1..], scopes', rn.s, ra.s); }
        }
      case _ =>
    }
  }

  /** A lambda applied to one argument, on either side. */
  function ApplyN(n: nat, lam: Lam<(), ()>, env: nat, arg: nat, s: NState): Out<NValue, NState> {
    var (inner, s1) :- EnterN(n, lam, env, arg, s);
    EvalN(n, lam.body, inner, s1)
  }

  function ApplyA(n: nat, lam: Lam<Addr, WithInfo>, env: nat, arg: nat, s: AState): Out<AValue, AState> {
    var (inner, s1) :- EnterA(n, lam, env, arg, s);
    EvalA(n, lam.body, inner, s1)
  }

  lemma SimApply(n: nat, ln: Lam<(), ()>, la: Lam<Addr, WithInfo>, env: nat, arg: nat, scopes: Scopes, sn: NState, sa: AState)
    returns (scopes': Scopes)
    requires Ready(scopes, sn, sa) && env < |scopes| && arg < |sn.cells|
    requires Bind(Lambda(ln), scopes[env]) == Ok(Lambda(la))
    ensures scopes <= scopes' && SameValue(scopes', |sn.cells|, ApplyN(n, ln, env, arg, sn), ApplyA(n, la, env, arg, sa))
    decreases n, 4
  {
    scopes' := SimEnter(n, ln, la, env, arg, scopes, sn, sa);
    var rn, ra := EnterN(n, ln, env, arg, sn), EnterA(n, la, env, arg, sa);
    if rn.Done? { scopes' := SimEval(n, ln.body, la.body, rn.v, scopes', rn.s, ra.s); }
  }

  /** One argument applied through `__functor`, on either side. */
  function FunctorN(n: nat, f: NValue, arg: nat, s: NState): Out<NValue, NState>
    requires n > 0 && f.AttrsV? && Get(f.attrs, FUNCTOR).Some?
  {
    CallCellN(n - 1, Get(f.attrs, FUNCTOR).value, [|s.cells|, arg], Alloc(Val(f), s).1)
  }

  lemma SimFunctor(n: nat, fn: NValue, fa: AValue, arg: nat, scopes: Scopes, sn: NState, sa: AState) returns (scopes': Scopes)
    requires n > 0 && fn.AttrsV? && Get(fn.attrs, FUNCTOR).Some? && arg < |sn.cells|
    requires Ready(scopes, sn, sa) && ValRel(scopes, |sn.cells|, fn, fa)
    ensures scopes <= scopes' && SameValue(scopes', |sn.cells|, FunctorN(n, fn, arg, sn), FunctorA(n, fa, arg, sa))
    decreases n, 0
  {
    GetIn(fn.attrs, FUNCTOR, |sn.cells|);
    ValRelGrow(scopes, scopes, |sn.cells|, |sn.cells| + 1, fn, fa);
    AllocRel(scopes, sn, sa, Val(fn), Val(fa));
    scopes' := SimCallCell(n - 1, Get(fn.attrs, FUNCTOR).value, [|sn.cells|, arg], scopes, Alloc(Val(fn), sn).1, Alloc(Val(fa), sa).1);
  }

  /** Forces a cell and calls what it holds, on either side. */
  function CallCellN(n: nat, c: nat, args: seq<nat>, s: NState): Out<NValue, NState> {
    var (g, s1) :- ForceN(n, c, s);
    CallN(n, g, args, s1)
  }

  lemma SimCallCell(n: nat, c: nat, args: seq<nat>, scopes: Scopes, sn: NState, sa: AState) returns (scopes': Scopes)
    requires Ready(scopes, sn, sa) && c < |sn.cells| && CellsIn(args, |sn.cells|)
    ensures scopes <= scopes' && SameValue(scopes', |sn.cells|, CallCellN(n, c, args, sn), CallCellA(n, c, args, sa))
    decreases n, 6
  {
    scopes' := SimForce(n, c, scopes, sn, sa);
    var rn, ra := ForceN(n, c, sn), ForceA(n, c, sa);
    if rn.Done? { scopes' := SimCall(n, rn.v, ra.v, args, scopes', rn.s, ra.s); }
  }

  lemma SimCallE(n: nat, en: Named, ea: Bound, env: nat, scopes: Scopes, sn: NState, sa: AState) returns (scopes': Scopes)
    requires n > 0 && en.Call?
    requires Ready(scopes, sn, sa) && env < |scopes| && Bind(en, scopes[env]) == Ok(ea)
    ensures scopes <= scopes' && SameValue(scopes', |sn.cells|, EvalN(n, en, env, sn), EvalA(n, ea, env, sa))
    decreases n, 0
  {
    scopes' := SimEval(n - 1, en.fun, ea.fun, env, scopes, sn, sa);
    var rn, ra := EvalN(n - 1, en.fun, env, sn), EvalA(n - 1, ea.fun, env, sa);
    if rn.Done? {
      ThunksRel(en.args, ea.args, env, scopes', rn.s, ra.s);
      var (cs, sn2) := ThunksN(en.args, env, rn.s);
      var (_, sa2) := ThunksA(ea.args, env, ra.s);
      ValRelGrow(scopes', scopes', |rn.s.cells|, |sn2.cells|, rn.v, ra.v);
      scopes' := SimCall(n - 1, rn.v, ra.v, cs, scopes', sn2, sa2);
    }
  }

  lemma SimAttrs(n: nat, en: Named, ea: Bound, env: nat, scopes: Scopes, sn: NState, sa: AState) returns (scopes': Scopes)
    requires n > 0 && en.Attrs?
    requires Ready(scopes, sn, sa) && env < |scopes| && Bind(en, scopes[env]) == Ok(ea)
    ensures scopes <= scopes' && SameValue(scopes', |sn.cells|, EvalN(n, en, env, sn), EvalA(n, ea, env, sa))
    decreases n, 0
  {
    if en.attrs.recursive {
      scopes' := SimRecAttrs(n - 1, en.attrs, ea.attrs, env, scopes, sn, sa);
    } else {
      scopes' := SimPlainAttrs(n - 1, en.attrs, ea.attrs, env, scopes, sn, sa);
    }
  }

  lemma SimEval(n: nat, en: Named, ea: Bound, env: nat, scopes: Scopes, sn: NState, sa: AState) returns (scopes': Scopes)
    requires Ready(scopes, sn, sa) && env < |scopes| && Bind(en, scopes[env]) == Ok(ea)
    ensures scopes <= scopes' && SameValue(scopes', |sn.cells|, EvalN(n, en, env, sn), EvalA(n, ea, env, sa))
    decreases n, 1
  {
    scopes' := scopes;
    if n > 0 {
      match en
      case Var(_, _) => scopes' := SimVar(n, en, ea, env, scopes, sn, sa);
      case Lit(_) => scopes' := SimList(n, en, ea, env, scopes, sn, sa);
      case InheritFrom(_) => scopes' := SimList(n, en, ea, env, scopes, sn, sa);
      case ListE(_) => scopes' := SimList(n, en, ea, env, scopes, sn, sa);
      case Lambda(_) => scopes' := SimList(n, en, ea, env, scopes, sn, sa);
      case Select(_, _, _) => scopes' := SimSelection(n, en, ea, env, scopes, sn, sa);
      case HasAttr(_, _) => scopes' := SimSelection(n, en, ea, env, scopes, sn, sa);
      case Attrs(_) => scopes' := SimAttrs(n, en, ea, env, scopes, sn, sa);
      case Call(_, _) => scopes' := SimCallE(n, en, ea, env, scopes, sn, sa);
      case Let(_, _, _) => scopes' := SimLet(n, en, ea, env, scopes, sn, sa);
      case With(_, _, _) => scopes' := SimWithE(n, en, ea, env, scopes, sn, sa);
      case If(_, _, _) => scopes' := SimIf(n, en, ea, env, scopes, sn, sa);
      case Assert(_, _) => scopes' := SimAssert(n, en, ea, env, scopes, sn, sa);
      case Not(_) => scopes' := SimBoolOp(n, en, ea, env, scopes, sn, sa);
      case BinBool(_, _, _) => scopes' := SimBoolOp(n, en, ea, env, scopes, sn, sa);
      case Update(_, _) => scopes' := SimUpdate(n, en, ea, env, scopes, sn, sa);
      case ConcatLists(_, _) => scopes' := SimConcat(n, en, ea, env, scopes, sn, sa);
    }
  }
}

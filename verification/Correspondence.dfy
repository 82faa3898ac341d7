/** When a by-name state and an addressed state are the same machine state, and how the
    steps that fill environments keep it so. */
module Correspondence {
  import opened Wrappers
  import opened SortedAttrs
  import opened Syntax
  import opened Scope
  import opened Machine
  import opened NamedEval
  import opened AddressedEval
  import opened Observation

  // `scopes[i]` is the static environment that run-time environment i was built for.
  type Scopes = seq<StaticEnv>

  ghost predicate FrameRel(scopes: Scopes, i: nat, fn: NFrame, fa: AFrame, cells: nat)
    requires i < |scopes|
  {
    && scopes[i].Env?
    && fn.up == fa.up
    && (fn.up.Some? ==> fn.up.value < i && scopes[fn.up.value] == scopes[i].up)
    && (fn.up.None? ==> scopes[i].up == Empty)
    && (forall d :: 0 <= d < |fa.values| && fa.values[d].Some? ==> fa.values[d].value < cells)
    && match scopes[i].frame
       case Vars(names) =>
         && Distinct(names) && fn.NVars? && |names| == |fa.values|
         && (forall x :: x in fn.vars <==> x in names)
         && (forall d :: 0 <= d < |names| ==> fn.vars[names[d]] == fa.values[d])
       case IsWith(node) =>
         fn.NWith? && node == NodeFor(scopes[i].up) && fa.values == [Some(fn.attrs)]
       case Sources(size) =>
         && fn.NSources? && |fn.cells| == size == |fa.values|
         && (forall d :: 0 <= d < size ==> fa.values[d] == Some(fn.cells[d]))
  }

  ghost predicate ValRel(scopes: Scopes, cells: nat, vn: NValue, va: AValue) {
    match vn
    case Data(c) => va == Data(c)
    case ListV(elems) => va == ListV(elems) && (forall k :: 0 <= k < |elems| ==> elems[k] < cells)
    case AttrsV(attrs) =>
      va == AttrsV(attrs) && Sorted(attrs) && (forall k :: 0 <= k < |attrs| ==> attrs[k].value < cells)
    case Closure(lam, env) =>
      va.Closure? && va.env == env < |scopes| && Bind(Lambda(lam), scopes[env]) == Ok(Lambda(va.lam))
  }

  ghost predicate CellRel(scopes: Scopes, cells: nat, cn: NCell, ca: ACell) {
    match cn
    case Thunk(e, env) => ca.Thunk? && ca.env == env < |scopes| && Bind(e, scopes[env]) == Ok(ca.e)
    case BlackHole => ca.BlackHole?
    case Val(v) => ca.Val? && ValRel(scopes, cells, v, ca.v)
  }

  ghost predicate Rel(scopes: Scopes, sn: NState, sa: AState) {
    && sn.reuse == sa.reuse
    && |scopes| == |sn.envs| == |sa.envs|
    && |sn.cells| == |sa.cells|
    && (forall i :: 0 <= i < |scopes| ==> FrameRel(scopes, i, sn.envs[i], sa.envs[i], |sn.cells|))
    && (forall c :: 0 <= c < |sn.cells| ==> CellRel(scopes, |sn.cells|, sn.cells[c], sa.cells[c]))
  }

  /** Every slot is filled, except that frame `inner` is filled only below `k`. */
  ghost predicate FullBut(sa: AState, inner: nat, k: nat) {
    forall i, d :: 0 <= i < |sa.envs| && 0 <= d < |sa.envs[i].values| && (i == inner ==> d < k) ==>
      sa.envs[i].values[d].Some?
  }

  ghost predicate Full(sa: AState) {
    forall i, d :: 0 <= i < |sa.envs| && 0 <= d < |sa.envs[i].values| ==> sa.envs[i].values[d].Some?
  }

  lemma {:induction false} ClimbUp(scopes: Scopes, sn: NState, sa: AState, env: nat, u: nat, level: nat)
    requires Rel(scopes, sn, sa) && env < |scopes| && sn.envs[env].up == Some(u)
    ensures Climb(sa.envs, env, level + 1) == Climb(sa.envs, u, level)
  {
    assert FrameRel(scopes, env, sn.envs[env], sa.envs[env], |sn.cells|);
  }

  /** Level and displacement lead to the slot that the walk by name finds. */
  lemma {:induction false} FindIsSlot(scopes: Scopes, sn: NState, sa: AState, env: nat, name: Symbol)
    requires Rel(scopes, sn, sa) && env < |scopes|
    ensures match FindLexical(name, scopes[env])
            case None => Find(sn.envs, env, name) == None
            case Some((level, displ)) =>
              && Find(sn.envs, env, name) == Some(Slot(sa.envs, env, level, displ))
              && Climb(sa.envs, env, level).Some?
              && displ < |sa.envs[Climb(sa.envs, env, level).value].values|
  {
    assert FrameRel(scopes, env, sn.envs[env], sa.envs[env], |sn.cells|);
    var frame := scopes[env].frame;
    if frame.Vars? && IndexOf(frame.names, name).Some? {
      var d := IndexOf(frame.names, name).value;
      assert sn.envs[env].vars[frame.names[d]] == sa.envs[env].values[d];
    } else {
      match sn.envs[env].up
      case None =>
      case Some(u) =>
        FindIsSlot(scopes, sn, sa, u, name);
        if FindLexical(name, scopes[u]).Some? {
          var (level, displ) := FindLexical(name, scopes[u]).value;
          ClimbUp(scopes, sn, sa, env, u, level);
        }
    }
  }

  lemma AllocRel(scopes: Scopes, sn: NState, sa: AState, cn: NCell, ca: ACell)
    requires Rel(scopes, sn, sa) && CellRel(scopes, |sn.cells| + 1, cn, ca)
    ensures Rel(scopes, Alloc(cn, sn).1, Alloc(ca, sa).1)
  {
    var sn', sa' := Alloc(cn, sn).1, Alloc(ca, sa).1;
    forall i | 0 <= i < |scopes| ensures FrameRel(scopes, i, sn'.envs[i], sa'.envs[i], |sn'.cells|) {
      assert FrameRel(scopes, i, sn.envs[i], sa.envs[i], |sn.cells|);
    }
    forall c | 0 <= c < |sn'.cells| ensures CellRel(scopes, |sn'.cells|, sn'.cells[c], sa'.cells[c]) {
      if c < |sn.cells| { assert CellRel(scopes, |sn.cells|, sn.cells[c], sa.cells[c]); }
    }
  }

  lemma WriteRel(scopes: Scopes, sn: NState, sa: AState, c: nat, cn: NCell, ca: ACell)
    requires Rel(scopes, sn, sa) && c < |sn.cells| && CellRel(scopes, |sn.cells|, cn, ca)
    ensures Rel(scopes, sn.(cells := sn.cells[c := cn]), sa.(cells := sa.cells[c := ca]))
  {}

  lemma PushRel(scopes: Scopes, sn: NState, sa: AState, scope: StaticEnv, fn: NFrame, fa: AFrame)
    requires Rel(scopes, sn, sa)
    requires FrameRel(scopes + [scope], |scopes|, fn, fa, |sn.cells|)
    ensures Rel(scopes + [scope], PushN(fn, sn).1, Push(fa, sa).1)
  {
    var scopes' := scopes + [scope];
    var sn', sa' := PushN(fn, sn).1, Push(fa, sa).1;
    forall i | 0 <= i < |scopes'| ensures FrameRel(scopes', i, sn'.envs[i], sa'.envs[i], |sn'.cells|) {
      if i < |scopes| { assert FrameRel(scopes, i, sn.envs[i], sa.envs[i], |sn.cells|); }
    }
    forall c | 0 <= c < |sn.cells| ensures CellRel(scopes', |sn.cells|, sn'.cells[c], sa'.cells[c]) {
      assert CellRel(scopes, |sn.cells|, sn.cells[c], sa.cells[c]);
    }
  }

  lemma SetRel(scopes: Scopes, sn: NState, sa: AState, env: nat, displ: nat, c: nat)
    requires Rel(scopes, sn, sa) && env < |scopes| && c < |sn.cells|
    requires scopes[env].Env? && scopes[env].frame.Vars? && displ < |scopes[env].frame.names|
    ensures Rel(scopes, SetVar(env, scopes[env].frame.names[displ], c, sn), SetSlot(env, displ, c, sa))
  {
    var names := scopes[env].frame.names;
    assert FrameRel(scopes, env, sn.envs[env], sa.envs[env], |sn.cells|);
    var sn', sa' := SetVar(env, names[displ], c, sn), SetSlot(env, displ, c, sa);
    forall i | 0 <= i < |scopes| ensures FrameRel(scopes, i, sn'.envs[i], sa'.envs[i], |sn'.cells|) {
      assert FrameRel(scopes, i, sn.envs[i], sa.envs[i], |sn.cells|);
      if i == env {
        forall d | 0 <= d < |names| ensures sn'.envs[i].vars[names[d]] == sa'.envs[i].values[d] {
          assert sn.envs[env].vars[names[d]] == sa.envs[env].values[d];
          if d < displ { assert names[d] != names[displ]; } else if displ < d { assert names[displ] != names[d]; }
        }
      }
    }
  }

  /** Binding keeps the constructors `maybeThunk` looks at. */
  lemma BindKeepsShape(en: Named, ea: Bound, scope: StaticEnv)
    requires Bind(en, scope) == Ok(ea)
    ensures en.Lit? <==> ea.Lit?
    ensures en.Var? <==> ea.Var?
    ensures en.InheritFrom? <==> ea.InheritFrom?
    ensures en.ListE? <==> ea.ListE?
    ensures en.ListE? ==> (en.elems.Nil? <==> ea.elems.Nil?)
  {}

  /** `maybeThunk` picks the same cell, and reuses one exactly when the other does. */
  lemma MaybeThunkRel(en: Named, ea: Bound, env: nat, scopes: Scopes, sn: NState, sa: AState)
    requires Rel(scopes, sn, sa) && env < |scopes| && Bind(en, scopes[env]) == Ok(ea)
    ensures MaybeThunkN(en, env, sn).0 == MaybeThunkA(ea, env, sa).0 < |MaybeThunkN(en, env, sn).1.cells|
    ensures Rel(scopes, MaybeThunkN(en, env, sn).1, MaybeThunkA(ea, env, sa).1)
    ensures |sn.cells| <= |MaybeThunkN(en, env, sn).1.cells|
    ensures MaybeThunkA(ea, env, sa).1.envs == sa.envs
  {
    BindKeepsShape(en, ea, scopes[env]);
    if en.Lit? {
      AllocRel(scopes, sn, sa, Val(Data(en.c)), Val(Data(en.c)));
    } else if en.ListE? && en.elems.Nil? {
      AllocRel(scopes, sn, sa, Val(ListV([])), Val(ListV([])));
    } else {
      AllocRel(scopes, sn, sa, Thunk(en, env), Thunk(ea, env));
      if en.Var? {
        FindIsSlot(scopes, sn, sa, env, en.name);
        SlotInRange(scopes, sn, sa, env, ea.addr);
      } else if en.InheritFrom? {
        SourceIsSlot(en.displ, ea, env, scopes, sn, sa);
      }
    }
  }

  lemma SourceIsSlot(displ: nat, ea: Bound, env: nat, scopes: Scopes, sn: NState, sa: AState)
    requires Rel(scopes, sn, sa) && env < |scopes| && Bind(InheritFrom(displ), scopes[env]) == Ok(ea)
    ensures ea == InheritFrom(displ)
    ensures Source(sn.envs, env, displ) == Slot(sa.envs, env, 0, displ)
    ensures Source(sn.envs, env, displ).Some? && Source(sn.envs, env, displ).value < |sn.cells|
  {
    assert FrameRel(scopes, env, sn.envs[env], sa.envs[env], |sn.cells|);
    assert sa.envs[env].values[displ] == Some(sn.envs[env].cells[displ]);
  }

  lemma SlotInRange(scopes: Scopes, sn: NState, sa: AState, env: nat, addr: Addr)
    requires Rel(scopes, sn, sa)
    ensures addr.Lexical? && Slot(sa.envs, env, addr.level, addr.displ).Some? ==>
              Slot(sa.envs, env, addr.level, addr.displ).value < |sn.cells|
  {
    if addr.Lexical? && Slot(sa.envs, env, addr.level, addr.displ).Some? {
      var f := Climb(sa.envs, env, addr.level).value;
      assert FrameRel(scopes, f, sn.envs[f], sa.envs[f], |sn.cells|);
    }
  }

  ghost predicate CellsIn(cs: seq<nat>, cells: nat) {
    forall k :: 0 <= k < |cs| ==> cs[k] < cells
  }

  ghost predicate AttrsIn(attrs: seq<Attr<nat>>, cells: nat) {
    forall k :: 0 <= k < |attrs| ==> attrs[k].value < cells
  }

  lemma {:induction false} ThunksRel(en: List<Named>, ea: List<Bound>, env: nat, scopes: Scopes, sn: NState, sa: AState)
    requires Rel(scopes, sn, sa) && env < |scopes| && BindList(en, scopes[env]) == Ok(ea)
    ensures ThunksN(en, env, sn).0 == ThunksA(ea, env, sa).0
    ensures |ThunksN(en, env, sn).0| == Length(en) == Length(ea)
    ensures CellsIn(ThunksN(en, env, sn).0, |ThunksN(en, env, sn).1.cells|)
    ensures Rel(scopes, ThunksN(en, env, sn).1, ThunksA(ea, env, sa).1)
    ensures |sn.cells| <= |ThunksN(en, env, sn).1.cells|
    ensures ThunksA(ea, env, sa).1.envs == sa.envs
    decreases en
  {
    if en.Cons? {
      MaybeThunkRel(en.head, ea.head, env, scopes, sn, sa);
      ThunksRel(en.tail, ea.tail, env, scopes, MaybeThunkN(en.head, env, sn).1, MaybeThunkA(ea.head, env, sa).1);
    }
  }

  /** The scopes after the sources' frame has been pushed. */
  ghost function SourceScopes(from: List<Named>, up: nat, scopes: Scopes): Scopes
    requires up < |scopes|
  {
    if from.Nil? then scopes else scopes + [Env(Sources(Length(from)), scopes[up])]
  }

  lemma SourcesRel(fn: List<Named>, fa: List<Bound>, up: nat, scopes: Scopes, sn: NState, sa: AState, inner: nat, k: nat)
    requires Rel(scopes, sn, sa) && up < |scopes| && inner < |scopes|
    requires BindList(fn, scopes[up]) == Ok(fa)
    requires FullBut(sa, inner, k)
    ensures SourcesN(fn, up, sn).0 == SourcesA(fa, up, sa).0 < |SourceScopes(fn, up, scopes)|
    ensures fn.Cons? ==> SourceScope(fn, scopes[up]) == Some(SourceScopes(fn, up, scopes)[SourcesN(fn, up, sn).0])
    ensures Rel(SourceScopes(fn, up, scopes), SourcesN(fn, up, sn).1, SourcesA(fa, up, sa).1)
    ensures FullBut(SourcesA(fa, up, sa).1, inner, k)
    ensures |sn.cells| <= |SourcesN(fn, up, sn).1.cells|
  {
    if fn.Cons? {
      ThunksRel(fn, fa, up, scopes, sn, sa);
      var (cs, sn1) := ThunksN(fn, up, sn);
      var (_, sa1) := ThunksA(fa, up, sa);
      var slots := seq(|cs|, i requires 0 <= i < |cs| => Some(cs[i]));
      PushRel(scopes, sn1, sa1, Env(Sources(Length(fn)), scopes[up]), NSources(Some(up), cs), AFrame(Some(up), slots));
    }
  }

  lemma {:induction false} BindDefsNames(dn: List<AttrDef<(), ()>>, da: List<AttrDef<Addr, WithInfo>>,
                                         inner: StaticEnv, outer: StaticEnv, sources: Option<StaticEnv>)
    requires BindDefs(dn, inner, outer, sources) == Ok(da)
    ensures DefNames(dn) == DefNames(da) && Length(dn) == Length(da) == |DefNames(dn)|
    decreases dn
  {
    if dn.Cons? { BindDefsNames(dn.tail, da.tail, inner, outer, sources); }
  }

  /** One definition is suspended in the same environment on both sides. */
  lemma DefRel(dn: AttrDef<(), ()>, da: AttrDef<Addr, WithInfo>, always: bool, inner: nat, outer: nat, sources: nat,
               hasSources: bool, scopes: Scopes, sn: NState, sa: AState)
    requires Rel(scopes, sn, sa) && inner < |scopes| && outer < |scopes| && sources < |scopes|
    requires BindDefs(Cons(dn, Nil), scopes[inner], scopes[outer], if hasSources then Some(scopes[sources]) else None) == Ok(Cons(da, Nil))
    ensures dn.kind == da.kind && dn.name == da.name
    ensures
      var env := DefEnv(dn.kind, inner, outer, sources);
      var (cn, sn1) := if always && !dn.kind.Inherited? then Alloc(Thunk(dn.e, env), sn) else MaybeThunkN(dn.e, env, sn);
      var (ca, sa1) := if always && !da.kind.Inherited? then Alloc(Thunk(da.e, env), sa) else MaybeThunkA(da.e, env, sa);
      && env == DefEnv(da.kind, inner, outer, sources)
      && cn == ca < |sn1.cells| && Rel(scopes, sn1, sa1) && |sn.cells| <= |sn1.cells| && sa1.envs == sa.envs
  {
    var env := DefEnv(dn.kind, inner, outer, sources);
    assert BindDefs(Nil, scopes[inner], scopes[outer], if hasSources then Some(scopes[sources]) else None) == Ok(Nil);
    MaybeThunkRel(dn.e, da.e, env, scopes, sn, sa);
    AllocRel(scopes, sn, sa, Thunk(dn.e, env), Thunk(da.e, env));
  }

  lemma BindDefsHead(dn: List<AttrDef<(), ()>>, da: List<AttrDef<Addr, WithInfo>>, inner: StaticEnv, outer: StaticEnv, sources: Option<StaticEnv>)
    requires dn.Cons? && BindDefs(dn, inner, outer, sources) == Ok(da)
    ensures da.Cons?
    ensures BindDefs(Cons(dn.head, Nil), inner, outer, sources) == Ok(Cons(da.head, Nil))
    ensures BindDefs(dn.tail, inner, outer, sources) == Ok(da.tail)
  {
    assert BindDefs(Nil, inner, outer, sources) == Ok(Nil);
  }

  lemma SlotFilled(sa: AState, sa1: AState, inner: nat, displ: nat, c: nat)
    requires FullBut(sa, inner, displ) && sa1.envs == sa.envs
    ensures FullBut(SetSlot(inner, displ, c, sa1), inner, displ + 1)
    ensures |SetSlot(inner, displ, c, sa1).envs| == |sa.envs|
  {}

  ghost predicate Filled(scopes: Scopes, names: seq<Symbol>, cells: nat, rn: (seq<Attr<nat>>, NState), ra: (seq<Attr<nat>>, AState)) {
    && rn.0 == ra.0 && Rel(scopes, rn.1, ra.1) && Full(ra.1)
    && cells <= |rn.1.cells| && AttrsIn(rn.0, |rn.1.cells|) && NamesOf(rn.0) == names
  }

  lemma FilledCons(scopes: Scopes, name: Symbol, names: seq<Symbol>, cells: nat, cells1: nat, c: nat,
                   rn: (seq<Attr<nat>>, NState), ra: (seq<Attr<nat>>, AState))
    requires Filled(scopes, names, cells1, rn, ra) && cells <= cells1 && c < cells1
    ensures Filled(scopes, [name] + names, cells, ([Attr(name, c)] + rn.0, rn.1), ([Attr(name, c)] + ra.0, ra.1))
  {
    assert ([Attr(name, c)] + rn.0)[1..] == rn.0;
  }

  /** Filling a `let` or `rec` frame slot by slot is declaring its names one by one. */
  lemma {:induction false} FillRel(dn: List<AttrDef<(), ()>>, da: List<AttrDef<Addr, WithInfo>>, displ: nat, always: bool,
                                   inner: nat, outer: nat, sources: nat, hasSources: bool, scopes: Scopes, sn: NState, sa: AState)
    requires Rel(scopes, sn, sa) && inner < |scopes| && outer < |scopes| && sources < |scopes|
    requires scopes[inner].Env? && scopes[inner].frame.Vars?
    requires displ <= |scopes[inner].frame.names| && DefNames(dn) == scopes[inner].frame.names[displ..]
    requires BindDefs(dn, scopes[inner], scopes[outer], if hasSources then Some(scopes[sources]) else None) == Ok(da)
    requires FullBut(sa, inner, displ)
    ensures Filled(scopes, DefNames(dn), |sn.cells|,
                   DeclareN(dn, always, inner, outer, sources, sn), FillA(da, displ, always, inner, outer, sources, sa))
    decreases dn
  {
    match dn
    case Nil =>
      assert FrameRel(scopes, inner, sn.envs[inner], sa.envs[inner], |sn.cells|);
    case Cons(d, rest) =>
      var names := scopes[inner].frame.names;
      var src := if hasSources then Some(scopes[sources]) else None;
      BindDefsHead(dn, da, scopes[inner], scopes[outer], src);
      DefRel(d, da.head, always, inner, outer, sources, hasSources, scopes, sn, sa);
      var env := DefEnv(d.kind, inner, outer, sources);
      var (c, sn1) := if always && !d.kind.Inherited? then Alloc(Thunk(d.e, env), sn) else MaybeThunkN(d.e, env, sn);
      var (_, sa1) := if always && !da.head.kind.Inherited? then Alloc(Thunk(da.head.e, env), sa) else MaybeThunkA(da.head.e, env, sa);
      assert names[displ] == d.name && DefNames(rest) == names[displ + 1..];
      SetRel(scopes, sn1, sa1, inner, displ, c);
      SlotFilled(sa, sa1, inner, displ, c);
      var sn2, sa2 := SetVar(inner, d.name, c, sn1), SetSlot(inner, displ, c, sa1);
      FillRel(rest, da.tail, displ + 1, always, inner, outer, sources, hasSources, scopes, sn2, sa2);
      FilledCons(scopes, d.name, DefNames(rest), |sn.cells|, |sn1.cells|, c,
                 DeclareN(rest, always, inner, outer, sources, sn2), FillA(da.tail, displ + 1, always, inner, outer, sources, sa2));
  }

  lemma {:induction false} NamesSorted(attrs: seq<Attr<nat>>)
    requires Ascending(NamesOf(attrs))
    ensures Sorted(attrs) && |NamesOf(attrs)| == |attrs|
    ensures forall k :: 0 <= k < |attrs| ==> attrs[k].name == NamesOf(attrs)[k]
  {
    if attrs != [] {
      var names := NamesOf(attrs);
      assert NamesOf(attrs[1..]) == names[1..];
      NamesSorted(attrs[1..]);
      forall k | 0 <= k < |attrs| ensures attrs[k].name == names[k] {
        if k > 0 { assert attrs[k] == attrs[1..][k - 1]; }
      }
    }
  }

  lemma {:induction false} ThunkDefsRel(dn: List<AttrDef<(), ()>>, da: List<AttrDef<Addr, WithInfo>>, env: nat, sources: nat,
                                        hasSources: bool, scopes: Scopes, sn: NState, sa: AState)
    requires Rel(scopes, sn, sa) && env < |scopes| && sources < |scopes|
    requires BindDefs(dn, scopes[env], scopes[env], if hasSources then Some(scopes[sources]) else None) == Ok(da)
    ensures ThunkDefsN(dn, env, sources, sn).0 == ThunkDefsA(da, env, sources, sa).0
    ensures Rel(scopes, ThunkDefsN(dn, env, sources, sn).1, ThunkDefsA(da, env, sources, sa).1)
    ensures ThunkDefsA(da, env, sources, sa).1.envs == sa.envs
    ensures |sn.cells| <= |ThunkDefsN(dn, env, sources, sn).1.cells|
    ensures AttrsIn(ThunkDefsN(dn, env, sources, sn).0, |ThunkDefsN(dn, env, sources, sn).1.cells|)
    ensures NamesOf(ThunkDefsN(dn, env, sources, sn).0) == DefNames(dn)
    decreases dn
  {
    if dn.Cons? {
      var src := if hasSources then Some(scopes[sources]) else None;
      BindDefsHead(dn, da, scopes[env], scopes[env], src);
      DefRel(dn.head, da.head, false, env, env, sources, hasSources, scopes, sn, sa);
      var target := DefEnv(dn.head.kind, env, env, sources);
      ThunkDefsRel(dn.tail, da.tail, env, sources, hasSources, scopes,
                   MaybeThunkN(dn.head.e, target, sn).1, MaybeThunkA(da.head.e, target, sa).1);
    }
  }

  /** Writing the overrides' slots by index is letting every overridden name denote its override. */
  lemma {:induction false} OverrideRel(over: seq<Attr<nat>>, env: nat, scopes: Scopes, sn: NState, sa: AState)
    requires Rel(scopes, sn, sa) && Full(sa) && env < |scopes|
    requires scopes[env].Env? && scopes[env].frame.Vars?
    requires Sorted(over) && AttrsIn(over, |sn.cells|)
    ensures
      var sn', sa' := OverrideN(over, env, sn), OverrideSlotsA(scopes[env].frame.names, over, env, sa);
      Rel(scopes, sn', sa') && Full(sa') && sn'.cells == sn.cells
    decreases |over|
  {
    var names := scopes[env].frame.names;
    assert FrameRel(scopes, env, sn.envs[env], sa.envs[env], |sn.cells|);
    if over == [] {
      assert (map x | x in sn.envs[env].vars :: if Get(over, x).Some? then Get(over, x) else sn.envs[env].vars[x]) == sn.envs[env].vars;
      assert OverrideN(over, env, sn) == sn;
    } else {
      var sn1 := if over[0].name in names then SetVar(env, over[0].name, over[0].value, sn) else sn;
      OverrideHead(over, env, names, sn, sn1);
      match IndexOf(names, over[0].name) {
        case None => OverrideRel(over[1..], env, scopes, sn, sa);
        case Some(d) =>
          SetRel(scopes, sn, sa, env, d, over[0].value);
          OverrideRel(over[1..], env, scopes, sn1, SetSlot(env, d, over[0].value, sa));
      }
    }
  }

  lemma OverrideHead(over: seq<Attr<nat>>, env: nat, names: seq<Symbol>, sn: NState, sn1: NState)
    requires env < |sn.envs| && sn.envs[env].NVars? && Sorted(over) && over != []
    requires forall x :: x in sn.envs[env].vars <==> x in names
    requires sn1 == if over[0].name in names then SetVar(env, over[0].name, over[0].value, sn) else sn
    ensures OverrideN(over, env, sn) == OverrideN(over[1..], env, sn1)
  {
    GetBelow(over[1..], over[0].name);
    assert OverrideN(over, env, sn).envs[env].vars == OverrideN(over[1..], env, sn1).envs[env].vars;
    assert OverrideN(over, env, sn).envs == OverrideN(over[1..], env, sn1).envs;
  }

  function CountUsed(names: seq<Symbol>, args: seq<Attr<nat>>): nat {
    if names == [] then 0 else (if Get(args, names[0]).Some? then 1 else 0) + CountUsed(names[1..], args)
  }

  function UsedNames(names: seq<Symbol>, args: seq<Attr<nat>>): set<Symbol> {
    set x | x in names && Get(args, x).Some?
  }

  function NameSet(args: seq<Attr<nat>>): set<Symbol> {
    if args == [] then {} else {args[0].name} + NameSet(args[1..])
  }

  lemma {:induction false} CountUsedIsCard(names: seq<Symbol>, args: seq<Attr<nat>>)
    requires Distinct(names)
    ensures CountUsed(names, args) == |UsedNames(names, args)|
  {
    if names == [] {
      assert UsedNames(names, args) == {};
    } else {
      CountUsedIsCard(names[1..], args);
      assert names[0] !in names[1..];
      assert UsedNames(names, args) == (if Get(args, names[0]).Some? then {names[0]} else {}) + UsedNames(names[1..], args);
    }
  }

  lemma {:induction false} NamesCard(args: seq<Attr<nat>>)
    requires Sorted(args)
    ensures |NameSet(args)| == |args|
    ensures forall x :: x in NameSet(args) <==> Get(args, x).Some?
  {
    if args != [] {
      NamesCard(args[1..]);
      GetBelow(args[1..], args[0].name);
      assert args[0].name !in NameSet(args[1..]);
    }
  }

  lemma {:induction false} FirstUnexpectedIff(args: seq<Attr<nat>>, names: seq<Symbol>)
    ensures FirstUnexpected(args, names).None? <==> forall x :: x in NameSet(args) ==> x in names
  {
    if args != [] { FirstUnexpectedIff(args[1..], names); }
  }

  /** Counting the arguments used decides whether one is unexpected, so the search after a
      mismatch always finds one. */
  lemma CountDecides(names: seq<Symbol>, args: seq<Attr<nat>>)
    requires Distinct(names) && Sorted(args)
    ensures CountUsed(names, args) == |args| <==> FirstUnexpected(args, names).None?
  {
    CountUsedIsCard(names, args);
    NamesCard(args);
    FirstUnexpectedIff(args, names);
    var used, all := UsedNames(names, args), NameSet(args);
    assert used <= all;
    if |used| == |all| {
      SubsetSameSize(used, all);
    }
    if FirstUnexpected(args, names).None? {
      assert used == all;
    }
  }

  lemma SubsetSameSize(a: set<Symbol>, b: set<Symbol>)
    requires a <= b && |a| == |b|
    ensures a == b
  {
    assert b == a + (b - a);
    assert |b - a| == 0;
  }

  ghost predicate FormalsDone(scopes: Scopes, cells: nat, used: nat, rn: Out<(), NState>, ra: Out<nat, AState>) {
    match rn
    case OutOfFuel => ra.OutOfFuel?
    case Raised(err) => ra == Raised(err) && err != Stuck
    case Done(_, s) => ra.Done? && ra.v == used && Rel(scopes, s, ra.s) && Full(ra.s) && cells <= |s.cells|
  }

  lemma {:induction false} FormalsRel(fn: List<Formal<(), ()>>, fa: List<Formal<Addr, WithInfo>>, displ: nat, args: seq<Attr<nat>>,
                                      env: nat, scopes: Scopes, sn: NState, sa: AState)
    requires Rel(scopes, sn, sa) && env < |scopes| && scopes[env].Env? && scopes[env].frame.Vars?
    requires displ <= |scopes[env].frame.names| && FormalNames(fn) == scopes[env].frame.names[displ..]
    requires BindFormals(fn, scopes[env]) == Ok(fa)
    requires FullBut(sa, env, displ) && AttrsIn(args, |sn.cells|)
    ensures FormalsDone(scopes, |sn.cells|, CountUsed(FormalNames(fn), args), FormalsN(fn, args, env, sn), FormalsA(fa, displ, args, env, sa))
    decreases fn
  {
    match fn
    case Nil =>
      assert FrameRel(scopes, env, sn.envs[env], sa.envs[env], |sn.cells|);
    case Cons(f, rest) =>
      var names := scopes[env].frame.names;
      assert names[displ] == f.name && FormalNames(rest) == names[displ + 1..];
      assert FormalNames(fn)[1..] == FormalNames(rest);
      match Get(args, f.name) {
        case Some(c) =>
          GetIn(args, f.name, |sn.cells|);
          SetRel(scopes, sn, sa, env, displ, c);
          SlotFilled(sa, sa, env, displ, c);
          FormalsRel(rest, fa.tail, displ + 1, args, env, scopes, SetVar(env, f.name, c, sn), SetSlot(env, displ, c, sa));
        case None =>
          if f.def.Some? {
            MaybeThunkRel(f.def.value, fa.head.def.value, env, scopes, sn, sa);
            var (c, sn1) := MaybeThunkN(f.def.value, env, sn);
            var (_, sa1) := MaybeThunkA(fa.head.def.value, env, sa);
            SetRel(scopes, sn1, sa1, env, displ, c);
            SlotFilled(sa, sa1, env, displ, c);
            FormalsRel(rest, fa.tail, displ + 1, args, env, scopes, SetVar(env, f.name, c, sn1), SetSlot(env, displ, c, sa1));
          }
      }
  }

  lemma {:induction false} GetIn(attrs: seq<Attr<nat>>, name: Symbol, cells: nat)
    requires AttrsIn(attrs, cells)
    ensures Get(attrs, name).Some? ==> Get(attrs, name).value < cells
  {
    if attrs != [] {
      assert AttrsIn(attrs[1..], cells);
      GetIn(attrs[1..], name, cells);
    }
  }
}

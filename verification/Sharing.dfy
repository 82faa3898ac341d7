/** Two runs of the addressed evaluator: a plain one that suspends every expression, and one
    whose `maybeThunk` hands out environment slots and constants. This module says when their
    states correspond and shows that the steps that build environments keep it so. */
module Sharing {
  import opened Wrappers
  import opened SortedAttrs
  import opened Syntax
  import opened Scope
  import opened Machine
  import opened AddressedEval

  // ---- code without `rec { __overrides = ...; }` ----

  predicate Clean(e: Bound)
    decreases e
  {
    match e
    case Lit(_) => true
    case Var(_, _) => true
    case InheritFrom(_) => true
    case Select(e1, path, def) => Clean(e1) && CleanPath(path) && CleanOption(def)
    case HasAttr(e1, path) => Clean(e1) && CleanPath(path)
    case Attrs(s) => CleanSet(s)
    case ListE(elems) => CleanList(elems)
    case Lambda(lam) => CleanLam(lam)
    case Call(fun, args) => Clean(fun) && CleanList(args)
    case Let(defs, from, body) => CleanDefs(defs) && CleanList(from) && Clean(body)
    case With(_, scope, body) => Clean(scope) && Clean(body)
    case If(cond, thn, els) => Clean(cond) && Clean(thn) && Clean(els)
    case Assert(cond, body) => Clean(cond) && Clean(body)
    case Not(e1) => Clean(e1)
    case BinBool(_, e1, e2) => Clean(e1) && Clean(e2)
    case Update(e1, e2) => Clean(e1) && Clean(e2)
    case ConcatLists(e1, e2) => Clean(e1) && Clean(e2)
  }

  predicate CleanSet(s: AttrSet<Addr, WithInfo>)
    decreases s
  {
    && (s.recursive ==> IndexOf(DefNames(s.defs), OVERRIDES).None?)
    && CleanDefs(s.defs) && CleanList(s.from) && CleanDyn(s.dyn)
  }

  predicate CleanOption(e: Option<Bound>)
    decreases e
  {
    e.Some? ==> Clean(e.value)
  }

  predicate CleanList(es: List<Bound>)
    decreases es
  {
    es.Cons? ==> Clean(es.head) && CleanList(es.tail)
  }

  predicate CleanPath(path: List<AttrName<Addr, WithInfo>>)
    decreases path
  {
    path.Cons? ==> (path.head.Dynamic? ==> Clean(path.head.e)) && CleanPath(path.tail)
  }

  predicate CleanDefs(defs: List<AttrDef<Addr, WithInfo>>)
    decreases defs
  {
    defs.Cons? ==> Clean(defs.head.e) && CleanDefs(defs.tail)
  }

  predicate CleanDyn(dyn: List<DynAttr<Addr, WithInfo>>)
    decreases dyn
  {
    dyn.Cons? ==> Clean(dyn.head.nameE) && Clean(dyn.head.valueE) && CleanDyn(dyn.tail)
  }

  predicate CleanLam(lam: Lam<Addr, WithInfo>)
    decreases lam
  {
    Clean(lam.body) && (lam.Pattern? ==> CleanFormals(lam.formals))
  }

  predicate CleanFormals(formals: List<Formal<Addr, WithInfo>>)
    decreases formals
  {
    formals.Cons? ==> CleanOption(formals.head.def) && CleanFormals(formals.tail)
  }

  // ---- corresponding states ----

  // `rho` sends each cell of the plain run to the cell that does its duty in the sharing run;
  // `root` sends each cell of the sharing run to the one it was allocated together with.
  datatype Link = Link(rho: seq<nat>, root: seq<nat>)

  ghost predicate Extends(k: Link, k': Link) {
    k.rho <= k'.rho && k.root <= k'.root
  }

  ghost predicate CellsRel(rho: seq<nat>, cs: seq<nat>, ds: seq<nat>) {
    |cs| == |ds| && forall i :: 0 <= i < |cs| ==> cs[i] < |rho| && ds[i] == rho[cs[i]]
  }

  ghost predicate AttrsRel(rho: seq<nat>, xs: seq<Attr<nat>>, ys: seq<Attr<nat>>) {
    |xs| == |ys| && forall i :: 0 <= i < |xs| ==> xs[i].value < |rho| && ys[i] == Attr(xs[i].name, rho[xs[i].value])
  }

  ghost predicate ValRel(rho: seq<nat>, v: AValue, w: AValue) {
    match v
    case Data(c) => w == Data(c)
    case ListV(elems) => w.ListV? && CellsRel(rho, elems, w.elems)
    case AttrsV(attrs) => w.AttrsV? && AttrsRel(rho, attrs, w.attrs)
    case Closure(lam, env) => w == Closure(lam, env) && CleanLam(lam)
  }

  ghost predicate SlotRel(rho: seq<nat>, x: Option<nat>, y: Option<nat>) {
    match x
    case None => y.None?
    case Some(c) => c < |rho| && y == Some(rho[c])
  }

  ghost predicate FrameRel(rho: seq<nat>, f: AFrame, g: AFrame) {
    f.up == g.up && |f.values| == |g.values| && forall d :: 0 <= d < |f.values| ==> SlotRel(rho, f.values[d], g.values[d])
  }

  ghost predicate EnvsRel(rho: seq<nat>, fs: seq<AFrame>, gs: seq<AFrame>) {
    |fs| == |gs| && forall i :: 0 <= i < |fs| ==> FrameRel(rho, fs[i], gs[i])
  }

  /** The slot that `maybeThunk` would hand out for `e`. */
  function Shared(e: Bound, env: nat, envs: seq<AFrame>): Option<nat> {
    match e
    case Var(_, Lexical(level, displ)) => Slot(envs, env, level, displ)
    case InheritFrom(displ) => Slot(envs, env, 0, displ)
    case _ => None
  }

  /** A constant that `maybeThunk` evaluates at once. */
  function Constant(e: Bound): Option<AValue> {
    match e
    case Lit(c) => Some(Data(c))
    case ListE(Nil) => Some(ListV([]))
    case _ => None
  }

  /** Cell `a` of the plain run, with content `c`, against the content `d` of its image. */
  ghost predicate CellRel(k: Link, envs: seq<AFrame>, a: nat, c: ACell, d: ACell)
    requires a < |k.rho|
  {
    match c
    case Val(v) => d.Val? && ValRel(k.rho, v, d.v)
    case BlackHole => d.BlackHole?
    case Thunk(e, env) =>
      && Clean(e)
      && (// suspended on both sides
          || (d == c && k.rho[a] < |k.root| && k.root[k.rho[a]] == a)
          // suspended here, the slot itself there
          || IsAlias(k, envs, a, e, env)
          // suspended here, a constant there
          || (Constant(e).Some? && d == Val(Constant(e).value)))
  }

  ghost predicate IsAlias(k: Link, envs: seq<AFrame>, a: nat, e: Bound, env: nat)
    requires a < |k.rho|
  {
    var slot := Shared(e, env, envs);
    slot.Some? && slot.value < a && k.rho[slot.value] == k.rho[a]
  }

  /** The states correspond, except for the cells in `pending`. */
  ghost predicate Rel(k: Link, t: AState, s: AState, pending: set<nat>) {
    && !t.reuse && s.reuse
    && |k.rho| == |t.cells| && |k.root| == |s.cells|
    && (forall a :: 0 <= a < |k.rho| ==> k.rho[a] < |s.cells|)
    && (forall x :: 0 <= x < |k.root| ==> k.root[x] < |t.cells| && k.rho[k.root[x]] == x)
    && EnvsRel(k.rho, t.envs, s.envs)
    && (forall a {:trigger t.cells[a]} :: 0 <= a < |t.cells| && a !in pending ==> CellRel(k, t.envs, a, t.cells[a], s.cells[k.rho[a]]))
  }

  // ---- what a plain run leaves as it was ----

  function Holes(t: AState): set<nat> {
    set a: nat | a < |t.cells| && t.cells[a].BlackHole?
  }

  ghost predicate FrameGrows(f: AFrame, g: AFrame) {
    f.up == g.up && |f.values| == |g.values| && forall d :: 0 <= d < |f.values| && f.values[d].Some? ==> g.values[d] == f.values[d]
  }

  ghost predicate EnvsGrow(fs: seq<AFrame>, gs: seq<AFrame>) {
    |fs| <= |gs| && forall i :: 0 <= i < |fs| ==> FrameGrows(fs[i], gs[i])
  }

  /** No cell or environment is lost, no slot rewritten, and the same cells are black holes. */
  ghost predicate Later(t: AState, t': AState) {
    |t.cells| <= |t'.cells| && EnvsGrow(t.envs, t'.envs) && Holes(t') == Holes(t)
  }

  lemma LaterTwice(t: AState, t': AState, t'': AState)
    requires Later(t, t') && Later(t', t'')
    ensures Later(t, t'')
  {
    forall i | 0 <= i < |t.envs| ensures FrameGrows(t.envs[i], t''.envs[i]) {
      assert FrameGrows(t.envs[i], t'.envs[i]) && FrameGrows(t'.envs[i], t''.envs[i]);
    }
  }

  lemma {:induction false} ClimbGrows(fs: seq<AFrame>, gs: seq<AFrame>, env: nat, level: nat)
    requires EnvsGrow(fs, gs)
    ensures Climb(fs, env, level).Some? ==> Climb(gs, env, level) == Climb(fs, env, level)
    decreases level
  {
    if env < |fs| && level > 0 && fs[env].up.Some? {
      assert FrameGrows(fs[env], gs[env]);
      ClimbGrows(fs, gs, fs[env].up.value, level - 1);
    }
  }

  lemma SharedGrows(e: Bound, env: nat, fs: seq<AFrame>, gs: seq<AFrame>)
    requires EnvsGrow(fs, gs) && Shared(e, env, fs).Some?
    ensures Shared(e, env, gs) == Shared(e, env, fs)
  {
    var level := if e.Var? then e.addr.level else 0;
    ClimbGrows(fs, gs, env, level);
    var f := Climb(fs, env, level).value;
    assert FrameGrows(fs[f], gs[f]);
  }

  lemma ValGrows(rho: seq<nat>, rho': seq<nat>, v: AValue, w: AValue)
    requires ValRel(rho, v, w) && rho <= rho'
    ensures ValRel(rho', v, w)
  {}

  lemma CellGrows(k: Link, k': Link, fs: seq<AFrame>, gs: seq<AFrame>, a: nat, c: ACell, d: ACell)
    requires a < |k.rho| && CellRel(k, fs, a, c, d) && Extends(k, k') && EnvsGrow(fs, gs)
    ensures CellRel(k', gs, a, c, d)
  {
    match c
    case Val(v) => ValGrows(k.rho, k'.rho, v, d.v);
    case BlackHole =>
    case Thunk(e, env) =>
      if IsAlias(k, fs, a, e, env) { SharedGrows(e, env, fs, gs); }
  }

  lemma EnvsRelGrows(rho: seq<nat>, rho': seq<nat>, fs: seq<AFrame>, gs: seq<AFrame>)
    requires EnvsRel(rho, fs, gs) && rho <= rho'
    ensures EnvsRel(rho', fs, gs)
  {
    forall i | 0 <= i < |fs| ensures FrameRel(rho', fs[i], gs[i]) {
      assert FrameRel(rho, fs[i], gs[i]);
      forall d | 0 <= d < |fs[i].values| ensures SlotRel(rho', fs[i].values[d], gs[i].values[d]) {
        assert SlotRel(rho, fs[i].values[d], gs[i].values[d]);
      }
    }
  }

  lemma EnvsSame(fs: seq<AFrame>)
    ensures EnvsGrow(fs, fs)
  {
    forall i | 0 <= i < |fs| ensures FrameGrows(fs[i], fs[i]) {}
  }

  lemma {:induction false} ClimbSame(rho: seq<nat>, fs: seq<AFrame>, gs: seq<AFrame>, env: nat, level: nat)
    requires EnvsRel(rho, fs, gs)
    ensures Climb(fs, env, level) == Climb(gs, env, level)
    decreases level
  {
    if env < |fs| && level > 0 {
      assert FrameRel(rho, fs[env], gs[env]);
      if fs[env].up.Some? { ClimbSame(rho, fs, gs, fs[env].up.value, level - 1); }
    }
  }

  lemma SlotSame(rho: seq<nat>, fs: seq<AFrame>, gs: seq<AFrame>, env: nat, level: nat, displ: nat)
    requires EnvsRel(rho, fs, gs)
    ensures SlotRel(rho, Slot(fs, env, level, displ), Slot(gs, env, level, displ))
  {
    ClimbSame(rho, fs, gs, env, level);
    if Climb(fs, env, level).Some? {
      var f := Climb(fs, env, level).value;
      assert FrameRel(rho, fs[f], gs[f]);
      if displ < |fs[f].values| { assert SlotRel(rho, fs[f].values[displ], gs[f].values[displ]); }
    }
  }

  // ---- steps ----

  /** What corresponding steps that cannot fail leave behind. */
  ghost predicate Stepped(k: Link, k': Link, t: AState, t': AState, s': AState) {
    Extends(k, k') && Rel(k', t', s', {}) && Later(t, t')
  }

  lemma HolesOfAlloc(t: AState, c: ACell)
    requires !c.BlackHole?
    ensures Holes(Alloc(c, t).1) == Holes(t)
  {
    var t' := Alloc(c, t).1;
    assert forall a: nat :: a < |t.cells| ==> t'.cells[a] == t.cells[a];
  }

  /** Both runs allocate a cell. */
  lemma AllocBoth(k: Link, t: AState, s: AState, c: ACell, d: ACell) returns (k': Link)
    requires Rel(k, t, s, {}) && !c.BlackHole?
    requires CellRel(Link(k.rho + [|s.cells|], k.root + [|t.cells|]), t.envs, |t.cells|, c, d)
    ensures k' == Link(k.rho + [|s.cells|], k.root + [|t.cells|])
    ensures Stepped(k, k', t, Alloc(c, t).1, Alloc(d, s).1)
    ensures k'.rho[|t.cells|] == |s.cells|
  {
    k' := Link(k.rho + [|s.cells|], k.root + [|t.cells|]);
    var t', s' := Alloc(c, t).1, Alloc(d, s).1;
    EnvsSame(t.envs);
    EnvsRelGrows(k.rho, k'.rho, t.envs, s.envs);
    HolesOfAlloc(t, c);
    forall a | 0 <= a < |t'.cells| ensures CellRel(k', t'.envs, a, t'.cells[a], s'.cells[k'.rho[a]]) {
      if a < |t.cells| { CellGrows(k, k', t.envs, t.envs, a, t.cells[a], s.cells[k.rho[a]]); }
    }
  }

  /** The plain run suspends what the sharing run takes from slot `x`. */
  lemma AllocAlias(k: Link, t: AState, s: AState, e: Bound, env: nat) returns (k': Link)
    requires Rel(k, t, s, {}) && Clean(e) && Shared(e, env, t.envs).Some? && Shared(e, env, t.envs).value < |t.cells|
    ensures k' == Link(k.rho + [k.rho[Shared(e, env, t.envs).value]], k.root)
    ensures Stepped(k, k', t, Alloc(Thunk(e, env), t).1, s)
  {
    k' := Link(k.rho + [k.rho[Shared(e, env, t.envs).value]], k.root);
    var t' := Alloc(Thunk(e, env), t).1;
    EnvsSame(t.envs);
    EnvsRelGrows(k.rho, k'.rho, t.envs, s.envs);
    HolesOfAlloc(t, Thunk(e, env));
    forall a | 0 <= a < |t'.cells| ensures CellRel(k', t'.envs, a, t'.cells[a], s.cells[k'.rho[a]]) {
      if a < |t.cells| { CellGrows(k, k', t.envs, t.envs, a, t.cells[a], s.cells[k.rho[a]]); }
    }
  }

  /** One `maybeThunk` in both runs. */
  lemma MaybeThunks(e: Bound, env: nat, k: Link, t: AState, s: AState) returns (k': Link)
    requires Rel(k, t, s, {}) && Clean(e)
    ensures
      var (c, t') := MaybeThunkA(e, env, t);
      var (d, s') := MaybeThunkA(e, env, s);
      && Stepped(k, k', t, t', s') && t'.envs == t.envs && s'.envs == s.envs
      && c < |k'.rho| && d == k'.rho[c]
  {
    var (c, t') := MaybeThunkA(e, env, t);
    var (d, s') := MaybeThunkA(e, env, s);
    if Constant(e).Some? {
      k' := AllocBoth(k, t, s, Thunk(e, env), Val(Constant(e).value));
    } else {
      SharedRel(e, env, k, t, s);
      if Shared(e, env, s.envs).Some? {
        k' := AllocAlias(k, t, s, e, env);
      } else {
        k' := AllocBoth(k, t, s, Thunk(e, env), Thunk(e, env));
      }
    }
  }

  lemma SharedRel(e: Bound, env: nat, k: Link, t: AState, s: AState)
    requires Rel(k, t, s, {})
    ensures SlotRel(k.rho, Shared(e, env, t.envs), Shared(e, env, s.envs))
  {
    match e
    case Var(_, Lexical(level, displ)) => SlotSame(k.rho, t.envs, s.envs, env, level, displ);
    case InheritFrom(displ) => SlotSame(k.rho, t.envs, s.envs, env, 0, displ);
    case _ =>
  }

  /** Both runs push a frame. */
  lemma PushBoth(k: Link, t: AState, s: AState, f: AFrame, g: AFrame)
    requires Rel(k, t, s, {}) && FrameRel(k.rho, f, g)
    ensures Stepped(k, k, t, Push(f, t).1, Push(g, s).1)
    ensures Push(f, t).0 == Push(g, s).0
  {
    var t', s' := Push(f, t).1, Push(g, s).1;
    forall i | 0 <= i < |t'.envs| ensures FrameRel(k.rho, t'.envs[i], s'.envs[i]) {
      if i < |t.envs| { assert FrameRel(k.rho, t.envs[i], s.envs[i]); }
    }
    forall i | 0 <= i < |t.envs| ensures FrameGrows(t.envs[i], t'.envs[i]) {}
    assert Holes(t') == Holes(t);
    forall a | 0 <= a < |t.cells| ensures CellRel(k, t'.envs, a, t'.cells[a], s'.cells[k.rho[a]]) {
      CellGrows(k, k, t.envs, t'.envs, a, t.cells[a], s.cells[k.rho[a]]);
    }
  }

  /** Both runs fill an empty slot. */
  lemma SetBoth(k: Link, t: AState, s: AState, env: nat, displ: nat, c: nat)
    requires Rel(k, t, s, {}) && c < |k.rho|
    requires env < |t.envs| && displ < |t.envs[env].values| ==> t.envs[env].values[displ].None?
    ensures Stepped(k, k, t, SetSlot(env, displ, c, t), SetSlot(env, displ, k.rho[c], s))
  {
    var t', s' := SetSlot(env, displ, c, t), SetSlot(env, displ, k.rho[c], s);
    if env < |t.envs| { assert FrameRel(k.rho, t.envs[env], s.envs[env]); }
    forall i | 0 <= i < |t'.envs| ensures FrameRel(k.rho, t'.envs[i], s'.envs[i]) {
      assert FrameRel(k.rho, t.envs[i], s.envs[i]);
      forall d | 0 <= d < |t'.envs[i].values| ensures SlotRel(k.rho, t'.envs[i].values[d], s'.envs[i].values[d]) {
        assert SlotRel(k.rho, t.envs[i].values[d], s.envs[i].values[d]);
      }
    }
    forall i | 0 <= i < |t.envs| ensures FrameGrows(t.envs[i], t'.envs[i]) {}
    assert Holes(t') == Holes(t);
    forall a | 0 <= a < |t.cells| ensures CellRel(k, t'.envs, a, t'.cells[a], s'.cells[k.rho[a]]) {
      CellGrows(k, k, t.envs, t'.envs, a, t.cells[a], s.cells[k.rho[a]]);
    }
  }

  lemma SteppedTwice(k: Link, k1: Link, k2: Link, t: AState, t1: AState, t2: AState, s1: AState, s2: AState)
    requires Stepped(k, k1, t, t1, s1) && Stepped(k1, k2, t1, t2, s2)
    ensures Stepped(k, k2, t, t2, s2)
  {
    LaterTwice(t, t1, t2);
  }

  lemma SteppedNot(k: Link, t: AState, s: AState)
    requires Rel(k, t, s, {})
    ensures Stepped(k, k, t, t, s)
  {
    EnvsSame(t.envs);
  }

  lemma {:induction false} ThunksBoth(es: List<Bound>, env: nat, k: Link, t: AState, s: AState) returns (k': Link)
    requires Rel(k, t, s, {}) && CleanList(es)
    ensures
      var (cs, t') := ThunksA(es, env, t);
      var (ds, s') := ThunksA(es, env, s);
      Stepped(k, k', t, t', s') && t'.envs == t.envs && s'.envs == s.envs && CellsRel(k'.rho, cs, ds)
    decreases es
  {
    match es
    case Nil =>
      SteppedNot(k, t, s);
      k' := k;
    case Cons(e, rest) =>
      var k1 := MaybeThunks(e, env, k, t, s);
      var t1, s1 := MaybeThunkA(e, env, t).1, MaybeThunkA(e, env, s).1;
      k' := ThunksBoth(rest, env, k1, t1, s1);
      SteppedTwice(k, k1, k', t, t1, ThunksA(rest, env, t1).1, s1, ThunksA(rest, env, s1).1);
  }

  /** The sources of `inherit (src)`; environments that existed stay as they were. */
  lemma SourcesBoth(from: List<Bound>, up: nat, k: Link, t: AState, s: AState) returns (k': Link)
    requires Rel(k, t, s, {}) && CleanList(from)
    ensures
      var (i, t') := SourcesA(from, up, t);
      var (j, s') := SourcesA(from, up, s);
      i == j && Stepped(k, k', t, t', s') && t.envs <= t'.envs
  {
    if from.Nil? {
      SteppedNot(k, t, s);
      k' := k;
    } else {
      k' := ThunksBoth(from, up, k, t, s);
      var (cs, t1) := ThunksA(from, up, t);
      var (ds, s1) := ThunksA(from, up, s);
      var f := AFrame(Some(up), seq(|cs|, i requires 0 <= i < |cs| => Some(cs[i])));
      var g := AFrame(Some(up), seq(|ds|, i requires 0 <= i < |ds| => Some(ds[i])));
      PushBoth(k', t1, s1, f, g);
      SteppedTwice(k, k', k', t, t1, Push(f, t1).1, s1, Push(g, s1).1);
    }
  }

  /** The slots of frame `env` from `displ` on have not been filled. */
  ghost predicate EmptyFrom(t: AState, env: nat, displ: nat) {
    env < |t.envs| ==> forall d :: displ <= d < |t.envs[env].values| ==> t.envs[env].values[d].None?
  }

  lemma AttrsCons(rho: seq<nat>, rho': seq<nat>, name: Symbol, c: nat, xs: seq<Attr<nat>>, ys: seq<Attr<nat>>)
    requires c < |rho| && rho <= rho' && AttrsRel(rho', xs, ys)
    ensures AttrsRel(rho', [Attr(name, c)] + xs, [Attr(name, rho[c])] + ys)
  {}

  /** One slot filled by `maybeThunk` in both runs. */
  lemma FillSlot(e: Bound, env: nat, inner: nat, displ: nat, k: Link, t: AState, s: AState) returns (k': Link)
    requires Rel(k, t, s, {}) && Clean(e) && EmptyFrom(t, inner, displ)
    ensures
      var (c, t1) := MaybeThunkA(e, env, t);
      var (d, s1) := MaybeThunkA(e, env, s);
      && c < |k'.rho| && d == k'.rho[c]
      && Stepped(k, k', t, SetSlot(inner, displ, c, t1), SetSlot(inner, displ, d, s1))
      && EmptyFrom(SetSlot(inner, displ, c, t1), inner, displ + 1)
  {
    k' := MaybeThunks(e, env, k, t, s);
    var (c, t1) := MaybeThunkA(e, env, t);
    var (d, s1) := MaybeThunkA(e, env, s);
    SetBoth(k', t1, s1, inner, displ, c);
    SteppedTwice(k, k', k', t, t1, SetSlot(inner, displ, c, t1), s1, SetSlot(inner, displ, d, s1));
  }

  /** Filling the slots of a `let` or `rec` frame without `__overrides`. */
  lemma {:induction false} FillBoth(defs: List<AttrDef<Addr, WithInfo>>, displ: nat, inner: nat, outer: nat, sources: nat,
                                    k: Link, t: AState, s: AState)
    returns (k': Link)
    requires Rel(k, t, s, {}) && CleanDefs(defs) && EmptyFrom(t, inner, displ)
    ensures
      var (xs, t') := FillA(defs, displ, false, inner, outer, sources, t);
      var (ys, s') := FillA(defs, displ, false, inner, outer, sources, s);
      Stepped(k, k', t, t', s') && AttrsRel(k'.rho, xs, ys)
    decreases defs
  {
    match defs
    case Nil =>
      SteppedNot(k, t, s);
      k' := k;
    case Cons(d, rest) =>
      var env := DefEnv(d.kind, inner, outer, sources);
      var k1 := FillSlot(d.e, env, inner, displ, k, t, s);
      var (c, t1) := MaybeThunkA(d.e, env, t);
      var t2, s2 := SetSlot(inner, displ, c, t1), SetSlot(inner, displ, k1.rho[c], MaybeThunkA(d.e, env, s).1);
      k' := FillBoth(rest, displ + 1, inner, outer, sources, k1, t2, s2);
      var (xs, t3) := FillA(rest, displ + 1, false, inner, outer, sources, t2);
      var (ys, s3) := FillA(rest, displ + 1, false, inner, outer, sources, s2);
      SteppedTwice(k, k1, k', t, t2, t3, s2, s3);
      AttrsCons(k1.rho, k'.rho, d.name, c, xs, ys);
  }

  lemma {:induction false} ThunkDefsBoth(defs: List<AttrDef<Addr, WithInfo>>, env: nat, sources: nat, k: Link, t: AState, s: AState)
    returns (k': Link)
    requires Rel(k, t, s, {}) && CleanDefs(defs)
    ensures
      var (xs, t') := ThunkDefsA(defs, env, sources, t);
      var (ys, s') := ThunkDefsA(defs, env, sources, s);
      Stepped(k, k', t, t', s') && AttrsRel(k'.rho, xs, ys)
    decreases defs
  {
    match defs
    case Nil =>
      SteppedNot(k, t, s);
      k' := k;
    case Cons(d, rest) =>
      var target := DefEnv(d.kind, env, env, sources);
      var k1 := MaybeThunks(d.e, target, k, t, s);
      var (c, t1) := MaybeThunkA(d.e, target, t);
      var (_, s1) := MaybeThunkA(d.e, target, s);
      k' := ThunkDefsBoth(rest, env, sources, k1, t1, s1);
      var (xs, t2) := ThunkDefsA(rest, env, sources, t1);
      var (ys, s2) := ThunkDefsA(rest, env, sources, s1);
      SteppedTwice(k, k1, k', t, t1, t2, s1, s2);
      AttrsCons(k1.rho, k'.rho, d.name, c, xs, ys);
  }

  // ---- attribute arrays ----

  lemma {:induction false} GetBoth(rho: seq<nat>, xs: seq<Attr<nat>>, ys: seq<Attr<nat>>, name: Symbol)
    requires AttrsRel(rho, xs, ys)
    ensures SlotRel(rho, Get(xs, name), Get(ys, name))
    decreases |xs|
  {
    if xs != [] { GetBoth(rho, xs[1..], ys[1..], name); }
  }

  lemma {:induction false} MergeBoth(rho: seq<nat>, xs: seq<Attr<nat>>, ys: seq<Attr<nat>>, xs': seq<Attr<nat>>, ys': seq<Attr<nat>>)
    requires AttrsRel(rho, xs, xs') && AttrsRel(rho, ys, ys')
    ensures AttrsRel(rho, Merge(xs, ys), Merge(xs', ys'))
    decreases |xs| + |ys|
  {
    if xs == [] || ys == [] {
    } else if xs[0].name == ys[0].name {
      MergeBoth(rho, xs[1..], ys[1..], xs'[1..], ys'[1..]);
    } else if xs[0].name < ys[0].name {
      MergeBoth(rho, xs[1..], ys, xs'[1..], ys');
    } else {
      MergeBoth(rho, xs, ys[1..], xs', ys'[1..]);
    }
  }

  lemma InsertBoth(rho: seq<nat>, xs: seq<Attr<nat>>, xs': seq<Attr<nat>>, name: Symbol, c: nat)
    requires AttrsRel(rho, xs, xs') && c < |rho|
    ensures AttrsRel(rho, Insert(xs, Attr(name, c)), Insert(xs', Attr(name, rho[c])))
  {
    InsertIsMerge(xs, Attr(name, c));
    InsertIsMerge(xs', Attr(name, rho[c]));
    MergeBoth(rho, xs, [Attr(name, c)], xs', [Attr(name, rho[c])]);
  }

  lemma {:induction false} UnexpectedBoth(rho: seq<nat>, xs: seq<Attr<nat>>, ys: seq<Attr<nat>>, formals: seq<Symbol>)
    requires AttrsRel(rho, xs, ys)
    ensures FirstUnexpected(xs, formals) == FirstUnexpected(ys, formals)
    decreases |xs|
  {
    if xs != [] { UnexpectedBoth(rho, xs[1..], ys[1..], formals); }
  }

  /** Walking the formals ends alike in both runs. */
  ghost predicate SameFormals(k: Link, k': Link, t: AState, rt: Out<nat, AState>, rs: Out<nat, AState>) {
    match rt
    case OutOfFuel => rs.OutOfFuel?
    case Raised(err) => rs == Raised(err)
    case Done(used, t') => rs.Done? && rs.v == used && Stepped(k, k', t, t', rs.s)
  }

  lemma {:induction false} FormalsBoth(formals: List<Formal<Addr, WithInfo>>, displ: nat, xs: seq<Attr<nat>>, ys: seq<Attr<nat>>, env: nat,
                                       k: Link, t: AState, s: AState)
    returns (k': Link)
    requires Rel(k, t, s, {}) && CleanFormals(formals) && EmptyFrom(t, env, displ) && AttrsRel(k.rho, xs, ys)
    ensures SameFormals(k, k', t, FormalsA(formals, displ, xs, env, t), FormalsA(formals, displ, ys, env, s))
    decreases formals, 0
  {
    k' := k;
    match formals
    case Nil => SteppedNot(k, t, s);
    case Cons(f, rest) =>
      GetBoth(k.rho, xs, ys, f.name);
      if Get(xs, f.name).Some? {
        SteppedNot(k, t, s);
        k' := FormalsAfter(rest, displ, Get(xs, f.name).value, xs, ys, env, k, k, t, t, s);
      } else if f.def.Some? {
        var k1 := MaybeThunks(f.def.value, env, k, t, s);
        var (c, t1) := MaybeThunkA(f.def.value, env, t);
        k' := FormalsAfter(rest, displ, c, xs, ys, env, k, k1, t, t1, MaybeThunkA(f.def.value, env, s).1);
      }
  }

  /** Both runs fill the slot of one formal and walk the rest. */
  lemma {:induction false} FormalsAfter(rest: List<Formal<Addr, WithInfo>>, displ: nat, c: nat, xs: seq<Attr<nat>>, ys: seq<Attr<nat>>,
                                        env: nat, k: Link, k1: Link, t: AState, t1: AState, s1: AState)
    returns (k': Link)
    requires Stepped(k, k1, t, t1, s1) && CleanFormals(rest) && EmptyFrom(t1, env, displ) && AttrsRel(k1.rho, xs, ys) && c < |k1.rho|
    ensures SameFormals(k, k', t, FormalsA(rest, displ + 1, xs, env, SetSlot(env, displ, c, t1)),
                        FormalsA(rest, displ + 1, ys, env, SetSlot(env, displ, k1.rho[c], s1)))
    decreases rest, 1
  {
    SetBoth(k1, t1, s1, env, displ, c);
    var t2, s2 := SetSlot(env, displ, c, t1), SetSlot(env, displ, k1.rho[c], s1);
    SteppedTwice(k, k1, k1, t, t1, t2, s1, s2);
    k' := FormalsBoth(rest, displ + 1, xs, ys, env, k1, t2, s2);
    var rt, rs := FormalsA(rest, displ + 1, xs, env, t2), FormalsA(rest, displ + 1, ys, env, s2);
    if rt.Done? { SteppedTwice(k, k1, k', t, t2, rt.s, s2, rs.s); }
  }
}

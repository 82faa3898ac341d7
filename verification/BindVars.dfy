/** `bindVars` as the parser's tree sees it: a walk that writes `level`, `displ`, `fromWith`,
    `prevWith` and `parentWith` into the nodes. What it leaves behind is `Scope.Bind`. */
module BindVars {
  import opened Wrappers
  import opened SortedAttrs
  import opened Syntax
  import Scope

  class VarNode {
    var level: nat
    var displ: nat
    var fromWith: WithNode?
  }

  class WithNode {
    var prevWith: nat
    var parentWith: WithNode?
  }

  type Tree = Expr<VarNode, WithNode>

  // ---- static environments ----

  datatype Entry = Entry(name: Symbol, displ: nat)

  datatype StaticEnv = NoEnv | StaticEnv(isWith: WithNode?, vars: seq<Entry>, up: StaticEnv)

  ghost predicate SortedVars(vars: seq<Entry>) {
    forall i, j :: 0 <= i < j < |vars| ==> vars[i].name < vars[j].name
  }

  /** `vars` is the sorted table of the displacements of `names`. */
  ghost predicate TableOf(vars: seq<Entry>, names: seq<Symbol>) {
    && SortedVars(vars) && Distinct(names)
    && (forall i :: 0 <= i < |vars| ==> vars[i].displ < |names| && names[vars[i].displ] == vars[i].name)
    && (forall d :: 0 <= d < |names| ==> Entry(names[d], d) in vars)
  }

  ghost function Withs(env: StaticEnv): set<object> {
    if env.NoEnv? then {} else Withs(env.up) + if env.isWith == null then {} else {env.isWith}
  }

  function FirstNode(env: StaticEnv): WithNode? {
    if env.NoEnv? then null else if env.isWith != null then env.isWith else FirstNode(env.up)
  }

  /** `env` has the frames of `st`, and its `with` nodes hold what `Scope` says they record. */
  ghost predicate Stands(env: StaticEnv, st: Scope.StaticEnv)
    reads Withs(env)
    decreases st
  {
    match st
    case Empty => env.NoEnv?
    case Env(frame, up) =>
      && env.StaticEnv?
      && Stands(env.up, up)
      && match frame
         case Vars(names) => env.isWith == null && TableOf(env.vars, names)
         case IsWith(info) =>
           && env.isWith != null && env.vars == [] && env.isWith !in Withs(env.up)
           && info == Scope.NodeFor(up) && Records(env.isWith, env.up, up)
         case Sources(_) => env.isWith == null && env.vars == []
  }

  /** What `ExprWith::bindVars` leaves in its node. */
  ghost predicate Records(w: WithNode, env: StaticEnv, st: Scope.StaticEnv)
    reads w
  {
    w.prevWith == Scope.NodeFor(st).prevWith && w.parentWith == FirstNode(env)
  }

  /** The chain of nodes that starts at `w`, read off their fields, as far as it stays in `scope`. */
  ghost function Follow(w: WithNode?, scope: set<object>): Option<Scope.WithInfo>
    reads scope
    decreases scope
  {
    if w == null || w !in scope then None else Some(Scope.WithInfo(w.prevWith, Follow(w.parentWith, scope - {w})))
  }

  function Innermost(st: Scope.StaticEnv): Option<Scope.WithInfo> {
    match Scope.FirstWith(st) case None => None case Some((_, node)) => Some(node)
  }

  /** Following the fields from the first node gives the chain that scoping prescribes. */
  lemma {:induction false} FirstNodeStands(env: StaticEnv, st: Scope.StaticEnv, scope: set<object>)
    requires Stands(env, st) && Withs(env) <= scope
    ensures Follow(FirstNode(env), scope) == Innermost(st)
    decreases st
  {
    if env.StaticEnv? {
      if env.isWith == null {
        FirstNodeStands(env.up, st.up, scope);
      } else {
        FirstNodeStands(env.up, st.up, scope - {env.isWith});
      }
    }
  }

  /** `StaticEnv::find`: a binary search for the first entry not below the name. */
  method Find(vars: seq<Entry>, name: Symbol, ghost names: seq<Symbol>) returns (r: Option<nat>)
    requires TableOf(vars, names)
    ensures r == IndexOf(names, name)
  {
    var lo, hi := 0, |vars|;
    while lo < hi
      invariant 0 <= lo <= hi <= |vars|
      invariant forall i :: 0 <= i < lo ==> vars[i].name < name
      invariant forall i :: hi <= i < |vars| ==> name <= vars[i].name
    {
      var mid := (lo + hi) / 2;
      if vars[mid].name < name { lo := mid + 1; } else { hi := mid; }
    }
    ghost var at := IndexOf(names, name);
    assert at.Some? ==> Entry(name, at.value) in vars;
    if lo < |vars| && vars[lo].name == name {
      IndexOfDistinct(names, vars[lo].displ);
      return Some(vars[lo].displ);
    }
    return None;
  }

  // ---- variables and `with` ----

  /** `loc`, found after climbing `k` frames. */
  function Up<T>(loc: Option<(nat, T)>, k: nat): Option<(nat, T)> {
    match loc case None => None case Some((level, x)) => Some((level + k, x))
  }

  ghost predicate Resolved(v: VarNode, addr: Scope.Addr, env: StaticEnv)
    reads v, Withs(env)
  {
    match addr
    case Lexical(level, displ) => v.fromWith == null && v.level == level && v.displ == displ
    case FromWith(level, node) =>
      v.level == level && v.fromWith != null && v.fromWith == FirstNode(env) && Follow(v.fromWith, Withs(env)) == Some(node)
  }

  function Here(name: Symbol, frame: Scope.Frame): Option<nat> {
    if frame.Vars? then IndexOf(frame.names, name) else None
  }

  /** Of the frames of `st`, the `level` innermost ones do not bind `name`; `withLevel` is the
      level of the first `with` among them, or -1. The rest is `cst`. */
  ghost predicate Climbed(name: Symbol, st: Scope.StaticEnv, cst: Scope.StaticEnv, level: nat, withLevel: int) {
    && Scope.FindLexical(name, st) == Up(Scope.FindLexical(name, cst), level)
    && if withLevel == -1 then Scope.FirstWith(st) == Up(Scope.FirstWith(cst), level)
       else Scope.FirstWith(st).Some? && Scope.FirstWith(st).value.0 == withLevel
  }

  lemma ClimbOne(name: Symbol, st: Scope.StaticEnv, cst: Scope.StaticEnv, level: nat, withLevel: int)
    requires cst.Env? && Climbed(name, st, cst, level, withLevel)
    ensures Here(name, cst.frame).Some? ==> Scope.FindLexical(name, st) == Some((level, Here(name, cst.frame).value))
    ensures Here(name, cst.frame).None? ==>
      Climbed(name, st, cst.up, level + 1, if cst.frame.IsWith? && withLevel == -1 then level else withLevel)
  {}

  /** The displacement of `name` in the frame on top. */
  method FindHere(name: Symbol, env: StaticEnv, ghost st: Scope.StaticEnv) returns (r: Option<nat>)
    requires Stands(env, st) && env.StaticEnv?
    ensures r == Here(name, st.frame)
  {
    if env.isWith != null { return None; }
    r := Find(env.vars, name, if st.frame.Vars? then st.frame.names else []);
  }

  /** Climbs until a frame binds `name`, and notes the level of the first `with` passed. */
  method ClimbFrames(name: Symbol, env: StaticEnv, ghost st: Scope.StaticEnv)
      returns (found: Option<(nat, nat)>, withLevel: int)
    requires Stands(env, st)
    ensures found == Scope.FindLexical(name, st)
    ensures found.None? ==> withLevel == match Scope.FirstWith(st) case None => -1 case Some((level, _)) => level
  {
    var curEnv, level := env, 0;
    withLevel := -1;
    ghost var cst := st;
    while curEnv.StaticEnv?
      invariant Stands(curEnv, cst)
      invariant Climbed(name, st, cst, level, withLevel)
      decreases curEnv
    {
      assert allocated(Withs(curEnv.up));
      assert Stands(curEnv.up, cst.up);
      var displ := FindHere(name, curEnv, cst);
      ClimbOne(name, st, cst, level, withLevel);
      if displ.Some? { return Some((level, displ.value)), withLevel; }
      if curEnv.isWith != null && withLevel == -1 { withLevel := level; }
      curEnv, level, cst := curEnv.up, level + 1, cst.up;
    }
    return None, withLevel;
  }

  /** The loop that both `fromWith` and `parentWith` are found by. */
  method NearestWith(env: StaticEnv) returns (w: WithNode?)
    ensures w == FirstNode(env)
  {
    var e := env;
    w := null;
    while e.StaticEnv? && w == null
      invariant if w == null then FirstNode(e) == FirstNode(env) else w == FirstNode(env)
      decreases e
    {
      w := e.isWith;
      e := e.up;
    }
  }

  /** `ExprVar::bindVars`. */
  method BindVar(name: Symbol, v: VarNode, env: StaticEnv, ghost st: Scope.StaticEnv) returns (r: Option<Scope.BindError>)
    requires Stands(env, st) && v !in Withs(env)
    modifies v
    ensures match Scope.Resolve(name, st)
      case Ok(addr) => r.None? && Resolved(v, addr, env)
      case Err(error) => r == Some(error)
  {
    FirstNodeStands(env, st, Withs(env));
    assert allocated(Withs(env));
    v.fromWith := null;
    var found, withLevel := ClimbFrames(name, env, st);
    if found.Some? {
      v.level, v.displ := found.value.0, found.value.1;
      return None;
    }
    if withLevel == -1 { return Some(Scope.Undefined(name)); }
    var nearest := NearestWith(env);
    v.fromWith, v.level := nearest, withLevel;
    return None;
  }

  /** Level of the nearest `with` seen from a new `with` frame on top of `env`; 0 if there is none. */
  method PreviousWith(env: StaticEnv, ghost st: Scope.StaticEnv) returns (prevWith: nat)
    requires Stands(env, st)
    ensures prevWith == Scope.NodeFor(st).prevWith
  {
    var curEnv, level := env, 1;
    ghost var cst := st;
    while curEnv.StaticEnv?
      invariant Stands(curEnv, cst) && level >= 1
      invariant Scope.FirstWith(st) == Up(Scope.FirstWith(cst), level - 1)
      decreases curEnv
    {
      if curEnv.isWith != null { return level; }
      curEnv, level, cst := curEnv.up, level + 1, cst.up;
    }
    return 0;
  }

  /** The part of `ExprWith::bindVars` that fills in its own node. */
  method BindWithNode(w: WithNode, env: StaticEnv, ghost st: Scope.StaticEnv)
    requires Stands(env, st) && w !in Withs(env)
    modifies w
    ensures Records(w, env, st)
  {
    assert allocated(Withs(env));
    var prevWith := PreviousWith(env, st);
    var nearest := NearestWith(env);
    w.parentWith, w.prevWith := nearest, prevWith;
  }

  // ---- the frames that `let`, `rec` and lambdas put on top ----

  /** One entry for each definition, in order; their names ascend already. */
  method DefsFrame(defs: List<AttrDef<VarNode, WithNode>>) returns (vars: seq<Entry>)
    requires Ascending(DefNames(defs))
    ensures TableOf(vars, DefNames(defs))
  {
    ghost var names := DefNames(defs);
    var rest, displ := defs, 0;
    vars := [];
    while rest.Cons?
      invariant displ == |vars| <= |names| && names[displ..] == DefNames(rest)
      invariant forall i :: 0 <= i < |vars| ==> vars[i] == Entry(names[i], i)
      decreases rest
    {
      assert names[displ] == names[displ..][0] && names[displ + 1..] == names[displ..][1..];
      vars := vars + [Entry(rest.head.name, displ)];
      rest, displ := rest.tail, displ + 1;
    }
    TableInOrder(vars, names);
  }

  lemma TableInOrder(vars: seq<Entry>, names: seq<Symbol>)
    requires |vars| == |names| && Ascending(names) && forall i :: 0 <= i < |vars| ==> vars[i] == Entry(names[i], i)
    ensures TableOf(vars, names)
  {
    forall d | 0 <= d < |names| ensures Entry(names[d], d) in vars {
      assert vars[d] == Entry(names[d], d);
    }
  }

  method InsertSorted(vars: seq<Entry>, e: Entry) returns (r: seq<Entry>)
    requires SortedVars(vars) && forall x :: x in vars ==> x.name != e.name
    ensures SortedVars(r) && forall x :: x in r <==> x in vars || x == e
  {
    var k := |vars|;
    while k > 0 && e.name < vars[k - 1].name
      invariant 0 <= k <= |vars|
      invariant forall i :: k <= i < |vars| ==> e.name < vars[i].name
    {
      k := k - 1;
    }
    r := vars[..k] + [e] + vars[k..];
    if k > 0 { assert vars[k - 1] in vars; }
    InsertedSorted(vars, k, e);
    InsertedMembers(vars, k, e);
  }

  lemma InsertedSorted(vars: seq<Entry>, k: nat, e: Entry)
    requires SortedVars(vars) && k <= |vars|
    requires k > 0 ==> vars[k - 1].name < e.name
    requires k < |vars| ==> e.name < vars[k].name
    ensures SortedVars(vars[..k] + [e] + vars[k..])
  {
    var r := vars[..k] + [e] + vars[k..];
    assert forall i :: 0 <= i < |r| ==> r[i] == if i < k then vars[i] else if i == k then e else vars[i - 1];
  }

  lemma InsertedMembers(vars: seq<Entry>, k: nat, e: Entry)
    requires k <= |vars|
    ensures forall x :: x in vars[..k] + [e] + vars[k..] <==> x in vars || x == e
  {
    assert vars == vars[..k] + vars[k..];
  }

  /** `StaticEnv::sort`. */
  method SortVars(vars: seq<Entry>) returns (r: seq<Entry>)
    requires forall i, j :: 0 <= i < j < |vars| ==> vars[i].name != vars[j].name
    ensures SortedVars(r) && forall x :: x in r <==> x in vars
  {
    r := [];
    var i := 0;
    while i < |vars|
      invariant 0 <= i <= |vars| && SortedVars(r)
      invariant forall x :: x in r <==> x in vars[..i]
    {
      assert vars[..i + 1] == vars[..i] + [vars[i]];
      r := InsertSorted(r, vars[i]);
      i := i + 1;
    }
    assert vars[..i] == vars;
  }

  /** The argument comes first, then the formals; only a pattern's frame is sorted. */
  method LamFrame(lam: Lam<VarNode, WithNode>) returns (vars: seq<Entry>)
    requires Distinct(LamNames(lam))
    ensures TableOf(vars, LamNames(lam))
  {
    ghost var names := LamNames(lam);
    match lam
    case ArgOnly(arg, _) =>
      vars := [Entry(arg, 0)];
    case Pattern(at, formals, _, _) =>
      var displ := 0;
      vars := [];
      if at.Some? { vars, displ := [Entry(at.value, 0)], 1; }
      var rest := formals;
      while rest.Cons?
        invariant displ == |vars| <= |names| && names[displ..] == FormalNames(rest)
        invariant forall i :: 0 <= i < |vars| ==> vars[i] == Entry(names[i], i)
        decreases rest
      {
        assert names[displ] == names[displ..][0] && names[displ + 1..] == names[displ..][1..];
        vars := vars + [Entry(rest.head.name, displ)];
        rest, displ := rest.tail, displ + 1;
      }
      ghost var unsorted := vars;
      vars := SortVars(vars);
      TableSorted(vars, unsorted, names);
  }

  lemma TableSorted(vars: seq<Entry>, unsorted: seq<Entry>, names: seq<Symbol>)
    requires SortedVars(vars) && Distinct(names) && |unsorted| == |names|
    requires forall i :: 0 <= i < |unsorted| ==> unsorted[i] == Entry(names[i], i)
    requires forall x :: x in vars <==> x in unsorted
    ensures TableOf(vars, names)
  {
    forall i | 0 <= i < |vars| ensures vars[i].displ < |names| && names[vars[i].displ] == vars[i].name {
      assert vars[i] in unsorted;
    }
    forall d | 0 <= d < |names| ensures Entry(names[d], d) in vars {
      assert unsorted[d] in unsorted;
    }
  }
}

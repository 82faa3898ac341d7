/** `bindVars` over whole trees: after the walk, the annotations in the nodes are those that
    `Scope.Bind` computes, or the walk stops with the error `Scope.Bind` reports. */
module BindTree {
  import opened Wrappers
  import opened SortedAttrs
  import opened Syntax
  import opened BindVars
  import Scope

  type Bound = Scope.Bound

  // ---- the tree without its annotations ----

  ghost function Erase(e: Tree): Scope.Named
    decreases e
  {
    match e
    case Lit(c) => Lit(c)
    case Var(name, _) => Var(name, ())
    case InheritFrom(displ) => InheritFrom(displ)
    case Select(e1, path, def) => Select(Erase(e1), ErasePath(path), EraseOption(def))
    case HasAttr(e1, path) => HasAttr(Erase(e1), ErasePath(path))
    case Attrs(s) => Attrs(AttrSet(s.recursive, EraseDefs(s.defs), EraseList(s.from), EraseDyn(s.dyn)))
    case ListE(elems) => ListE(EraseList(elems))
    case Lambda(lam) => Lambda(EraseLam(lam))
    case Call(fun, args) => Call(Erase(fun), EraseList(args))
    case Let(defs, from, body) => Let(EraseDefs(defs), EraseList(from), Erase(body))
    case With(_, scope, body) => With((), Erase(scope), Erase(body))
    case If(cond, thn, els) => If(Erase(cond), Erase(thn), Erase(els))
    case Assert(cond, body) => Assert(Erase(cond), Erase(body))
    case Not(e1) => Not(Erase(e1))
    case BinBool(op, e1, e2) => BinBool(op, Erase(e1), Erase(e2))
    case Update(e1, e2) => Update(Erase(e1), Erase(e2))
    case ConcatLists(e1, e2) => ConcatLists(Erase(e1), Erase(e2))
  }

  ghost function EraseOption(e: Option<Tree>): Option<Scope.Named>
    decreases e
  {
    match e case None => None case Some(e1) => Some(Erase(e1))
  }

  ghost function EraseList(es: List<Tree>): (r: List<Scope.Named>)
    ensures r.Nil? <==> es.Nil?
    decreases es
  {
    match es case Nil => Nil case Cons(e, rest) => Cons(Erase(e), EraseList(rest))
  }

  ghost function ErasePath(path: List<AttrName<VarNode, WithNode>>): List<AttrName<(), ()>>
    decreases path
  {
    match path
    case Nil => Nil
    case Cons(Static(sym), rest) => Cons(Static(sym), ErasePath(rest))
    case Cons(Dynamic(e), rest) => Cons(Dynamic(Erase(e)), ErasePath(rest))
  }

  ghost function EraseDefs(defs: List<AttrDef<VarNode, WithNode>>): (r: List<AttrDef<(), ()>>)
    ensures DefNames(r) == DefNames(defs)
    decreases defs
  {
    match defs
    case Nil => Nil
    case Cons(d, rest) => Cons(AttrDef(d.name, d.kind, Erase(d.e)), EraseDefs(rest))
  }

  ghost function EraseDyn(dyn: List<DynAttr<VarNode, WithNode>>): List<DynAttr<(), ()>>
    decreases dyn
  {
    match dyn
    case Nil => Nil
    case Cons(d, rest) => Cons(DynAttr(Erase(d.nameE), Erase(d.valueE)), EraseDyn(rest))
  }

  ghost function EraseLam(lam: Lam<VarNode, WithNode>): (r: Lam<(), ()>)
    ensures LamNames(r) == LamNames(lam)
    decreases lam
  {
    match lam
    case ArgOnly(arg, body) => ArgOnly(arg, Erase(body))
    case Pattern(at, formals, ellipsis, body) => Pattern(at, EraseFormals(formals), ellipsis, Erase(body))
  }

  ghost function EraseFormals(formals: List<Formal<VarNode, WithNode>>): (r: List<Formal<(), ()>>)
    ensures FormalNames(r) == FormalNames(formals)
    decreases formals
  {
    match formals
    case Nil => Nil
    case Cons(f, rest) => Cons(Formal(f.name, EraseOption(f.def)), EraseFormals(rest))
  }

  // ---- the nodes of a tree ----

  ghost function Nodes(e: Tree): set<object>
    decreases e
  {
    match e
    case Lit(_) => {}
    case Var(_, v) => {v}
    case InheritFrom(_) => {}
    case Select(e1, path, def) => Nodes(e1) + NodesOption(def) + NodesPath(path)
    case HasAttr(e1, path) => Nodes(e1) + NodesPath(path)
    case Attrs(s) => NodesList(s.from) + NodesDefs(s.defs) + NodesDyn(s.dyn)
    case ListE(elems) => NodesList(elems)
    case Lambda(lam) => NodesLam(lam)
    case Call(fun, args) => Nodes(fun) + NodesList(args)
    case Let(defs, from, body) => NodesList(from) + NodesDefs(defs) + Nodes(body)
    case With(w, scope, body) => {w} + Nodes(scope) + Nodes(body)
    case If(cond, thn, els) => Nodes(cond) + Nodes(thn) + Nodes(els)
    case Assert(cond, body) => Nodes(cond) + Nodes(body)
    case Not(e1) => Nodes(e1)
    case BinBool(_, e1, e2) => Nodes(e1) + Nodes(e2)
    case Update(e1, e2) => Nodes(e1) + Nodes(e2)
    case ConcatLists(e1, e2) => Nodes(e1) + Nodes(e2)
  }

  ghost function NodesOption(e: Option<Tree>): set<object>
    decreases e
  {
    match e case None => {} case Some(e1) => Nodes(e1)
  }

  ghost function NodesList(es: List<Tree>): set<object>
    decreases es
  {
    match es case Nil => {} case Cons(e, rest) => Nodes(e) + NodesList(rest)
  }

  ghost function NodesPath(path: List<AttrName<VarNode, WithNode>>): set<object>
    decreases path
  {
    match path
    case Nil => {}
    case Cons(Static(_), rest) => NodesPath(rest)
    case Cons(Dynamic(e), rest) => Nodes(e) + NodesPath(rest)
  }

  ghost function NodesDefs(defs: List<AttrDef<VarNode, WithNode>>): set<object>
    decreases defs
  {
    match defs case Nil => {} case Cons(d, rest) => Nodes(d.e) + NodesDefs(rest)
  }

  ghost function NodesDyn(dyn: List<DynAttr<VarNode, WithNode>>): set<object>
    decreases dyn
  {
    match dyn case Nil => {} case Cons(d, rest) => Nodes(d.nameE) + Nodes(d.valueE) + NodesDyn(rest)
  }

  ghost function NodesLam(lam: Lam<VarNode, WithNode>): set<object>
    decreases lam
  {
    match lam
    case ArgOnly(_, body) => Nodes(body)
    case Pattern(_, formals, _, body) => NodesFormals(formals) + Nodes(body)
  }

  ghost function NodesFormals(formals: List<Formal<VarNode, WithNode>>): set<object>
    decreases formals
  {
    match formals case Nil => {} case Cons(f, rest) => NodesOption(f.def) + NodesFormals(rest)
  }

  /** A tree: no node occurs twice. */
  ghost predicate IsTree(e: Tree)
    decreases e
  {
    match e
    case Lit(_) => true
    case Var(_, _) => true
    case InheritFrom(_) => true
    case Select(e1, path, def) =>
      && IsTree(e1) && IsTreeOption(def) && IsTreePath(path)
      && Nodes(e1) !! NodesOption(def) !! NodesPath(path)
    case HasAttr(e1, path) => IsTree(e1) && IsTreePath(path) && Nodes(e1) !! NodesPath(path)
    case Attrs(s) =>
      && IsTreeList(s.from) && IsTreeDefs(s.defs) && IsTreeDyn(s.dyn)
      && NodesList(s.from) !! NodesDefs(s.defs) !! NodesDyn(s.dyn)
    case ListE(elems) => IsTreeList(elems)
    case Lambda(lam) => IsTreeLam(lam)
    case Call(fun, args) => IsTree(fun) && IsTreeList(args) && Nodes(fun) !! NodesList(args)
    case Let(defs, from, body) =>
      && IsTreeList(from) && IsTreeDefs(defs) && IsTree(body)
      && NodesList(from) !! NodesDefs(defs) !! Nodes(body)
    case With(w, scope, body) => IsTree(scope) && IsTree(body) && {w as object} !! Nodes(scope) !! Nodes(body)
    case If(cond, thn, els) => IsTree(cond) && IsTree(thn) && IsTree(els) && Nodes(cond) !! Nodes(thn) !! Nodes(els)
    case Assert(cond, body) => IsTree(cond) && IsTree(body) && Nodes(cond) !! Nodes(body)
    case Not(e1) => IsTree(e1)
    case BinBool(_, e1, e2) => IsTree(e1) && IsTree(e2) && Nodes(e1) !! Nodes(e2)
    case Update(e1, e2) => IsTree(e1) && IsTree(e2) && Nodes(e1) !! Nodes(e2)
    case ConcatLists(e1, e2) => IsTree(e1) && IsTree(e2) && Nodes(e1) !! Nodes(e2)
  }

  ghost predicate IsTreeOption(e: Option<Tree>)
    decreases e
  {
    e.Some? ==> IsTree(e.value)
  }

  ghost predicate IsTreeList(es: List<Tree>)
    decreases es
  {
    match es case Nil => true case Cons(e, rest) => IsTree(e) && IsTreeList(rest) && Nodes(e) !! NodesList(rest)
  }

  ghost predicate IsTreePath(path: List<AttrName<VarNode, WithNode>>)
    decreases path
  {
    match path
    case Nil => true
    case Cons(Static(_), rest) => IsTreePath(rest)
    case Cons(Dynamic(e), rest) => IsTree(e) && IsTreePath(rest) && Nodes(e) !! NodesPath(rest)
  }

  ghost predicate IsTreeDefs(defs: List<AttrDef<VarNode, WithNode>>)
    decreases defs
  {
    match defs case Nil => true case Cons(d, rest) => IsTree(d.e) && IsTreeDefs(rest) && Nodes(d.e) !! NodesDefs(rest)
  }

  ghost predicate IsTreeDyn(dyn: List<DynAttr<VarNode, WithNode>>)
    decreases dyn
  {
    match dyn
    case Nil => true
    case Cons(d, rest) =>
      && IsTree(d.nameE) && IsTree(d.valueE) && IsTreeDyn(rest)
      && Nodes(d.nameE) !! Nodes(d.valueE) !! NodesDyn(rest)
  }

  ghost predicate IsTreeLam(lam: Lam<VarNode, WithNode>)
    decreases lam
  {
    match lam
    case ArgOnly(_, body) => IsTree(body)
    case Pattern(_, formals, _, body) => IsTreeFormals(formals) && IsTree(body) && NodesFormals(formals) !! Nodes(body)
  }

  ghost predicate IsTreeFormals(formals: List<Formal<VarNode, WithNode>>)
    decreases formals
  {
    match formals
    case Nil => true
    case Cons(f, rest) => IsTreeOption(f.def) && IsTreeFormals(rest) && NodesOption(f.def) !! NodesFormals(rest)
  }

  // ---- reading the annotations back ----

  ghost function AddrOf(v: VarNode, scope: set<object>): Scope.Addr
    reads v, scope
  {
    if v.fromWith == null then Scope.Lexical(v.level, v.displ)
    else match Follow(v.fromWith, scope)
      case Some(info) => Scope.FromWith(v.level, info)
      case None => Scope.Lexical(v.level, v.displ)
  }

  /** The annotated tree that the nodes of `e` describe, with every chain of `with` nodes followed
      field by field; `scope` holds the `with` nodes around it. */
  ghost function Snapshot(e: Tree, scope: set<object>): Bound
    reads Nodes(e), scope
    decreases e
  {
    match e
    case Lit(c) => Lit(c)
    case Var(name, v) => Var(name, AddrOf(v, scope))
    case InheritFrom(displ) => InheritFrom(displ)
    case Select(e1, path, def) => Select(Snapshot(e1, scope), SnapshotPath(path, scope), SnapshotOption(def, scope))
    case HasAttr(e1, path) => HasAttr(Snapshot(e1, scope), SnapshotPath(path, scope))
    case Attrs(s) =>
      Attrs(AttrSet(s.recursive, SnapshotDefs(s.defs, scope), SnapshotList(s.from, scope), SnapshotDyn(s.dyn, scope)))
    case ListE(elems) => ListE(SnapshotList(elems, scope))
    case Lambda(lam) => Lambda(SnapshotLam(lam, scope))
    case Call(fun, args) => Call(Snapshot(fun, scope), SnapshotList(args, scope))
    case Let(defs, from, body) => Let(SnapshotDefs(defs, scope), SnapshotList(from, scope), Snapshot(body, scope))
    case With(w, scopeE, body) =>
      With(Scope.WithInfo(w.prevWith, Follow(w.parentWith, scope)), Snapshot(scopeE, scope), Snapshot(body, scope + {w}))
    case If(cond, thn, els) => If(Snapshot(cond, scope), Snapshot(thn, scope), Snapshot(els, scope))
    case Assert(cond, body) => Assert(Snapshot(cond, scope), Snapshot(body, scope))
    case Not(e1) => Not(Snapshot(e1, scope))
    case BinBool(op, e1, e2) => BinBool(op, Snapshot(e1, scope), Snapshot(e2, scope))
    case Update(e1, e2) => Update(Snapshot(e1, scope), Snapshot(e2, scope))
    case ConcatLists(e1, e2) => ConcatLists(Snapshot(e1, scope), Snapshot(e2, scope))
  }

  ghost function SnapshotOption(e: Option<Tree>, scope: set<object>): Option<Bound>
    reads NodesOption(e), scope
    decreases e
  {
    match e case None => None case Some(e1) => Some(Snapshot(e1, scope))
  }

  ghost function SnapshotList(es: List<Tree>, scope: set<object>): List<Bound>
    reads NodesList(es), scope
    decreases es
  {
    match es case Nil => Nil case Cons(e, rest) => Cons(Snapshot(e, scope), SnapshotList(rest, scope))
  }

  ghost function SnapshotPath(path: List<AttrName<VarNode, WithNode>>, scope: set<object>): List<AttrName<Scope.Addr, Scope.WithInfo>>
    reads NodesPath(path), scope
    decreases path
  {
    match path
    case Nil => Nil
    case Cons(Static(sym), rest) => Cons(Static(sym), SnapshotPath(rest, scope))
    case Cons(Dynamic(e), rest) => Cons(Dynamic(Snapshot(e, scope)), SnapshotPath(rest, scope))
  }

  ghost function SnapshotDefs(defs: List<AttrDef<VarNode, WithNode>>, scope: set<object>): List<AttrDef<Scope.Addr, Scope.WithInfo>>
    reads NodesDefs(defs), scope
    decreases defs
  {
    match defs
    case Nil => Nil
    case Cons(d, rest) => Cons(AttrDef(d.name, d.kind, Snapshot(d.e, scope)), SnapshotDefs(rest, scope))
  }

  ghost function SnapshotDyn(dyn: List<DynAttr<VarNode, WithNode>>, scope: set<object>): List<DynAttr<Scope.Addr, Scope.WithInfo>>
    reads NodesDyn(dyn), scope
    decreases dyn
  {
    match dyn
    case Nil => Nil
    case Cons(d, rest) => Cons(DynAttr(Snapshot(d.nameE, scope), Snapshot(d.valueE, scope)), SnapshotDyn(rest, scope))
  }

  ghost function SnapshotLam(lam: Lam<VarNode, WithNode>, scope: set<object>): Lam<Scope.Addr, Scope.WithInfo>
    reads NodesLam(lam), scope
    decreases lam
  {
    match lam
    case ArgOnly(arg, body) => ArgOnly(arg, Snapshot(body, scope))
    case Pattern(at, formals, ellipsis, body) =>
      Pattern(at, SnapshotFormals(formals, scope), ellipsis, Snapshot(body, scope))
  }

  ghost function SnapshotFormals(formals: List<Formal<VarNode, WithNode>>, scope: set<object>): List<Formal<Scope.Addr, Scope.WithInfo>>
    reads NodesFormals(formals), scope
    decreases formals
  {
    match formals
    case Nil => Nil
    case Cons(f, rest) => Cons(Formal(f.name, SnapshotOption(f.def, scope)), SnapshotFormals(rest, scope))
  }

  // ---- the walk ----

  /** The walk stopped where `spec` did, and otherwise left `snapshot` behind. */
  ghost predicate Agrees<T(!new)>(spec: Result<T, Scope.BindError>, r: Option<Scope.BindError>, snapshot: T) {
    match spec
    case Ok(b) => r.None? && snapshot == b
    case Err(error) => r == Some(error)
  }

  ghost predicate Parsed<T(!new)>(spec: Result<T, Scope.BindError>) {
    spec != Err(Scope.NotParsed)
  }

  /** The environment is in order and its nodes are not those of the tree. */
  ghost predicate Fits(nodes: set<object>, env: StaticEnv, st: Scope.StaticEnv)
    reads Withs(env)
  {
    Stands(env, st) && nodes !! Withs(env)
  }

  method Bind(e: Tree, env: StaticEnv, ghost st: Scope.StaticEnv) returns (r: Option<Scope.BindError>)
    requires IsTree(e) && Fits(Nodes(e), env, st) && Parsed(Scope.Bind(Erase(e), st))
    modifies Nodes(e)
    ensures Agrees(Scope.Bind(Erase(e), st), r, Snapshot(e, Withs(env)))
    decreases e, 3
  {
    r := None;
    assert allocated(Withs(env));
    match e
    case Lit(_) =>
    case Var(name, v) => r := BindVar(name, v, env, st);
    case InheritFrom(_) =>
    case Select(_, _, _) => r := BindSelect(e, env, st);
    case HasAttr(_, _) => r := BindHasAttr(e, env, st);
    case Attrs(_) => r := BindAttrs(e, env, st);
    case ListE(elems) => r := BindList(elems, env, st);
    case Lambda(lam) => r := BindLambda(lam, env, st);
    case Call(_, _) => r := BindCall(e, env, st);
    case Let(_, _, _) => r := BindLet(e, env, st);
    case With(_, _, _) => r := BindWith(e, env, st);
    case _ => r := BindOperator(e, env, st);
  }

  method BindOperator(e: Tree, env: StaticEnv, ghost st: Scope.StaticEnv) returns (r: Option<Scope.BindError>)
    requires e.If? || e.Assert? || e.Not? || e.BinBool? || e.Update? || e.ConcatLists?
    requires IsTree(e) && Fits(Nodes(e), env, st) && Parsed(Scope.Bind(Erase(e), st))
    modifies Nodes(e)
    ensures Agrees(Scope.Bind(Erase(e), st), r, Snapshot(e, Withs(env)))
    decreases e, 2
  {
    if e.If? {
      r := BindIf(e, env, st);
    } else if e.Assert? {
      r := BindAssert(e, env, st);
    } else if e.Not? {
      r := Bind(e.e, env, st);
    } else {
      r := BindBinary(e, env, st);
    }
  }

  method BindBinary(e: Tree, env: StaticEnv, ghost st: Scope.StaticEnv) returns (r: Option<Scope.BindError>)
    requires (e.BinBool? || e.Update? || e.ConcatLists?) && IsTree(e) && Fits(Nodes(e), env, st) && Parsed(Scope.Bind(Erase(e), st))
    modifies Nodes(e)
    ensures Agrees(Scope.Bind(Erase(e), st), r, Snapshot(e, Withs(env)))
    decreases e, 0
  {
    assert allocated(Withs(env)) && allocated(Nodes(e.e1));
    r := Bind(e.e1, env, st);
    if r.Some? { return; }
    r := Bind(e.e2, env, st);
  }

  method BindAssert(e: Tree, env: StaticEnv, ghost st: Scope.StaticEnv) returns (r: Option<Scope.BindError>)
    requires e.Assert? && IsTree(e) && Fits(Nodes(e), env, st) && Parsed(Scope.Bind(Erase(e), st))
    modifies Nodes(e)
    ensures Agrees(Scope.Bind(Erase(e), st), r, Snapshot(e, Withs(env)))
    decreases e, 0
  {
    assert allocated(Withs(env)) && allocated(Nodes(e.cond));
    r := Bind(e.cond, env, st);
    if r.Some? { return; }
    r := Bind(e.body, env, st);
  }

  method BindCall(e: Tree, env: StaticEnv, ghost st: Scope.StaticEnv) returns (r: Option<Scope.BindError>)
    requires e.Call? && IsTree(e) && Fits(Nodes(e), env, st) && Parsed(Scope.Bind(Erase(e), st))
    modifies Nodes(e)
    ensures Agrees(Scope.Bind(Erase(e), st), r, Snapshot(e, Withs(env)))
    decreases e, 0
  {
    assert allocated(Withs(env)) && allocated(Nodes(e.fun));
    r := Bind(e.fun, env, st);
    if r.Some? { return; }
    r := BindList(e.args, env, st);
  }

  method BindHasAttr(e: Tree, env: StaticEnv, ghost st: Scope.StaticEnv) returns (r: Option<Scope.BindError>)
    requires e.HasAttr? && IsTree(e) && Fits(Nodes(e), env, st) && Parsed(Scope.Bind(Erase(e), st))
    modifies Nodes(e)
    ensures Agrees(Scope.Bind(Erase(e), st), r, Snapshot(e, Withs(env)))
    decreases e, 0
  {
    assert allocated(Withs(env)) && allocated(Nodes(e.e));
    r := Bind(e.e, env, st);
    if r.Some? { return; }
    r := BindPath(e.path, env, st);
  }

  method BindSelect(e: Tree, env: StaticEnv, ghost st: Scope.StaticEnv) returns (r: Option<Scope.BindError>)
    requires e.Select? && IsTree(e) && Fits(Nodes(e), env, st) && Parsed(Scope.Bind(Erase(e), st))
    modifies Nodes(e)
    ensures Agrees(Scope.Bind(Erase(e), st), r, Snapshot(e, Withs(env)))
    decreases e, 0
  {
    assert allocated(Withs(env)) && allocated(Nodes(e.e)) && allocated(NodesOption(e.def));
    r := Bind(e.e, env, st);
    if r.Some? { return; }
    r := BindOption(e.def, env, st);
    if r.Some? { return; }
    r := BindPath(e.path, env, st);
  }

  method BindIf(e: Tree, env: StaticEnv, ghost st: Scope.StaticEnv) returns (r: Option<Scope.BindError>)
    requires e.If? && IsTree(e) && Fits(Nodes(e), env, st) && Parsed(Scope.Bind(Erase(e), st))
    modifies Nodes(e)
    ensures Agrees(Scope.Bind(Erase(e), st), r, Snapshot(e, Withs(env)))
    decreases e, 0
  {
    assert allocated(Withs(env)) && allocated(Nodes(e.cond)) && allocated(Nodes(e.thn));
    r := Bind(e.cond, env, st);
    if r.Some? { return; }
    r := Bind(e.thn, env, st);
    if r.Some? { return; }
    r := Bind(e.els, env, st);
  }

  method BindWith(e: Tree, env: StaticEnv, ghost st: Scope.StaticEnv) returns (r: Option<Scope.BindError>)
    requires e.With? && IsTree(e) && Fits(Nodes(e), env, st) && Parsed(Scope.Bind(Erase(e), st))
    modifies Nodes(e)
    ensures Agrees(Scope.Bind(Erase(e), st), r, Snapshot(e, Withs(env)))
    decreases e, 0
  {
    var w := e.node;
    assert allocated(Withs(env)) && allocated(Nodes(e.scope));
    BindWithNode(w, env, st);
    r := Bind(e.scope, env, st);
    if r.Some? { return; }
    var newEnv := StaticEnv(w, [], env);
    ghost var newSt := Scope.Env(Scope.IsWith(Scope.NodeFor(st)), st);
    assert Withs(newEnv) == Withs(env) + {w};
    r := Bind(e.body, newEnv, newSt);
    FirstNodeStands(env, st, Withs(env));
  }

  method BindLet(e: Tree, env: StaticEnv, ghost st: Scope.StaticEnv) returns (r: Option<Scope.BindError>)
    requires e.Let? && IsTree(e) && Fits(Nodes(e), env, st) && Parsed(Scope.Bind(Erase(e), st))
    modifies Nodes(e)
    ensures Agrees(Scope.Bind(Erase(e), st), r, Snapshot(e, Withs(env)))
    decreases e, 2
  {
    assert allocated(Withs(env)) && allocated(NodesList(e.from)) && allocated(NodesDefs(e.defs));
    var vars := DefsFrame(e.defs);
    var newEnv := StaticEnv(null, vars, env);
    ghost var newSt := Scope.Env(Scope.Vars(DefNames(e.defs)), st);
    assert Withs(newEnv) == Withs(env);
    r := BindSourcesAndDefs(e, e.from, e.defs, newEnv, newSt, env, st);
    if r.Some? { return; }
    r := Bind(e.body, newEnv, newSt);
  }

  /** `bindInheritSources`, then the definitions. */
  method BindSourcesAndDefs(ghost above: Tree, from: List<Tree>, defs: List<AttrDef<VarNode, WithNode>>, inner: StaticEnv, ghost innerSt: Scope.StaticEnv,
                            outer: StaticEnv, ghost outerSt: Scope.StaticEnv)
      returns (r: Option<Scope.BindError>)
    requires from < above && defs < above
    requires IsTreeList(from) && IsTreeDefs(defs) && NodesList(from) !! NodesDefs(defs)
    requires Fits(NodesList(from) + NodesDefs(defs), inner, innerSt) && Fits(NodesList(from) + NodesDefs(defs), outer, outerSt)
    requires Withs(inner) == Withs(outer)
    requires Parsed(Scope.BindList(EraseList(from), innerSt))
    requires Scope.BindList(EraseList(from), innerSt).Ok? ==>
      Parsed(Scope.BindDefs(EraseDefs(defs), innerSt, outerSt, Scope.SourceScope(EraseList(from), innerSt)))
    modifies NodesList(from), NodesDefs(defs)
    ensures match Scope.BindList(EraseList(from), innerSt)
      case Err(error) => r == Some(error)
      case Ok(sources) =>
        && Agrees(Scope.BindDefs(EraseDefs(defs), innerSt, outerSt, Scope.SourceScope(EraseList(from), innerSt)), r,
                  SnapshotDefs(defs, Withs(inner)))
        && (r.None? ==> SnapshotList(from, Withs(inner)) == sources)
    decreases above, 0
  {
    assert allocated(Withs(inner)) && allocated(NodesList(from));
    r := BindList(from, inner, innerSt);
    if r.Some? { return; }
    r := BindDefs(defs, inner, innerSt, outer, outerSt, from.Cons?, Length(EraseList(from)));
  }

  /** The dynamic attributes of a set come last. */
  method BindSet(ghost e: Tree, s: AttrSet<VarNode, WithNode>, inner: StaticEnv, ghost innerSt: Scope.StaticEnv,
                 outer: StaticEnv, ghost outerSt: Scope.StaticEnv, ghost sources: Option<Scope.StaticEnv>)
      returns (r: Option<Scope.BindError>)
    requires e == Attrs(s) && IsTreeList(s.from) && IsTreeDefs(s.defs) && IsTreeDyn(s.dyn)
    requires NodesList(s.from) !! NodesDefs(s.defs) !! NodesDyn(s.dyn)
    requires Fits(SetNodes(s), inner, innerSt) && Fits(SetNodes(s), outer, outerSt) && Withs(inner) == Withs(outer)
    requires sources == Scope.SourceScope(EraseList(s.from), innerSt)
    requires var from := Scope.BindList(EraseList(s.from), innerSt);
      var defs := Scope.BindDefs(EraseDefs(s.defs), innerSt, outerSt, sources);
      Parsed(from) && (from.Ok? ==> Parsed(defs) && (defs.Ok? ==> Parsed(Scope.BindDyn(EraseDyn(s.dyn), innerSt))))
    modifies SetNodes(s)
    ensures match Scope.BindList(EraseList(s.from), innerSt)
      case Err(error) => r == Some(error)
      case Ok(from) =>
        match Scope.BindDefs(EraseDefs(s.defs), innerSt, outerSt, sources)
        case Err(error) => r == Some(error)
        case Ok(defs) =>
          && Agrees(Scope.BindDyn(EraseDyn(s.dyn), innerSt), r, SnapshotDyn(s.dyn, Withs(inner)))
          && (r.None? ==> SnapshotList(s.from, Withs(inner)) == from && SnapshotDefs(s.defs, Withs(inner)) == defs)
    decreases e, 1
  {
    assert allocated(Withs(inner)) && allocated(NodesList(s.from)) && allocated(NodesDefs(s.defs));
    r := BindSourcesAndDefs(e, s.from, s.defs, inner, innerSt, outer, outerSt);
    if r.Some? { return; }
    r := BindDyn(s.dyn, inner, innerSt);
  }

  ghost function SetNodes(s: AttrSet<VarNode, WithNode>): set<object> {
    NodesList(s.from) + NodesDefs(s.defs) + NodesDyn(s.dyn)
  }

  method BindAttrs(e: Tree, env: StaticEnv, ghost st: Scope.StaticEnv) returns (r: Option<Scope.BindError>)
    requires e.Attrs? && IsTree(e) && Fits(Nodes(e), env, st) && Parsed(Scope.Bind(Erase(e), st))
    modifies Nodes(e)
    ensures Agrees(Scope.Bind(Erase(e), st), r, Snapshot(e, Withs(env)))
    decreases e, 2
  {
    var s := e.attrs;
    assert allocated(Withs(env));
    var newEnv := env;
    ghost var newSt := st;
    if s.recursive {
      var vars := DefsFrame(s.defs);
      newEnv := StaticEnv(null, vars, env);
      newSt := Scope.Env(Scope.Vars(DefNames(s.defs)), st);
      assert Stands(newEnv, newSt);
    }
    assert Withs(newEnv) == Withs(env);
    r := BindSet(e, s, newEnv, newSt, env, st, Scope.SourceScope(EraseList(s.from), newSt));
  }

  method BindLambda(lam: Lam<VarNode, WithNode>, env: StaticEnv, ghost st: Scope.StaticEnv) returns (r: Option<Scope.BindError>)
    requires IsTreeLam(lam) && Fits(NodesLam(lam), env, st)
    requires Distinct(LamNames(lam)) && Parsed(Scope.BindLam(EraseLam(lam), Scope.Env(Scope.Vars(LamNames(lam)), st)))
    modifies NodesLam(lam)
    ensures Agrees(Scope.BindLam(EraseLam(lam), Scope.Env(Scope.Vars(LamNames(lam)), st)), r, SnapshotLam(lam, Withs(env)))
    decreases lam, 1
  {
    assert allocated(Withs(env));
    var vars := LamFrame(lam);
    var newEnv := StaticEnv(null, vars, env);
    assert Withs(newEnv) == Withs(env);
    r := BindInLambda(lam, newEnv, Scope.Env(Scope.Vars(LamNames(lam)), st));
  }

  /** The defaults of the formals, then the body. */
  method BindInLambda(lam: Lam<VarNode, WithNode>, newEnv: StaticEnv, ghost newSt: Scope.StaticEnv) returns (r: Option<Scope.BindError>)
    requires IsTreeLam(lam) && Fits(NodesLam(lam), newEnv, newSt) && Parsed(Scope.BindLam(EraseLam(lam), newSt))
    modifies NodesLam(lam)
    ensures Agrees(Scope.BindLam(EraseLam(lam), newSt), r, SnapshotLam(lam, Withs(newEnv)))
    decreases lam, 0
  {
    assert allocated(Withs(newEnv));
    if lam.Pattern? {
      assert allocated(NodesFormals(lam.formals));
      r := BindFormals(lam.formals, newEnv, newSt);
      if r.Some? { return; }
    }
    r := Bind(lam.body, newEnv, newSt);
  }

  method BindOption(e: Option<Tree>, env: StaticEnv, ghost st: Scope.StaticEnv) returns (r: Option<Scope.BindError>)
    requires IsTreeOption(e) && Fits(NodesOption(e), env, st) && Parsed(Scope.BindOption(EraseOption(e), st))
    modifies NodesOption(e)
    ensures Agrees(Scope.BindOption(EraseOption(e), st), r, SnapshotOption(e, Withs(env)))
    decreases e
  {
    if e.None? { return None; }
    r := Bind(e.value, env, st);
  }

  method BindList(es: List<Tree>, env: StaticEnv, ghost st: Scope.StaticEnv) returns (r: Option<Scope.BindError>)
    requires IsTreeList(es) && Fits(NodesList(es), env, st) && Parsed(Scope.BindList(EraseList(es), st))
    modifies NodesList(es)
    ensures Agrees(Scope.BindList(EraseList(es), st), r, SnapshotList(es, Withs(env)))
    decreases es
  {
    if es.Nil? { return None; }
    assert allocated(Withs(env)) && allocated(Nodes(es.head));
    r := Bind(es.head, env, st);
    if r.Some? { return; }
    r := BindList(es.tail, env, st);
  }

  method BindPath(path: List<AttrName<VarNode, WithNode>>, env: StaticEnv, ghost st: Scope.StaticEnv) returns (r: Option<Scope.BindError>)
    requires IsTreePath(path) && Fits(NodesPath(path), env, st) && Parsed(Scope.BindPath(ErasePath(path), st))
    modifies NodesPath(path)
    ensures Agrees(Scope.BindPath(ErasePath(path), st), r, SnapshotPath(path, Withs(env)))
    decreases path
  {
    if path.Nil? { return None; }
    assert allocated(Withs(env));
    if path.head.Dynamic? {
      assert allocated(Nodes(path.head.e));
      r := Bind(path.head.e, env, st);
      if r.Some? { return; }
    }
    r := BindPath(path.tail, env, st);
  }

  /** Each definition is bound in the environment that its kind chooses. */
  method BindDefs(defs: List<AttrDef<VarNode, WithNode>>, inner: StaticEnv, ghost innerSt: Scope.StaticEnv,
                  outer: StaticEnv, ghost outerSt: Scope.StaticEnv, sources: bool, ghost size: nat)
      returns (r: Option<Scope.BindError>)
    requires IsTreeDefs(defs) && Fits(NodesDefs(defs), inner, innerSt) && Fits(NodesDefs(defs), outer, outerSt)
    requires Withs(inner) == Withs(outer)
    requires Parsed(Scope.BindDefs(EraseDefs(defs), innerSt, outerSt, SourcesSt(innerSt, sources, size)))
    modifies NodesDefs(defs)
    ensures Agrees(Scope.BindDefs(EraseDefs(defs), innerSt, outerSt, SourcesSt(innerSt, sources, size)), r,
                   SnapshotDefs(defs, Withs(inner)))
    decreases defs
  {
    if defs.Nil? { return None; }
    var d := defs.head;
    assert allocated(Withs(inner)) && allocated(Nodes(d.e));
    var chosen := match d.kind case Plain => inner case Inherited => outer case InheritedFrom => StaticEnv(null, [], inner);
    ghost var chosenSt := match d.kind
      case Plain => innerSt
      case Inherited => outerSt
      case InheritedFrom => Scope.Env(Scope.Sources(size), innerSt);
    assert Withs(chosen) == Withs(inner);
    r := Bind(d.e, chosen, chosenSt);
    if r.Some? { return; }
    r := BindDefs(defs.tail, inner, innerSt, outer, outerSt, sources, size);
  }

  ghost function SourcesSt(st: Scope.StaticEnv, sources: bool, size: nat): Option<Scope.StaticEnv> {
    if sources then Some(Scope.Env(Scope.Sources(size), st)) else None
  }

  method BindDyn(dyn: List<DynAttr<VarNode, WithNode>>, env: StaticEnv, ghost st: Scope.StaticEnv) returns (r: Option<Scope.BindError>)
    requires IsTreeDyn(dyn) && Fits(NodesDyn(dyn), env, st) && Parsed(Scope.BindDyn(EraseDyn(dyn), st))
    modifies NodesDyn(dyn)
    ensures Agrees(Scope.BindDyn(EraseDyn(dyn), st), r, SnapshotDyn(dyn, Withs(env)))
    decreases dyn
  {
    if dyn.Nil? { return None; }
    assert allocated(Withs(env)) && allocated(Nodes(dyn.head.nameE)) && allocated(Nodes(dyn.head.valueE));
    r := Bind(dyn.head.nameE, env, st);
    if r.Some? { return; }
    r := Bind(dyn.head.valueE, env, st);
    if r.Some? { return; }
    r := BindDyn(dyn.tail, env, st);
  }

  method BindFormals(formals: List<Formal<VarNode, WithNode>>, env: StaticEnv, ghost st: Scope.StaticEnv) returns (r: Option<Scope.BindError>)
    requires IsTreeFormals(formals) && Fits(NodesFormals(formals), env, st) && Parsed(Scope.BindFormals(EraseFormals(formals), st))
    modifies NodesFormals(formals)
    ensures Agrees(Scope.BindFormals(EraseFormals(formals), st), r, SnapshotFormals(formals, Withs(env)))
    decreases formals
  {
    if formals.Nil? { return None; }
    assert allocated(Withs(env)) && allocated(NodesOption(formals.head.def));
    r := BindOption(formals.head.def, env, st);
    if r.Some? { return; }
    r := BindFormals(formals.tail, env, st);
  }
}

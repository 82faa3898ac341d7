/** `bindVars`: from names to (level, displacement) pairs and `with` chains.

    This is the specification the in-place pass of BindVars.dfy is proved against. A tree no
    parser builds (definitions out of name order, a name bound twice by one lambda, an
    `inherit` source read outside its frame) is reported as `NotParsed`. */
module Scope {
  import opened Wrappers
  import opened SortedAttrs
  import opened Syntax

  // What an `ExprWith` node records: the hops from its own frame to that of `parent`.
  datatype WithInfo = WithInfo(prevWith: nat, parent: Option<WithInfo>)

  datatype Addr = Lexical(level: nat, displ: nat) | FromWith(level: nat, node: WithInfo)

  type Named = Expr<(), ()>
  type Bound = Expr<Addr, WithInfo>

  // One static frame; `Sources(n)` holds the n sources of `inherit (src)` and no names.
  datatype Frame = Vars(names: seq<Symbol>) | IsWith(node: WithInfo) | Sources(size: nat)

  datatype StaticEnv = Empty | Env(frame: Frame, up: StaticEnv)

  datatype BindError = Undefined(name: Symbol) | NotParsed

  /** The innermost frame that binds `name`, with no regard to `with`. */
  function FindLexical(name: Symbol, env: StaticEnv): Option<(nat, nat)> {
    match env
    case Empty => None
    case Env(frame, up) =>
      var here := if frame.Vars? then IndexOf(frame.names, name) else None;
      if here.Some? then Some((0, here.value))
      else match FindLexical(name, up)
        case None => None
        case Some((level, displ)) => Some((level + 1, displ))
  }

  /** The innermost `with` frame. */
  function FirstWith(env: StaticEnv): Option<(nat, WithInfo)> {
    match env
    case Empty => None
    case Env(frame, up) =>
      if frame.IsWith? then Some((0, frame.node))
      else match FirstWith(up)
        case None => None
        case Some((level, node)) => Some((level + 1, node))
  }

  function Resolve(name: Symbol, env: StaticEnv): Result<Addr, BindError> {
    match FindLexical(name, env)
    case Some((level, displ)) => Ok(Lexical(level, displ))
    case None =>
      match FirstWith(env)
      case Some((level, node)) => Ok(FromWith(level, node))
      case None => Err(Undefined(name))
  }

  /** What the `with` node whose environment is `env` records. */
  function NodeFor(env: StaticEnv): WithInfo {
    match FirstWith(env)
    case None => WithInfo(0, None)
    case Some((level, node)) => WithInfo(level + 1, Some(node))
  }

  function Bind(e: Named, env: StaticEnv): Result<Bound, BindError>
    decreases e
  {
    match e
    case Lit(c) => Ok(Lit(c))
    case Var(name, _) =>
      var addr :- Resolve(name, env);
      Ok(Var(name, addr))
    case InheritFrom(displ) =>
      if env.Env? && env.frame.Sources? && displ < env.frame.size then Ok(InheritFrom(displ))
      else Err(NotParsed)
    case Select(e1, path, def) =>
      var e1' :- Bind(e1, env);
      var def' :- BindOption(def, env);
      var path' :- BindPath(path, env);
      Ok(Select(e1', path', def'))
    case HasAttr(e1, path) =>
      var e1' :- Bind(e1, env);
      var path' :- BindPath(path, env);
      Ok(HasAttr(e1', path'))
    case Attrs(s) =>
      if !Ascending(DefNames(s.defs)) then Err(NotParsed) else
      var inner := if s.recursive then Env(Vars(DefNames(s.defs)), env) else env;
      var from :- BindList(s.from, inner);
      var defs :- BindDefs(s.defs, inner, env, SourceScope(s.from, inner));
      var dyn :- BindDyn(s.dyn, inner);
      Ok(Attrs(AttrSet(s.recursive, defs, from, dyn)))
    case ListE(elems) =>
      var elems' :- BindList(elems, env);
      Ok(ListE(elems'))
    case Lambda(lam) =>
      if !Distinct(LamNames(lam)) then Err(NotParsed) else
      var lam' :- BindLam(lam, Env(Vars(LamNames(lam)), env));
      Ok(Lambda(lam'))
    case Call(fun, args) =>
      var fun' :- Bind(fun, env);
      var args' :- BindList(args, env);
      Ok(Call(fun', args'))
    case Let(defs, from, body) =>
      if !Ascending(DefNames(defs)) then Err(NotParsed) else
      var inner := Env(Vars(DefNames(defs)), env);
      var from' :- BindList(from, inner);
      var defs' :- BindDefs(defs, inner, env, SourceScope(from, inner));
      var body' :- Bind(body, inner);
      Ok(Let(defs', from', body'))
    case With(_, scope, body) =>
      var node := NodeFor(env);
      var scope' :- Bind(scope, env);
      var body' :- Bind(body, Env(IsWith(node), env));
      Ok(With(node, scope', body'))
    case If(cond, thn, els) =>
      var cond' :- Bind(cond, env);
      var thn' :- Bind(thn, env);
      var els' :- Bind(els, env);
      Ok(If(cond', thn', els'))
    case Assert(cond, body) =>
      var cond' :- Bind(cond, env);
      var body' :- Bind(body, env);
      Ok(Assert(cond', body'))
    case Not(e1) =>
      var e1' :- Bind(e1, env);
      Ok(Not(e1'))
    case BinBool(op, e1, e2) =>
      var e1' :- Bind(e1, env);
      var e2' :- Bind(e2, env);
      Ok(BinBool(op, e1', e2'))
    case Update(e1, e2) =>
      var e1' :- Bind(e1, env);
      var e2' :- Bind(e2, env);
      Ok(Update(e1', e2'))
    case ConcatLists(e1, e2) =>
      var e1' :- Bind(e1, env);
      var e2' :- Bind(e2, env);
      Ok(ConcatLists(e1', e2'))
  }

  function BindOption(e: Option<Named>, env: StaticEnv): Result<Option<Bound>, BindError>
    decreases e
  {
    match e
    case None => Ok(None)
    case Some(e1) =>
      var e1' :- Bind(e1, env);
      Ok(Some(e1'))
  }

  function BindList(es: List<Named>, env: StaticEnv): Result<List<Bound>, BindError>
    decreases es
  {
    match es
    case Nil => Ok(Nil)
    case Cons(e, rest) =>
      var e' :- Bind(e, env);
      var rest' :- BindList(rest, env);
      Ok(Cons(e', rest'))
  }

  function BindPath(path: List<AttrName<(), ()>>, env: StaticEnv): Result<List<AttrName<Addr, WithInfo>>, BindError>
    decreases path
  {
    match path
    case Nil => Ok(Nil)
    case Cons(Static(sym), rest) =>
      var rest' :- BindPath(rest, env);
      Ok(Cons(Static(sym), rest'))
    case Cons(Dynamic(e), rest) =>
      var e' :- Bind(e, env);
      var rest' :- BindPath(rest, env);
      Ok(Cons(Dynamic(e'), rest'))
  }

  /** The static environment of `inherit (src)` definitions, if there are any sources. */
  function SourceScope(from: List<Named>, env: StaticEnv): Option<StaticEnv> {
    if from.Nil? then None else Some(Env(Sources(Length(from)), env))
  }

  /** Plain definitions are bound in `inner`, inherited ones outside, `inherit (src)` ones in `sources`. */
  function BindDefs(defs: List<AttrDef<(), ()>>, inner: StaticEnv, outer: StaticEnv, sources: Option<StaticEnv>)
    : Result<List<AttrDef<Addr, WithInfo>>, BindError>
    decreases defs
  {
    match defs
    case Nil => Ok(Nil)
    case Cons(d, rest) =>
      if d.kind.InheritedFrom? && sources.None? then Err(NotParsed) else
      var e' :- Bind(d.e, match d.kind case Plain => inner case Inherited => outer case InheritedFrom => sources.value);
      var rest' :- BindDefs(rest, inner, outer, sources);
      Ok(Cons(AttrDef(d.name, d.kind, e'), rest'))
  }

  function BindDyn(dyn: List<DynAttr<(), ()>>, env: StaticEnv): Result<List<DynAttr<Addr, WithInfo>>, BindError>
    decreases dyn
  {
    match dyn
    case Nil => Ok(Nil)
    case Cons(d, rest) =>
      var nameE' :- Bind(d.nameE, env);
      var valueE' :- Bind(d.valueE, env);
      var rest' :- BindDyn(rest, env);
      Ok(Cons(DynAttr(nameE', valueE'), rest'))
  }

  function BindLam(lam: Lam<(), ()>, env: StaticEnv): Result<Lam<Addr, WithInfo>, BindError>
    decreases lam
  {
    match lam
    case ArgOnly(arg, body) =>
      var body' :- Bind(body, env);
      Ok(ArgOnly(arg, body'))
    case Pattern(at, formals, ellipsis, body) =>
      var formals' :- BindFormals(formals, env);
      var body' :- Bind(body, env);
      Ok(Pattern(at, formals', ellipsis, body'))
  }

  function BindFormals(formals: List<Formal<(), ()>>, env: StaticEnv): Result<List<Formal<Addr, WithInfo>>, BindError>
    decreases formals
  {
    match formals
    case Nil => Ok(Nil)
    case Cons(f, rest) =>
      var def' :- BindOption(f.def, env);
      var rest' :- BindFormals(rest, env);
      Ok(Cons(Formal(f.name, def'), rest'))
  }
}

/** Abstract syntax of the expression language.

    `V` annotates a variable node and `W` a `with` node. The parser's tree carries no
    annotation; `bindVars` fills in addresses. Strings that are used as attribute names
    are identified with their interned symbol. */
module Syntax {
  import opened Wrappers
  import opened SortedAttrs

  datatype Const = Int(i: int) | Str(sym: Symbol) | Bool(b: bool) | Null

  datatype BoolOp = And | Or | Impl

  datatype AttrName<V, W> = Static(sym: Symbol) | Dynamic(e: Expr<V, W>)

  // `a = e;`, `inherit a;` and `inherit (src) a;`
  datatype Kind = Plain | Inherited | InheritedFrom

  datatype AttrDef<V, W> = AttrDef(name: Symbol, kind: Kind, e: Expr<V, W>)

  datatype DynAttr<V, W> = DynAttr(nameE: Expr<V, W>, valueE: Expr<V, W>)

  datatype Formal<V, W> = Formal(name: Symbol, def: Option<Expr<V, W>>)

  datatype Lam<V, W> =
    | ArgOnly(arg: Symbol, body: Expr<V, W>)
    | Pattern(at: Option<Symbol>, formals: List<Formal<V, W>>, ellipsis: bool, body: Expr<V, W>)

  datatype AttrSet<V, W> = AttrSet(recursive: bool, defs: List<AttrDef<V, W>>, from: List<Expr<V, W>>, dyn: List<DynAttr<V, W>>)

  datatype Expr<V, W> =
    | Lit(c: Const)
    | Var(name: Symbol, addr: V)
    // reads slot `displ` of the environment that holds `inherit (src)` sources
    | InheritFrom(displ: nat)
    | Select(e: Expr<V, W>, path: List<AttrName<V, W>>, def: Option<Expr<V, W>>)
    | HasAttr(e: Expr<V, W>, path: List<AttrName<V, W>>)
    | Attrs(attrs: AttrSet<V, W>)
    | ListE(elems: List<Expr<V, W>>)
    | Lambda(lam: Lam<V, W>)
    | Call(fun: Expr<V, W>, args: List<Expr<V, W>>)
    | Let(defs: List<AttrDef<V, W>>, from: List<Expr<V, W>>, body: Expr<V, W>)
    | With(node: W, scope: Expr<V, W>, body: Expr<V, W>)
    | If(cond: Expr<V, W>, thn: Expr<V, W>, els: Expr<V, W>)
    | Assert(cond: Expr<V, W>, body: Expr<V, W>)
    | Not(e: Expr<V, W>)
    | BinBool(op: BoolOp, e1: Expr<V, W>, e2: Expr<V, W>)
    | Update(e1: Expr<V, W>, e2: Expr<V, W>)
    | ConcatLists(e1: Expr<V, W>, e2: Expr<V, W>)

  function DefNames<V, W>(defs: List<AttrDef<V, W>>): seq<Symbol> {
    match defs
    case Nil => []
    case Cons(d, rest) => [d.name] + DefNames(rest)
  }

  function FormalNames<V, W>(formals: List<Formal<V, W>>): seq<Symbol> {
    match formals
    case Nil => []
    case Cons(f, rest) => [f.name] + FormalNames(rest)
  }

  /** The names a lambda binds, in the order of their displacements. */
  function LamNames<V, W>(lam: Lam<V, W>): seq<Symbol> {
    match lam
    case ArgOnly(arg, _) => [arg]
    case Pattern(at, formals, _, _) =>
      (match at case None => [] case Some(a) => [a]) + FormalNames(formals)
  }

  /** Position of the first occurrence of `x`. */
  function IndexOf(xs: seq<Symbol>, x: Symbol): (r: Option<nat>)
    ensures r.Some? ==> r.value < |xs| && xs[r.value] == x
    ensures r.None? ==> x !in xs
  {
    if xs == [] then None
    else if xs[0] == x then Some(0)
    else match IndexOf(xs[1..], x)
      case None => None
      case Some(i) => Some(i + 1)
  }

  predicate Distinct(xs: seq<Symbol>) {
    forall i, j :: 0 <= i < j < |xs| ==> xs[i] != xs[j]
  }

  lemma IndexOfDistinct(names: seq<Symbol>, d: nat)
    requires Distinct(names) && d < |names|
    ensures IndexOf(names, names[d]) == Some(d)
  {
    var r := IndexOf(names, names[d]);
    assert names[r.value] == names[d];
  }

  /** The environment that a definition of this kind is evaluated in. */
  function DefEnv(kind: Kind, inner: nat, outer: nat, sources: nat): nat {
    match kind case Plain => inner case Inherited => outer case InheritedFrom => sources
  }
}

/** What can be seen of a result: its head, or the head of any part of it, found by going
    down into lists and attribute sets and forcing on the way. */
module Observation {
  import opened Wrappers
  import opened SortedAttrs
  import opened Syntax
  import opened Machine
  import opened NamedEval
  import opened AddressedEval

  datatype Pick = Elem(index: nat) | Field(name: Symbol)

  datatype Seen =
    | Constant(c: Const)
    | AListOf(len: nat)
    | ASetOf(names: seq<Symbol>)
    | AFunction
    | NothingThere
    | Failed(err: EvalError)
    | Unfinished

  function NamesOf(attrs: seq<Attr<nat>>): seq<Symbol> {
    if attrs == [] then [] else [attrs[0].name] + NamesOf(attrs[1..])
  }

  function Head<V, W>(v: Value<V, W>): Seen {
    match v
    case Data(c) => Constant(c)
    case ListV(elems) => AListOf(|elems|)
    case AttrsV(attrs) => ASetOf(NamesOf(attrs))
    case Closure(_, _) => AFunction
  }

  function Part<V, W>(v: Value<V, W>, p: Pick): Option<nat> {
    match p
    case Elem(i) => if v.ListV? && i < |v.elems| then Some(v.elems[i]) else None
    case Field(name) => if v.AttrsV? then Get(v.attrs, name) else None
  }

  function LookN(picks: seq<Pick>, n: nat, r: Out<NValue, NState>): Seen {
    match r
    case OutOfFuel => Unfinished
    case Raised(err) => Failed(err)
    case Done(v, s) =>
      if picks == [] then Head(v) else
      match Part(v, picks[0])
      case None => NothingThere
      case Some(c) => LookN(picks[1..], n, ForceN(n, c, s))
  }

  function LookA(picks: seq<Pick>, n: nat, r: Out<AValue, AState>): Seen {
    match r
    case OutOfFuel => Unfinished
    case Raised(err) => Failed(err)
    case Done(v, s) =>
      if picks == [] then Head(v) else
      match Part(v, picks[0])
      case None => NothingThere
      case Some(c) => LookA(picks[1..], n, ForceA(n, c, s))
  }
}

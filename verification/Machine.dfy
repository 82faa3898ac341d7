/** Values, heap cells and evaluation outcomes, for both evaluators.

    A cell is a `Value`: a suspended expression, a black hole while it is being forced, or
    a result. `F` is the type of run-time environments. */
module Machine {
  import opened Wrappers
  import opened SortedAttrs
  import opened Syntax

  datatype Value<V, W> =
    | Data(c: Const)
    | ListV(elems: seq<nat>)
    | AttrsV(attrs: seq<Attr<nat>>)
    | Closure(lam: Lam<V, W>, env: nat)

  datatype Cell<V, W> = Thunk(e: Expr<V, W>, env: nat) | BlackHole | Val(v: Value<V, W>)

  // `reuse` says whether `maybeThunk` may hand out a value that exists already. It is on in the
  // evaluator; a run without it suspends every expression.
  datatype State<V, W, F> = State(cells: seq<Cell<V, W>>, envs: seq<F>, reuse: bool)

  datatype EvalError =
    | UndefinedVar(name: Symbol)
    | TypeError
    | MissingAttr(name: Symbol)
    | AssertFailed
    | InfiniteRecursion
    | DuplicateAttr(name: Symbol)
    | MissingArg(name: Symbol)
    | UnexpectedArg(name: Symbol)
    // a dangling address, an empty slot or a branch marked unreachable
    | Stuck

  datatype Out<+T, +S> = Done(v: T, s: S) | Raised(err: EvalError) | OutOfFuel {
    predicate IsFailure() { !Done? }

    function PropagateFailure<U>(): Out<U, S>
      requires IsFailure()
    {
      if Raised? then Raised(err) else OutOfFuel
    }

    function Extract(): (T, S)
      requires !IsFailure()
    {
      (v, s)
    }
  }

  // What a selection has reached: a value at hand, or a cell still to be forced.
  datatype Target<V, W> = Direct(v: Value<V, W>) | At(cell: nat)

  const OVERRIDES: Symbol := 0
  const FUNCTOR: Symbol := 1

  function Alloc<V, W, F>(c: Cell<V, W>, s: State<V, W, F>): (nat, State<V, W, F>) {
    (|s.cells|, s.(cells := s.cells + [c]))
  }

  /** The first attribute that is no formal argument. */
  function FirstUnexpected(attrs: seq<Attr<nat>>, formals: seq<Symbol>): Option<Symbol> {
    if attrs == [] then None
    else if attrs[0].name !in formals then Some(attrs[0].name)
    else FirstUnexpected(attrs[1..], formals)
  }
}

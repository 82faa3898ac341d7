/** `callFunction`: one loop that applies lambdas, primops, partial applications and functors
    to a batch of arguments. It must do what applying one argument after the other does. */
module Application {
  import opened Wrappers

  // `Delayed` is a value not evaluated yet; `Set` is an attribute set with its `__functor`.
  datatype Value =
    | Lam(id: nat)
    | Prim(id: nat)
    | PrimApp(left: Value, right: Value)
    | Set(functor: Option<Value>)
    | Delayed(id: nat)
    | Other(x: int)

  datatype CallError = TypeError | StackOverflow | Failed(code: int)

  // Lambda bodies, primops and thunks, seen from the caller.
  datatype Machine = Machine(
    arity: nat -> nat,
    applyLam: (nat, Value) -> Result<Value, CallError>,
    runPrim: (nat, seq<Value>) -> Result<Value, CallError>,
    force: nat -> Result<Value, CallError>)

  function Force(m: Machine, v: Value): Result<Value, CallError> {
    if v.Delayed? then m.force(v.id) else Ok(v)
  }

  function Root(v: Value): Value {
    if v.PrimApp? then Root(v.left) else v
  }

  /** The arguments collected in a partial application, in order. */
  function Collected(v: Value): seq<Value> {
    if v.PrimApp? then Collected(v.left) + [v.right] else []
  }

  /** A partial application holds more than 0 and fewer than arity arguments. */
  predicate ChainOk(m: Machine, v: Value) {
    && (v.PrimApp? ==> Root(v).Prim? && 0 < |Collected(v)| < m.arity(Root(v).id))
    && (v.Set? && v.functor.Some? ==> ChainOk(m, v.functor.value))
  }

  ghost predicate WellBehaved(m: Machine) {
    && (forall id :: m.arity(id) > 0)
    && (forall id, a :: m.applyLam(id, a).Ok? ==> ChainOk(m, m.applyLam(id, a).value))
    && (forall id, xs :: m.runPrim(id, xs).Ok? ==> ChainOk(m, m.runPrim(id, xs).value))
    && (forall id :: m.force(id).Ok? ==> ChainOk(m, m.force(id).value) && !m.force(id).value.Delayed?)
  }

  /** Applying one argument. */
  function Apply(depth: nat, m: Machine, f: Value, a: Value): Result<Value, CallError>
    decreases depth, 1, 0
  {
    match f
    case Lam(id) => m.applyLam(id, a)
    case Prim(id) => if m.arity(id) == 1 then m.runPrim(id, [a]) else Ok(PrimApp(f, a))
    case PrimApp(_, _) =>
      if !Root(f).Prim? then Err(TypeError)
      else if |Collected(f)| + 1 == m.arity(Root(f).id) then m.runPrim(Root(f).id, Collected(f) + [a])
      else Ok(PrimApp(f, a))
    case Set(Some(functor)) => if depth == 0 then Err(StackOverflow) else Call(depth - 1, m, functor, [f, a])
    case _ => Err(TypeError)
  }

  function ApplyAll(depth: nat, m: Machine, f: Value, args: seq<Value>): Result<Value, CallError>
    decreases depth, 2, |args|
  {
    if args == [] then Ok(f) else
    var g :- Apply(depth, m, f, args[0]);
    ApplyAll(depth, m, g, args[1..])
  }

  /** A call is forcing the function and applying one argument after the other; `depth`
      counts the calls left before the call-depth limit. */
  function Call(depth: nat, m: Machine, f: Value, args: seq<Value>): Result<Value, CallError>
    decreases depth, 3
  {
    if depth == 0 then Err(StackOverflow) else
    var g :- Force(m, f);
    ApplyAll(depth, m, g, args)
  }

  /** A set with a lambda as its functor is a function of two arguments: the lambda gets the
      set itself, and what that gives gets the argument. */
  lemma FunctorGetsSetFirst(depth: nat, m: Machine, f: nat, a: Value)
    requires depth > 1
    ensures var set0 := Set(Some(Lam(f)));
      Call(depth, m, set0, [a]) ==
        match m.applyLam(f, set0)
        case Ok(Lam(g)) => m.applyLam(g, a)
        case Ok(h) => Apply(depth - 1, m, h, a)
        case Err(e) => Err(e)
  {
    var set0 := Set(Some(Lam(f)));
    OneArgument(depth, m, set0, a);
    assert Call(depth, m, set0, [a]) == Apply(depth, m, set0, a);
    LambdaOnTwo(depth - 1, m, f, set0, a);
  }

  lemma LambdaOnTwo(depth: nat, m: Machine, f: nat, a: Value, b: Value)
    requires depth > 0
    ensures var r := m.applyLam(f, a); Call(depth, m, Lam(f), [a, b]) == if r.Ok? then Apply(depth, m, r.value, b) else r
  {
    var r := m.applyLam(f, a);
    assert [a, b][1..] == [b];
    assert ApplyAll(depth, m, Lam(f), [a, b]) == if r.Ok? then ApplyAll(depth, m, r.value, [b]) else r;
    if r.Ok? { OneArgument(depth, m, r.value, b); }
  }

  lemma OneArgument(depth: nat, m: Machine, f: Value, a: Value)
    ensures ApplyAll(depth, m, f, [a]) == Apply(depth, m, f, a)
  {
    var g := Apply(depth, m, f, a);
    if g.Ok? { assert ApplyAll(depth, m, g.value, [a][1..]) == g; }
  }

  /** `makeAppChain` */
  function AppChain(f: Value, args: seq<Value>): Value
    decreases |args|
  {
    if args == [] then f else AppChain(PrimApp(f, args[0]), args[1..])
  }

  ghost predicate Partial(m: Machine, f: Value) {
    Root(f).Prim? && |Collected(f)| < m.arity(Root(f).id)
  }

  /** Too few arguments only extend the chain. */
  lemma {:induction false} TooFew(depth: nat, m: Machine, f: Value, args: seq<Value>)
    requires Partial(m, f) && |Collected(f)| + |args| < m.arity(Root(f).id)
    ensures ApplyAll(depth, m, f, args) == Ok(AppChain(f, args))
    ensures Partial(m, AppChain(f, args)) && (args != [] ==> ChainOk(m, AppChain(f, args)) && AppChain(f, args).PrimApp?)
    decreases |args|
  {
    if args != [] {
      TooFew(depth, m, PrimApp(f, args[0]), args[1..]);
      if |args| == 1 { assert args[1..] == []; }
    }
  }

  /** Enough arguments run the primop, with its arguments in order. */
  lemma {:induction false} Enough(depth: nat, m: Machine, f: Value, args: seq<Value>, k: nat)
    requires Partial(m, f) && |Collected(f)| + k == m.arity(Root(f).id) && k <= |args|
    ensures ApplyAll(depth, m, f, args) ==
      match m.runPrim(Root(f).id, Collected(f) + args[..k])
      case Ok(v) => ApplyAll(depth, m, v, args[k..])
      case Err(e) => Err(e)
    decreases k
  {
    if k == 1 {
      assert args[..1] == [args[0]];
      assert Collected(f) == [] ==> Collected(f) + [args[0]] == [args[0]];
    } else {
      Enough(depth, m, PrimApp(f, args[0]), args[1..], k - 1);
      assert args[1..][k - 1..] == args[k..];
      assert Collected(PrimApp(f, args[0])) + args[1..][..k - 1] == Collected(f) + args[..k];
    }
  }

  /** Counts the collected arguments and finds the primop. */
  method Unwind(f: Value) returns (argsDone: nat, primOp: Value)
    ensures argsDone == |Collected(f)| && primOp == Root(f)
  {
    argsDone, primOp := 0, f;
    while primOp.PrimApp?
      invariant argsDone + |Collected(primOp)| == |Collected(f)| && Root(primOp) == Root(f)
      decreases primOp
    {
      argsDone := argsDone + 1;
      primOp := primOp.left;
    }
  }

  /** The argument vector, filled from the back with what the chain holds. */
  method Arguments(f: Value, argsDone: nat, args: seq<Value>) returns (vArgs: seq<Value>)
    requires argsDone == |Collected(f)|
    ensures vArgs == Collected(f) + args
  {
    var v := new Value[argsDone + |args|](_ => f);
    var n, arg := argsDone, f;
    while arg.PrimApp?
      invariant 0 <= n <= argsDone && Collected(arg) == Collected(f)[..n]
      invariant forall i :: n <= i < argsDone ==> v[i] == Collected(f)[i]
      decreases arg
    {
      n := n - 1;
      assert Collected(arg)[n] == arg.right;
      assert Collected(arg.left) == Collected(arg)[..n];
      v[n] := arg.right;
      arg := arg.left;
    }
    var i := 0;
    while i < |args|
      invariant 0 <= i <= |args|
      invariant forall j :: 0 <= j < argsDone ==> v[j] == Collected(f)[j]
      invariant forall j :: 0 <= j < i ==> v[argsDone + j] == args[j]
    {
      v[argsDone + i] := args[i];
      i := i + 1;
    }
    vArgs := v[..];
  }

  method CallFunction(depth: nat, m: Machine, f: Value, args: seq<Value>) returns (r: Result<Value, CallError>)
    requires WellBehaved(m) && ChainOk(m, f)
    ensures r == Call(depth, m, f, args)
    ensures r.Ok? ==> ChainOk(m, r.value)
    decreases depth
  {
    if depth == 0 { return Err(StackOverflow); }
    var forced := Force(m, f);
    if forced.Err? { return Err(forced.error); }
    var vCur, rest := forced.value, args;
    while rest != []
      invariant ChainOk(m, vCur)
      invariant ApplyAll(depth, m, vCur, rest) == Call(depth, m, f, args)
      decreases |rest|
    {
      var step: Result<Value, CallError>;
      var taken := 1;
      if vCur.Lam? {
        step := m.applyLam(vCur.id, rest[0]);
      } else if vCur.Prim? || vCur.PrimApp? {
        var argsDone, primOp := Unwind(vCur);
        var argsLeft := m.arity(primOp.id) - argsDone;
        if |rest| < argsLeft {
          TooFew(depth, m, vCur, rest);
          return Ok(AppChain(vCur, rest));
        }
        Enough(depth, m, vCur, rest, argsLeft);
        var vArgs := Arguments(vCur, argsDone, rest[..argsLeft]);
        step := m.runPrim(primOp.id, vArgs);
        taken := argsLeft;
      } else if vCur.Set? && vCur.functor.Some? {
        step := FunctorStep(depth, m, vCur, rest[0]);
      } else {
        step := Err(TypeError);
      }
      if step.Err? { return Err(step.error); }
      vCur, rest := step.value, rest[taken..];
    }
    return Ok(vCur);
  }

  method FunctorStep(depth: nat, m: Machine, f: Value, a: Value) returns (r: Result<Value, CallError>)
    requires WellBehaved(m) && ChainOk(m, f) && depth > 0 && f.Set? && f.functor.Some?
    ensures r == Apply(depth, m, f, a)
    ensures r.Ok? ==> ChainOk(m, r.value)
    decreases depth, 0
  {
    r := CallFunction(depth - 1, m, f.functor.value, [f, a]);
  }

  lemma {:induction false} ApplyAllSplits(depth: nat, m: Machine, f: Value, xs: seq<Value>, ys: seq<Value>)
    ensures ApplyAll(depth, m, f, xs + ys) ==
      match ApplyAll(depth, m, f, xs) case Ok(g) => ApplyAll(depth, m, g, ys) case Err(e) => Err(e)
    decreases |xs|
  {
    if xs == [] {
      assert xs + ys == ys;
    } else {
      assert (xs + ys)[1..] == xs[1..] + ys;
      if Apply(depth, m, f, xs[0]).Ok? {
        ApplyAllSplits(depth, m, Apply(depth, m, f, xs[0]).value, xs[1..], ys);
      }
    }
  }

  /** Splitting the arguments makes no difference when what the first part yields is
      evaluated. When it is not, the batch fails on the remaining arguments. */
  lemma CallsSplit(depth: nat, m: Machine, f: Value, xs: seq<Value>, ys: seq<Value>)
    ensures Call(depth, m, f, xs).Err? ==> Call(depth, m, f, xs + ys) == Call(depth, m, f, xs)
    ensures Call(depth, m, f, xs).Ok? && !Call(depth, m, f, xs).value.Delayed? ==>
      Call(depth, m, f, xs + ys) == Call(depth, m, Call(depth, m, f, xs).value, ys)
    ensures Call(depth, m, f, xs).Ok? && Call(depth, m, f, xs).value.Delayed? && ys != [] ==>
      Call(depth, m, f, xs + ys) == Err(TypeError)
  {
    if depth > 0 && Force(m, f).Ok? { ApplyAllSplits(depth, m, Force(m, f).value, xs, ys); }
  }

  /** Lambda bodies and primops return evaluated values. */
  ghost predicate Evaluates(m: Machine) {
    && (forall id, a :: Evaluated(m.applyLam(id, a)))
    && (forall id, xs :: |xs| == m.arity(id) ==> Evaluated(m.runPrim(id, xs)))
  }

  predicate Evaluated(r: Result<Value, CallError>) {
    r.Ok? ==> !r.value.Delayed?
  }

  /** Forcing a value yields an evaluated one, and every primop takes arguments. */
  ghost predicate Forces(m: Machine) {
    (forall id :: Evaluated(m.force(id))) && forall id :: m.arity(id) > 0
  }

  ghost predicate Splits(depth: nat, m: Machine, f: Value, xs: seq<Value>, ys: seq<Value>) {
    Call(depth, m, f, xs + ys) == match Call(depth, m, f, xs) case Ok(g) => Call(depth, m, g, ys) case Err(e) => Err(e)
  }

  lemma {:induction false} ApplyEvaluates(depth: nat, m: Machine, f: Value, a: Value)
    requires Evaluates(m) && Forces(m)
    ensures Evaluated(Apply(depth, m, f, a))
    decreases depth, 1, 0
  {
    if f.Set? && f.functor.Some? && depth > 0 { CallEvaluates(depth - 1, m, f.functor.value, [f, a]); }
  }

  lemma {:induction false} ApplyAllEvaluates(depth: nat, m: Machine, f: Value, args: seq<Value>)
    requires Evaluates(m) && Forces(m) && !f.Delayed?
    ensures Evaluated(ApplyAll(depth, m, f, args))
    decreases depth, 2, |args|
  {
    if args != [] {
      ApplyEvaluates(depth, m, f, args[0]);
      var g := Apply(depth, m, f, args[0]);
      if g.Ok? { ApplyAllEvaluates(depth, m, g.value, args[1..]); }
    }
  }

  lemma {:induction false} CallEvaluates(depth: nat, m: Machine, f: Value, args: seq<Value>)
    requires Evaluates(m) && Forces(m)
    ensures Evaluated(Call(depth, m, f, args))
    decreases depth, 3
  {
    if depth > 0 && Force(m, f).Ok? { ApplyAllEvaluates(depth, m, Force(m, f).value, args); }
  }

  /** Calls split, for every function and every arguments, if and only if lambda bodies and
      primops return evaluated values. */
  lemma CallsSplitExactlyWhenEvaluated(m: Machine)
    requires Forces(m)
    ensures Evaluates(m) <==> forall depth, f, xs, ys :: Splits(depth, m, f, xs, ys)
  {
    if Evaluates(m) {
      forall depth: nat, f, xs, ys ensures Splits(depth, m, f, xs, ys) {
        CallEvaluates(depth, m, f, xs);
        CallsSplit(depth, m, f, xs, ys);
      }
    }
    if forall depth, f, xs, ys :: Splits(depth, m, f, xs, ys) {
      forall id, a ensures Evaluated(m.applyLam(id, a)) {
        assert [a][1..] == [] && [a] + [] == [a];
        assert Call(1, m, Lam(id), [a]) == m.applyLam(id, a);
        SplitsEmpty(m, Lam(id), [a]);
      }
      forall id, xs | |xs| == m.arity(id) ensures Evaluated(m.runPrim(id, xs)) {
        Enough(1, m, Prim(id), xs, |xs|);
        assert xs[..|xs|] == xs && xs[|xs|..] == [] && [] + xs == xs;
        assert Call(1, m, Prim(id), xs) == m.runPrim(id, xs);
        SplitsEmpty(m, Prim(id), xs);
      }
    }
  }

  /** Calling the result once more with no arguments forces it. */
  lemma SplitsEmpty(m: Machine, f: Value, xs: seq<Value>)
    requires Forces(m) && Splits(1, m, f, xs, [])
    ensures Evaluated(Call(1, m, f, xs))
  {
    assert xs + [] == xs;
    var r := Call(1, m, f, xs);
    if r.Ok? {
      assert Call(1, m, r.value, []) == r;
      if r.value.Delayed? { assert Force(m, r.value) == m.force(r.value.id); }
    }
  }

  /** A primop that returns an unevaluated application tells the two apart. */
  lemma DelayedResultDiffers(a: Value)
    ensures
      var m := Machine(id => 1, (id, x) => Ok(x), (id, xs) => Ok(Delayed(0)), id => Ok(Lam(0)));
      && Call(1, m, Prim(0), [a] + [a]) == Err(TypeError)
      && Call(1, m, Prim(0), [a]) == Ok(Delayed(0))
      && Call(1, m, Delayed(0), [a]) == Ok(a)
  {
    var m := Machine(id => 1, (id, x) => Ok(x), (id, xs) => Ok(Delayed(0)), id => Ok(Lam(0)));
    assert [a][1..] == [];
    assert ApplyAll(1, m, Delayed(0), []) == Ok(Delayed(0));
    assert Call(1, m, Prim(0), [a]) == Ok(Delayed(0));
    CallsSplit(1, m, Prim(0), [a], [a]);
    assert ApplyAll(1, m, Lam(0), [a]) == Ok(a);
  }
}

/** The other half of the soundness of reuse: whenever the reusing run ends, so does the run
    that suspends every expression, given enough fuel. Chains of suspended variables are
    finite, because each names a cell allocated earlier. */
module SharingEnds {
  import opened Wrappers
  import opened SortedAttrs
  import opened Syntax
  import opened Scope
  import opened Machine
  import opened AddressedEval
  import opened FuelMono
  import opened Sharing
  import opened SharingSim

  function Max(i: nat, j: nat): nat {
    if i < j then j else i
  }

  /** With some fuel, at least `n`, the plain run ends, and as the reusing run does with `n`. */
  ghost predicate Meets<T(!new)>(n: nat, m: nat, k: Link, k': Link, t: AState, rt: Out<T, AState>, rs: Out<T, AState>) {
    n <= m && !rt.OutOfFuel? && Same(k, k', t, rt, rs)
  }

  ghost predicate MeetsValue(n: nat, m: nat, k: Link, k': Link, t: AState, rt: Out<AValue, AState>, rs: Out<AValue, AState>) {
    n <= m && !rt.OutOfFuel? && SameValue(k, k', t, rt, rs)
  }

  // ---- forcing ----

  lemma EndsForce(n: nat, a: nat, pending: set<nat>, k: Link, t: AState, s: AState) returns (m: nat)
    requires Rel(k, t, s, pending) && a < |t.cells| && Waiting(k, t, pending, a)
    requires !ForceA(n, k.rho[a], s).OutOfFuel?
    ensures n <= m && !ForceA(m, a, t).OutOfFuel?
    decreases n, 1, a
  {
    m := n;
    assert CellRel(k, t.envs, a, t.cells[a], s.cells[k.rho[a]]);
    if t.cells[a].Thunk? {
      var e, env := t.cells[a].e, t.cells[a].env;
      if IsAlias(k, t.envs, a, e, env) {
        var c := Shared(e, env, t.envs).value;
        OpenAlias(k, t, s, pending, a, c);
        var m1 := EndsForce(n, c, pending + {a}, k, Open(a, t), s);
        m := m1 + 2;
        AliasForce(m, a, t, e, env, c);
      } else if s.cells[k.rho[a]].Thunk? {
        m := EndsThunk(n, a, pending, k, t, s);
      } else {
        m := Max(n, 2);
      }
    }
  }

  lemma EndsThunk(n: nat, a: nat, pending: set<nat>, k: Link, t: AState, s: AState) returns (m: nat)
    requires Rel(k, t, s, pending) && a < |t.cells| && Waiting(k, t, pending, a)
    requires t.cells[a].Thunk? && s.cells[k.rho[a]] == t.cells[a] && k.root[k.rho[a]] == a && Clean(t.cells[a].e)
    requires !ForceA(n, k.rho[a], s).OutOfFuel?
    ensures n <= m && !ForceA(m, a, t).OutOfFuel?
    decreases n, 0
  {
    OpenBoth(k, t, s, pending, a);
    var m1 := EndsEval(n - 1, t.cells[a].e, t.cells[a].env, k, Open(a, t), Open(k.rho[a], s));
    m := m1 + 1;
  }

  lemma MeetCell(n: nat, a: nat, k: Link, t: AState, s: AState) returns (m: nat, k': Link)
    requires Rel(k, t, s, {}) && a < |t.cells| && !ForceA(n, k.rho[a], s).OutOfFuel?
    ensures MeetsValue(n, m, k, k', t, ForceA(m, a, t), ForceA(n, k.rho[a], s))
    decreases n, 2
  {
    m := EndsForce(n, a, {}, k, t, s);
    k' := SimCell(m, a, k, t, s);
    MoreForce(n, m, k.rho[a], s);
  }

  // ---- expressions ----

  lemma MeetEval(n: nat, e: Bound, env: nat, k: Link, t: AState, s: AState) returns (m: nat, k': Link)
    requires Rel(k, t, s, {}) && Clean(e) && !EvalA(n, e, env, s).OutOfFuel?
    ensures MeetsValue(n, m, k, k', t, EvalA(m, e, env, t), EvalA(n, e, env, s))
    decreases n, 1
  {
    m := EndsEval(n, e, env, k, t, s);
    k' := SimEval(m, e, env, k, t, s);
    MoreEval(n, m, e, env, s);
  }

  lemma EndsEval(n: nat, e: Bound, env: nat, k: Link, t: AState, s: AState) returns (m: nat)
    requires Rel(k, t, s, {}) && Clean(e) && !EvalA(n, e, env, s).OutOfFuel?
    ensures n <= m && !EvalA(m, e, env, t).OutOfFuel?
    decreases n, 0, 2
  {
    m := n;
    match e
    case Lit(_) =>
    case Lambda(_) =>
    case ListE(_) =>
    case Var(_, _) => m := EndsVar(n, e, env, k, t, s);
    case InheritFrom(_) => m := EndsInherit(n, e, env, k, t, s);
    case Select(_, _, _) => m := EndsSelectE(n, e, env, k, t, s);
    case HasAttr(_, _) => m := EndsHasAttrE(n, e, env, k, t, s);
    case Attrs(attrs) => m := EndsAttrs(n - 1, attrs, env, k, t, s); m := m + 1;
    case Call(_, _) => m := EndsCallE(n, e, env, k, t, s);
    case Let(_, _, _) => m := EndsLet(n, e, env, k, t, s);
    case With(_, _, _) => m := EndsLet(n, e, env, k, t, s);
    case If(_, _, _) => m := EndsCond(n, e, env, k, t, s);
    case Assert(_, _) => m := EndsCond(n, e, env, k, t, s);
    case _ => m := EndsOperator(n, e, env, k, t, s);
  }

  lemma EndsOperator(n: nat, e: Bound, env: nat, k: Link, t: AState, s: AState) returns (m: nat)
    requires Rel(k, t, s, {}) && Clean(e) && (e.Not? || e.BinBool? || e.Update? || e.ConcatLists?) && !EvalA(n, e, env, s).OutOfFuel?
    ensures n <= m && !EvalA(m, e, env, t).OutOfFuel?
    decreases n, 0, 1
  {
    match e
    case Not(e1) =>
      var m1, _ := MeetBool(n - 1, e1, env, k, t, s);
      m := m1 + 1;
    case BinBool(_, _, _) => m := EndsBinBool(n, e, env, k, t, s);
    case Update(_, _) => m := EndsUpdate(n, e, env, k, t, s);
    case ConcatLists(_, _) => m := EndsConcat(n, e, env, k, t, s);
  }

  lemma EndsInherit(n: nat, e: Bound, env: nat, k: Link, t: AState, s: AState) returns (m: nat)
    requires Rel(k, t, s, {}) && e.InheritFrom? && !EvalA(n, e, env, s).OutOfFuel?
    ensures n <= m && !EvalA(m, e, env, t).OutOfFuel?
    decreases n, 0, 0
  {
    m := n;
    SlotSame(k.rho, t.envs, s.envs, env, 0, e.displ);
    var slot := Slot(t.envs, env, 0, e.displ);
    if slot.Some? {
      var m1, _ := MeetCell(n - 1, slot.value, k, t, s);
      m := m1 + 1;
    }
  }

  /** A variable: what it denotes, forced. */
  function VarA(n: nat, e: Bound, env: nat, t: AState): Out<AValue, AState>
    requires e.Var?
  {
    var (c, t1) :- LookupVar(n, e.name, e.addr, env, t);
    ForceA(n, c, t1)
  }

  lemma EndsVarA(n: nat, e: Bound, env: nat, k: Link, t: AState, s: AState) returns (m: nat)
    requires Rel(k, t, s, {}) && e.Var? && !VarA(n, e, env, s).OutOfFuel?
    ensures n <= m && !VarA(m, e, env, t).OutOfFuel?
    decreases n, 6
  {
    var m1, k1 := MeetLookup(n, e.name, e.addr, env, k, t, s);
    var rt, rs := LookupVar(m1, e.name, e.addr, env, t), LookupVar(n, e.name, e.addr, env, s);
    m := m1;
    if rt.Done? {
      var m2 := EndsForce(n, rt.v, {}, k1, rt.s, rs.s);
      m := Max(m1, m2);
      MoreLookup(m1, m, e.name, e.addr, env, t);
      MoreForce(m2, m, rt.v, rt.s);
    }
  }

  lemma EndsVar(n: nat, e: Bound, env: nat, k: Link, t: AState, s: AState) returns (m: nat)
    requires Rel(k, t, s, {}) && e.Var? && !EvalA(n, e, env, s).OutOfFuel?
    ensures n <= m && !EvalA(m, e, env, t).OutOfFuel?
    decreases n, 0, 0
  {
    assert EvalA(n, e, env, s) == VarA(n - 1, e, env, s);
    m := EndsVarA(n - 1, e, env, k, t, s);
    m := m + 1;
    assert EvalA(m, e, env, t) == VarA(m - 1, e, env, t);
  }

  lemma EndsSelectE(n: nat, e: Bound, env: nat, k: Link, t: AState, s: AState) returns (m: nat)
    requires Rel(k, t, s, {}) && Clean(e) && e.Select? && !EvalA(n, e, env, s).OutOfFuel?
    ensures n <= m && !EvalA(m, e, env, t).OutOfFuel?
    decreases n, 0, 0
  {
    var m1, k1 := MeetEval(n - 1, e.e, env, k, t, s);
    var rt, rs := EvalA(m1, e.e, env, t), EvalA(n - 1, e.e, env, s);
    m := m1 + 1;
    if rt.Done? {
      var m2 := EndsSelect(n - 1, Direct(rt.v), Direct(rs.v), e.path, e.def, env, k1, rt.s, rs.s);
      m := Max(m1, m2) + 1;
      MoreSelect(m2, m - 1, Direct(rt.v), e.path, e.def, env, rt.s);
      MoreEval(m1, m - 1, e.e, env, t);
    }
  }

  lemma EndsHasAttrE(n: nat, e: Bound, env: nat, k: Link, t: AState, s: AState) returns (m: nat)
    requires Rel(k, t, s, {}) && Clean(e) && e.HasAttr? && !EvalA(n, e, env, s).OutOfFuel?
    ensures n <= m && !EvalA(m, e, env, t).OutOfFuel?
    decreases n, 0, 0
  {
    var m1, k1 := MeetEval(n - 1, e.e, env, k, t, s);
    var rt, rs := EvalA(m1, e.e, env, t), EvalA(n - 1, e.e, env, s);
    m := m1 + 1;
    if rt.Done? {
      var m2 := EndsHasAttr(n - 1, Direct(rt.v), Direct(rs.v), e.path, env, k1, rt.s, rs.s);
      m := Max(m1, m2) + 1;
      MoreHasAttr(m2, m - 1, Direct(rt.v), e.path, env, rt.s);
      MoreEval(m1, m - 1, e.e, env, t);
    }
  }

  /** A call: the function, then its suspended arguments. */
  function CallEA(n: nat, e: Bound, env: nat, t: AState): Out<AValue, AState>
    requires e.Call?
  {
    var (f, t1) :- EvalA(n, e.fun, env, t);
    var (cs, t2) := ThunksA(e.args, env, t1);
    CallA(n, f, cs, t2)
  }

  lemma EndsArgs(n: nat, args: List<Bound>, env: nat, f: AValue, g: AValue, k: Link, t: AState, s: AState) returns (m: nat)
    requires Rel(k, t, s, {}) && CleanList(args) && ValRel(k.rho, f, g)
    requires !CallA(n, g, ThunksA(args, env, s).0, ThunksA(args, env, s).1).OutOfFuel?
    ensures n <= m && !CallA(m, f, ThunksA(args, env, t).0, ThunksA(args, env, t).1).OutOfFuel?
    decreases n, 5
  {
    var k1 := ThunksBoth(args, env, k, t, s);
    ValGrows(k.rho, k1.rho, f, g);
    m := EndsCall(n, f, g, ThunksA(args, env, t).0, ThunksA(args, env, s).0, k1, ThunksA(args, env, t).1, ThunksA(args, env, s).1);
  }

  lemma EndsCallEA(n: nat, e: Bound, env: nat, k: Link, t: AState, s: AState) returns (m: nat)
    requires Rel(k, t, s, {}) && Clean(e) && e.Call? && !CallEA(n, e, env, s).OutOfFuel?
    ensures n <= m && !CallEA(m, e, env, t).OutOfFuel?
    decreases n, 6
  {
    var m1, k1 := MeetEval(n, e.fun, env, k, t, s);
    var rt, rs := EvalA(m1, e.fun, env, t), EvalA(n, e.fun, env, s);
    m := m1;
    if rt.Done? {
      var m2 := EndsArgs(n, e.args, env, rt.v, rs.v, k1, rt.s, rs.s);
      m := Max(m1, m2);
      MoreEval(m1, m, e.fun, env, t);
      MoreCall(m2, m, rt.v, ThunksA(e.args, env, rt.s).0, ThunksA(e.args, env, rt.s).1);
    }
  }

  lemma EndsCallE(n: nat, e: Bound, env: nat, k: Link, t: AState, s: AState) returns (m: nat)
    requires Rel(k, t, s, {}) && Clean(e) && e.Call? && !EvalA(n, e, env, s).OutOfFuel?
    ensures n <= m && !EvalA(m, e, env, t).OutOfFuel?
    decreases n, 0, 0
  {
    assert EvalA(n, e, env, s) == CallEA(n - 1, e, env, s);
    m := EndsCallEA(n - 1, e, env, k, t, s);
    m := m + 1;
    assert EvalA(m, e, env, t) == CallEA(m - 1, e, env, t);
  }

  lemma EndsLet(n: nat, e: Bound, env: nat, k: Link, t: AState, s: AState) returns (m: nat)
    requires Rel(k, t, s, {}) && Clean(e) && (e.Let? || e.With?) && !EvalA(n, e, env, s).OutOfFuel?
    ensures n <= m && !EvalA(m, e, env, t).OutOfFuel?
    decreases n, 0, 0
  {
    var m1;
    if e.Let? {
      var k1 := SimOpenFrame(e.defs, e.from, env, k, t, s);
      var inner, t1, s1 := |t.envs|, OpenA(e.defs, e.from, false, env, t).1, OpenA(e.defs, e.from, false, env, s).1;
      assert EvalA(n, e, env, s) == EvalA(n - 1, e.body, inner, s1);
      m1, k1 := MeetEval(n - 1, e.body, inner, k1, t1, s1);
      assert EvalA(m1 + 1, e, env, t) == EvalA(m1, e.body, inner, t1);
    } else {
      var k1 := MaybeThunks(e.scope, env, k, t, s);
      var (c, t1) := MaybeThunkA(e.scope, env, t);
      var (d, s1) := MaybeThunkA(e.scope, env, s);
      var f, g := AFrame(Some(env), [Some(c)]), AFrame(Some(env), [Some(d)]);
      PushBoth(k1, t1, s1, f, g);
      m1, k1 := MeetEval(n - 1, e.body, Push(f, t1).0, k1, Push(f, t1).1, Push(g, s1).1);
    }
    m := m1 + 1;
  }

  /** A condition, then the branch it chooses. */
  function CondA(n: nat, e: Bound, env: nat, t: AState): Out<AValue, AState>
    requires e.If? || e.Assert?
  {
    var (b, t1) :- BoolA(n, e.cond, env, t);
    if e.Assert? && !b then Raised(AssertFailed) else EvalA(n, Branch(e, b), env, t1)
  }

  function Branch(e: Bound, b: bool): Bound
    requires e.If? || e.Assert?
  {
    if e.Assert? then e.body else if b then e.thn else e.els
  }

  lemma EndsCondA(n: nat, e: Bound, env: nat, k: Link, t: AState, s: AState) returns (m: nat)
    requires Rel(k, t, s, {}) && Clean(e) && (e.If? || e.Assert?) && !CondA(n, e, env, s).OutOfFuel?
    ensures n <= m && !CondA(m, e, env, t).OutOfFuel?
    decreases n, 6
  {
    var m1, k1 := MeetBool(n, e.cond, env, k, t, s);
    var rt, rs := BoolA(m1, e.cond, env, t), BoolA(n, e.cond, env, s);
    m := m1;
    if rt.Done? && (e.If? || rt.v) {
      var m2 := EndsEval(n, Branch(e, rt.v), env, k1, rt.s, rs.s);
      m := Max(m1, m2);
      MoreBool(m1, m, e.cond, env, t);
      MoreEval(m2, m, Branch(e, rt.v), env, rt.s);
    }
  }

  lemma EndsCond(n: nat, e: Bound, env: nat, k: Link, t: AState, s: AState) returns (m: nat)
    requires Rel(k, t, s, {}) && Clean(e) && (e.If? || e.Assert?) && !EvalA(n, e, env, s).OutOfFuel?
    ensures n <= m && !EvalA(m, e, env, t).OutOfFuel?
    decreases n, 0, 0
  {
    assert EvalA(n, e, env, s) == CondA(n - 1, e, env, s);
    m := EndsCondA(n - 1, e, env, k, t, s);
    m := m + 1;
    assert EvalA(m, e, env, t) == CondA(m - 1, e, env, t);
  }

  lemma EndsBinBool(n: nat, e: Bound, env: nat, k: Link, t: AState, s: AState) returns (m: nat)
    requires Rel(k, t, s, {}) && Clean(e) && e.BinBool? && !EvalA(n, e, env, s).OutOfFuel?
    ensures n <= m && !EvalA(m, e, env, t).OutOfFuel?
    decreases n, 0, 0
  {
    assert EvalA(n, e, env, s) == BinBoolA(n - 1, e, env, s);
    m := EndsBinBoolA(n - 1, e, env, k, t, s);
    m := m + 1;
    assert EvalA(m, e, env, t) == BinBoolA(m - 1, e, env, t);
  }

  function BinBoolA(n: nat, e: Bound, env: nat, t: AState): Out<AValue, AState>
    requires e.BinBool?
  {
    var (b1, t1) :- BoolA(n, e.e1, env, t);
    if Decided(e.op, b1) then Done(Data(Bool(!e.op.And?)), t1) else
    var (b2, t2) :- BoolA(n, e.e2, env, t1);
    Done(Data(Bool(b2)), t2)
  }

  predicate Decided(op: BoolOp, b: bool) {
    match op case And => !b case Or => b case Impl => !b
  }

  lemma EndsBinBoolA(n: nat, e: Bound, env: nat, k: Link, t: AState, s: AState) returns (m: nat)
    requires Rel(k, t, s, {}) && Clean(e) && e.BinBool? && !BinBoolA(n, e, env, s).OutOfFuel?
    ensures n <= m && !BinBoolA(m, e, env, t).OutOfFuel?
    decreases n, 6
  {
    var m1, k1 := MeetBool(n, e.e1, env, k, t, s);
    var rt, rs := BoolA(m1, e.e1, env, t), BoolA(n, e.e1, env, s);
    m := m1;
    if rt.Done? && !Decided(e.op, rt.v) {
      var m2, _ := MeetBool(n, e.e2, env, k1, rt.s, rs.s);
      m := Max(m1, m2);
      MoreBool(m1, m, e.e1, env, t);
      MoreBool(m2, m, e.e2, env, rt.s);
    }
  }

  lemma EndsUpdate(n: nat, e: Bound, env: nat, k: Link, t: AState, s: AState) returns (m: nat)
    requires Rel(k, t, s, {}) && Clean(e) && e.Update? && !EvalA(n, e, env, s).OutOfFuel?
    ensures n <= m && !EvalA(m, e, env, t).OutOfFuel?
    decreases n, 0, 0
  {
    var m1, k1 := MeetEvalAttrs(n - 1, e.e2, env, k, t, s);
    var rt, rs := EvalAttrsA(m1, e.e2, env, t), EvalAttrsA(n - 1, e.e2, env, s);
    m := m1 + 1;
    if rt.Done? {
      var m2, _ := MeetEvalAttrs(n - 1, e.e1, env, k1, rt.s, rs.s);
      m := Max(m1, m2) + 1;
      MoreEvalAttrs(m1, m - 1, e.e2, env, t);
      MoreEvalAttrs(m2, m - 1, e.e1, env, rt.s);
    }
  }

  lemma EndsConcat(n: nat, e: Bound, env: nat, k: Link, t: AState, s: AState) returns (m: nat)
    requires Rel(k, t, s, {}) && Clean(e) && e.ConcatLists? && !EvalA(n, e, env, s).OutOfFuel?
    ensures n <= m && !EvalA(m, e, env, t).OutOfFuel?
    decreases n, 0, 0
  {
    assert EvalA(n, e, env, s) == ConcatA(n - 1, e, env, s);
    m := EndsConcatA(n - 1, e, env, k, t, s);
    m := m + 1;
    assert EvalA(m, e, env, t) == ConcatA(m - 1, e, env, t);
  }

  function ConcatA(n: nat, e: Bound, env: nat, t: AState): Out<AValue, AState>
    requires e.ConcatLists?
  {
    var (v1, t1) :- EvalA(n, e.e1, env, t);
    var (v2, t2) :- EvalA(n, e.e2, env, t1);
    if v1.ListV? && v2.ListV? then Done(ListV(v1.elems + v2.elems), t2) else Raised(TypeError)
  }

  lemma EndsConcatA(n: nat, e: Bound, env: nat, k: Link, t: AState, s: AState) returns (m: nat)
    requires Rel(k, t, s, {}) && Clean(e) && e.ConcatLists? && !ConcatA(n, e, env, s).OutOfFuel?
    ensures n <= m && !ConcatA(m, e, env, t).OutOfFuel?
    decreases n, 6
  {
    var m1, k1 := MeetEval(n, e.e1, env, k, t, s);
    var rt, rs := EvalA(m1, e.e1, env, t), EvalA(n, e.e1, env, s);
    m := m1;
    if rt.Done? {
      var m2 := EndsEval(n, e.e2, env, k1, rt.s, rs.s);
      m := Max(m1, m2);
      MoreEval(m1, m, e.e1, env, t);
      MoreEval(m2, m, e.e2, env, rt.s);
    }
  }

  lemma MeetBool(n: nat, e: Bound, env: nat, k: Link, t: AState, s: AState) returns (m: nat, k': Link)
    requires Rel(k, t, s, {}) && Clean(e) && !BoolA(n, e, env, s).OutOfFuel?
    ensures Meets(n, m, k, k', t, BoolA(m, e, env, t), BoolA(n, e, env, s))
    decreases n, 3
  {
    m, k' := MeetEval(n, e, env, k, t, s);
  }

  lemma MeetEvalAttrs(n: nat, e: Bound, env: nat, k: Link, t: AState, s: AState) returns (m: nat, k': Link)
    requires Rel(k, t, s, {}) && Clean(e) && !EvalAttrsA(n, e, env, s).OutOfFuel?
    ensures n <= m && !EvalAttrsA(m, e, env, t).OutOfFuel?
    ensures SameAttrs(k, k', t, EvalAttrsA(m, e, env, t), EvalAttrsA(n, e, env, s))
    decreases n, 3
  {
    m, k' := MeetEval(n, e, env, k, t, s);
  }

  // ---- variables ----

  lemma MeetLookup(n: nat, name: Symbol, addr: Addr, env: nat, k: Link, t: AState, s: AState) returns (m: nat, k': Link)
    requires Rel(k, t, s, {}) && !LookupVar(n, name, addr, env, s).OutOfFuel?
    ensures n <= m && !LookupVar(m, name, addr, env, t).OutOfFuel?
    ensures SameCell(k, k', t, LookupVar(m, name, addr, env, t), LookupVar(n, name, addr, env, s))
    decreases n, 4
  {
    m := n;
    if addr.FromWith? {
      ClimbSame(k.rho, t.envs, s.envs, env, addr.level);
      if Climb(t.envs, env, addr.level).Some? {
        m := EndsWith(n, Climb(t.envs, env, addr.level).value, addr.node, name, k, t, s);
      }
    }
    k' := SimLookup(m, name, addr, env, k, t, s);
    MoreLookup(n, m, name, addr, env, s);
  }

  lemma EndsWith(n: nat, env: nat, node: WithInfo, name: Symbol, k: Link, t: AState, s: AState) returns (m: nat)
    requires Rel(k, t, s, {}) && !WithA(n, env, node, name, s).OutOfFuel?
    ensures n <= m && !WithA(m, env, node, name, t).OutOfFuel?
    decreases n, 3, node
  {
    m := n;
    SlotSame(k.rho, t.envs, s.envs, env, 0, 0);
    var slot := Slot(t.envs, env, 0, 0);
    if slot.Some? {
      var m1, k1 := MeetCell(n, slot.value, k, t, s);
      m := m1;
      var rt, rs := ForceA(m1, slot.value, t), ForceA(n, k.rho[slot.value], s);
      if rt.Done? && rt.v.AttrsV? {
        GetBoth(k1.rho, rt.v.attrs, rs.v.attrs, name);
        if Get(rt.v.attrs, name).None? && node.parent.Some? {
          ClimbSame(k1.rho, rt.s.envs, rs.s.envs, env, node.prevWith);
          var f := Climb(rt.s.envs, env, node.prevWith);
          if f.Some? {
            var m2 := EndsWith(n, f.value, node.parent.value, name, k1, rt.s, rs.s);
            m := Max(m1, m2);
            MoreForce(m1, m, slot.value, t);
            MoreWith(m2, m, f.value, node.parent.value, name, rt.s);
          }
        }
      }
    }
  }

  // ---- selections ----

  lemma MeetTarget(n: nat, x: Target<Addr, WithInfo>, y: Target<Addr, WithInfo>, k: Link, t: AState, s: AState) returns (m: nat, k': Link)
    requires Rel(k, t, s, {}) && TargetRel(k.rho, x, y) && !TargetA(n, y, s).OutOfFuel?
    ensures MeetsValue(n, m, k, k', t, TargetA(m, x, t), TargetA(n, y, s))
    decreases n, 3
  {
    m := n;
    if x.At? { m, k' := MeetCell(n, x.cell, k, t, s); }
    k' := SimTarget(m, x, y, k, t, s);
    MoreTarget(n, m, y, s);
  }

  lemma MeetName(n: nat, a: AttrName<Addr, WithInfo>, env: nat, k: Link, t: AState, s: AState) returns (m: nat, k': Link)
    requires Rel(k, t, s, {}) && (a.Dynamic? ==> Clean(a.e)) && !NameA(n, a, env, s).OutOfFuel?
    ensures Meets(n, m, k, k', t, NameA(m, a, env, t), NameA(n, a, env, s))
    decreases n, 3
  {
    m := n;
    if a.Dynamic? { m, k' := MeetEval(n, a.e, env, k, t, s); }
    k' := SimName(m, a, env, k, t, s);
    MoreName(n, m, a, env, s);
  }

  lemma EndsSelect(n: nat, x: Target<Addr, WithInfo>, y: Target<Addr, WithInfo>, path: List<AttrName<Addr, WithInfo>>, def: Option<Bound>,
                   env: nat, k: Link, t: AState, s: AState)
    returns (m: nat)
    requires Rel(k, t, s, {}) && TargetRel(k.rho, x, y) && CleanPath(path) && CleanOption(def)
    requires !SelectA(n, y, path, def, env, s).OutOfFuel?
    ensures n <= m && !SelectA(m, x, path, def, env, t).OutOfFuel?
    decreases n, 4, path, 0
  {
    match path
    case Nil =>
      var m1, _ := MeetTarget(n, x, y, k, t, s);
      m := m1;
    case Cons(a, rest) =>
      var m1, k1 := MeetName(n, a, env, k, t, s);
      m := m1;
      var nt, ns := NameA(m1, a, env, t), NameA(n, a, env, s);
      if nt.Done? {
        SelectIsA(n, y, path, def, env, s);
        var m2 := EndsNamed(n, x, y, nt.v, rest, def, env, k1, nt.s, ns.s);
        m := Max(m1, m2);
        MoreName(m1, m, a, env, t);
        MoreNamed(m2, m, x, nt.v, rest, def, env, nt.s);
        SelectIsA(m, x, path, def, env, t);
      }
  }

  lemma EndsNamed(n: nat, x: Target<Addr, WithInfo>, y: Target<Addr, WithInfo>, name: Symbol, rest: List<AttrName<Addr, WithInfo>>,
                  def: Option<Bound>, env: nat, k: Link, t: AState, s: AState)
    returns (m: nat)
    requires Rel(k, t, s, {}) && TargetRel(k.rho, x, y) && CleanPath(rest) && CleanOption(def)
    requires !NamedA(n, name, y, rest, def, env, s).OutOfFuel?
    ensures n <= m && !NamedA(m, name, x, rest, def, env, t).OutOfFuel?
    decreases n, 4, rest, 2
  {
    var m1, k1 := MeetTarget(n, x, y, k, t, s);
    m := m1;
    var rt, rs := TargetA(m1, x, t), TargetA(n, y, s);
    if rt.Done? {
      var m2 := EndsSelected(n, rt.v, rs.v, name, rest, def, env, k1, rt.s, rs.s);
      m := Max(m1, m2);
      MoreTarget(m1, m, x, t);
      MoreSelected(m2, m, rt.v, name, rest, def, env, rt.s);
    }
  }

  lemma EndsSelected(n: nat, v: AValue, w: AValue, name: Symbol, rest: List<AttrName<Addr, WithInfo>>, def: Option<Bound>,
                     env: nat, k: Link, t: AState, s: AState)
    returns (m: nat)
    requires Rel(k, t, s, {}) && ValRel(k.rho, v, w) && CleanPath(rest) && CleanOption(def)
    requires !SelectedA(n, name, w, rest, def, env, s).OutOfFuel?
    ensures n <= m && !SelectedA(m, name, v, rest, def, env, t).OutOfFuel?
    decreases n, 4, rest, 1
  {
    m := n;
    if v.AttrsV? { GetBoth(k.rho, v.attrs, w.attrs, name); }
    if v.AttrsV? && Get(v.attrs, name).Some? {
      var c := Get(v.attrs, name).value;
      m := EndsSelect(n, At(c), At(k.rho[c]), rest, def, env, k, t, s);
    } else if def.Some? {
      var m1, _ := MeetEval(n, def.value, env, k, t, s);
      m := m1;
    }
  }

  lemma MoreSelected(n: nat, m: nat, v: AValue, name: Symbol, rest: List<AttrName<Addr, WithInfo>>, def: Option<Bound>, env: nat, t: AState)
    requires n <= m
    ensures SelectedA(n, name, v, rest, def, env, t).OutOfFuel? || SelectedA(m, name, v, rest, def, env, t) == SelectedA(n, name, v, rest, def, env, t)
  {
    if v.AttrsV? && Get(v.attrs, name).Some? {
      MoreSelect(n, m, At(Get(v.attrs, name).value), rest, def, env, t);
    } else if def.Some? {
      MoreEval(n, m, def.value, env, t);
    }
  }

  lemma MoreNamed(n: nat, m: nat, x: Target<Addr, WithInfo>, name: Symbol, rest: List<AttrName<Addr, WithInfo>>, def: Option<Bound>, env: nat, t: AState)
    requires n <= m
    ensures NamedA(n, name, x, rest, def, env, t).OutOfFuel? || NamedA(m, name, x, rest, def, env, t) == NamedA(n, name, x, rest, def, env, t)
  {
    MoreTarget(n, m, x, t);
    var r := TargetA(n, x, t);
    if r.Done? { MoreSelected(n, m, r.v, name, rest, def, env, r.s); }
  }

  lemma EndsHasAttr(n: nat, x: Target<Addr, WithInfo>, y: Target<Addr, WithInfo>, path: List<AttrName<Addr, WithInfo>>,
                    env: nat, k: Link, t: AState, s: AState)
    returns (m: nat)
    requires Rel(k, t, s, {}) && TargetRel(k.rho, x, y) && CleanPath(path) && !HasAttrA(n, y, path, env, s).OutOfFuel?
    ensures n <= m && !HasAttrA(m, x, path, env, t).OutOfFuel?
    decreases n, 4, path
  {
    m := n;
    if path.Cons? {
      var m1, k1 := MeetTarget(n, x, y, k, t, s);
      m := m1;
      var rt, rs := TargetA(m1, x, t), TargetA(n, y, s);
      if rt.Done? {
        var m2, k2 := MeetName(n, path.head, env, k1, rt.s, rs.s);
        var nt, ns := NameA(m2, path.head, env, rt.s), NameA(n, path.head, env, rs.s);
        var m3 := 0;
        if nt.Done? && rt.v.AttrsV? {
          GetBoth(k1.rho, rt.v.attrs, rs.v.attrs, nt.v);
          if Get(rt.v.attrs, nt.v).Some? {
            var c := Get(rt.v.attrs, nt.v).value;
            m3 := EndsHasAttr(n, At(c), At(k2.rho[c]), path.tail, env, k2, nt.s, ns.s);
            MoreHasAttr(m3, Max(m1, Max(m2, m3)), At(c), path.tail, env, nt.s);
          }
        }
        m := Max(m1, Max(m2, m3));
        MoreTarget(m1, m, x, t);
        MoreName(m2, m, path.head, env, rt.s);
      }
    }
  }

  // ---- attribute sets ----

  lemma EndsAttrs(n: nat, attrs: AttrSet<Addr, WithInfo>, env: nat, k: Link, t: AState, s: AState) returns (m: nat)
    requires Rel(k, t, s, {}) && CleanSet(attrs) && !AttrsA(n, attrs, env, s).OutOfFuel?
    ensures n <= m && !AttrsA(m, attrs, env, t).OutOfFuel?
    decreases n, 5
  {
    if attrs.recursive {
      var k1 := SimOpenFrame(attrs.defs, attrs.from, env, k, t, s);
      var inner := |t.envs|;
      var (xs, t1) := OpenA(attrs.defs, attrs.from, false, env, t);
      var (ys, s1) := OpenA(attrs.defs, attrs.from, false, env, s);
      assert AttrsA(n, attrs, env, s) == DynA(n, attrs.dyn, ys, inner, s1);
      m := EndsDyn(n, attrs.dyn, xs, ys, inner, k1, t1, s1);
      assert AttrsA(m, attrs, env, t) == DynA(m, attrs.dyn, xs, inner, t1);
    } else {
      var k1 := SourcesBoth(attrs.from, env, k, t, s);
      var (sources, t1) := SourcesA(attrs.from, env, t);
      var (_, s1) := SourcesA(attrs.from, env, s);
      var k2 := ThunkDefsBoth(attrs.defs, env, sources, k1, t1, s1);
      var (xs, t2) := ThunkDefsA(attrs.defs, env, sources, t1);
      var (ys, s2) := ThunkDefsA(attrs.defs, env, sources, s1);
      m := EndsDyn(n, attrs.dyn, xs, ys, env, k2, t2, s2);
    }
  }

  lemma EndsDyn(n: nat, dyn: List<DynAttr<Addr, WithInfo>>, xs: seq<Attr<nat>>, ys: seq<Attr<nat>>, env: nat, k: Link, t: AState, s: AState)
    returns (m: nat)
    requires Rel(k, t, s, {}) && CleanDyn(dyn) && AttrsRel(k.rho, xs, ys) && !DynA(n, dyn, ys, env, s).OutOfFuel?
    ensures n <= m && !DynA(m, dyn, xs, env, t).OutOfFuel?
    decreases n, 4, dyn
  {
    m := n;
    if dyn.Cons? {
      var d, rest := dyn.head, dyn.tail;
      var m1, k1 := MeetEval(n, d.nameE, env, k, t, s);
      m := m1;
      var rt, rs := EvalA(m1, d.nameE, env, t), EvalA(n, d.nameE, env, s);
      if rt.Done? {
        if rt.v == Data(Null) {
          var m2 := EndsDyn(n, rest, xs, ys, env, k1, rt.s, rs.s);
          m := Max(m1, m2);
          MoreDyn(m2, m, rest, xs, env, rt.s);
        } else if rt.v.Data? && rt.v.c.Str? {
          GetBoth(k1.rho, xs, ys, rt.v.c.sym);
          if Get(xs, rt.v.c.sym).None? {
            var k2 := MaybeThunks(d.valueE, env, k1, rt.s, rs.s);
            var (c, t2) := MaybeThunkA(d.valueE, env, rt.s);
            var (c', s2) := MaybeThunkA(d.valueE, env, rs.s);
            InsertBoth(k2.rho, xs, ys, rt.v.c.sym, c);
            var xs2, ys2 := Insert(xs, Attr(rt.v.c.sym, c)), Insert(ys, Attr(rt.v.c.sym, c'));
            var m2 := EndsDyn(n, rest, xs2, ys2, env, k2, t2, s2);
            m := Max(m1, m2);
            MoreDyn(m2, m, rest, xs2, env, t2);
          }
        }
        MoreEval(m1, m, d.nameE, env, t);
      }
    }
  }

  // ---- calls ----

  lemma MeetEnter(n: nat, lam: Lam<Addr, WithInfo>, lamEnv: nat, arg: nat, k: Link, t: AState, s: AState) returns (m: nat, k': Link)
    requires Rel(k, t, s, {}) && CleanLam(lam) && arg < |k.rho| && !EnterA(n, lam, lamEnv, k.rho[arg], s).OutOfFuel?
    ensures Meets(n, m, k, k', t, EnterA(m, lam, lamEnv, arg, t), EnterA(n, lam, lamEnv, k.rho[arg], s))
    decreases n, 3
  {
    m := n;
    if lam.Pattern? {
      var m1, _ := MeetCell(n, arg, k, t, s);
      m := m1;
      var rt := ForceA(m, arg, t);
      if rt.Done? && rt.v.AttrsV? {
        NoFuelInMatch(lam, lamEnv, arg, rt.v.attrs, rt.s);
        assert EnterA(m, lam, lamEnv, arg, t) == MatchA(lam, lamEnv, arg, rt.v.attrs, rt.s);
      }
    }
    k' := SimEnter(m, lam, lamEnv, arg, k, t, s);
    MoreEnter(n, m, lam, lamEnv, k.rho[arg], s);
  }

  lemma {:induction false} NoFuelInFormals(formals: List<Formal<Addr, WithInfo>>, displ: nat, args: seq<Attr<nat>>, env: nat, t: AState)
    ensures !FormalsA(formals, displ, args, env, t).OutOfFuel?
    decreases formals
  {
    if formals.Cons? {
      var f := formals.head;
      if Get(args, f.name).Some? {
        NoFuelInFormals(formals.tail, displ + 1, args, env, SetSlot(env, displ, Get(args, f.name).value, t));
      } else if f.def.Some? {
        var (c, t1) := MaybeThunkA(f.def.value, env, t);
        NoFuelInFormals(formals.tail, displ + 1, args, env, SetSlot(env, displ, c, t1));
      }
    }
  }

  lemma NoFuelInMatch(lam: Lam<Addr, WithInfo>, lamEnv: nat, arg: nat, attrs: seq<Attr<nat>>, t: AState)
    requires lam.Pattern?
    ensures !MatchA(lam, lamEnv, arg, attrs, t).OutOfFuel?
  {
    var (inner, t1) := Push(PatternFrameA(lam, lamEnv, arg), t);
    NoFuelInFormals(lam.formals, if lam.at.Some? then 1 else 0, attrs, inner, t1);
  }

  lemma MeetCall(n: nat, f: AValue, g: AValue, cs: seq<nat>, ds: seq<nat>, k: Link, t: AState, s: AState) returns (m: nat, k': Link)
    requires Rel(k, t, s, {}) && ValRel(k.rho, f, g) && CellsRel(k.rho, cs, ds) && !CallA(n, g, ds, s).OutOfFuel?
    ensures MeetsValue(n, m, k, k', t, CallA(m, f, cs, t), CallA(n, g, ds, s))
    decreases n, 4, |cs|, 2
  {
    m := EndsCall(n, f, g, cs, ds, k, t, s);
    k' := SimCall(m, f, g, cs, ds, k, t, s);
    MoreCall(n, m, g, ds, s);
  }

  lemma EndsCall(n: nat, f: AValue, g: AValue, cs: seq<nat>, ds: seq<nat>, k: Link, t: AState, s: AState) returns (m: nat)
    requires Rel(k, t, s, {}) && ValRel(k.rho, f, g) && CellsRel(k.rho, cs, ds) && !CallA(n, g, ds, s).OutOfFuel?
    ensures n <= m && !CallA(m, f, cs, t).OutOfFuel?
    decreases n, 4, |cs|, 1
  {
    m := n;
    if cs != [] {
      match f
      case Closure(_, _) => m := EndsApply(n, f, cs, ds, k, t, s);
      case AttrsV(attrs) =>
        GetBoth(k.rho, attrs, g.attrs, FUNCTOR);
        if Get(attrs, FUNCTOR).Some? { m := EndsFunctor(n, f, g, cs, ds, k, t, s); }
      case _ =>
    }
  }

  lemma EndsApply(n: nat, f: AValue, cs: seq<nat>, ds: seq<nat>, k: Link, t: AState, s: AState) returns (m: nat)
    requires Rel(k, t, s, {}) && f.Closure? && CleanLam(f.lam) && CellsRel(k.rho, cs, ds) && cs != []
    requires !CallA(n, f, ds, s).OutOfFuel?
    ensures n <= m && !CallA(m, f, cs, t).OutOfFuel?
    decreases n, 4, |cs|, 0
  {
    var m1, k1 := MeetEnter(n, f.lam, f.env, cs[0], k, t, s);
    m := m1;
    var rt, rs := EnterA(m1, f.lam, f.env, cs[0], t), EnterA(n, f.lam, f.env, ds[0], s);
    if rt.Done? {
      var m2, k2 := MeetEval(n, f.lam.body, rt.v, k1, rt.s, rs.s);
      var qt, qs := EvalA(m2, f.lam.body, rt.v, rt.s), EvalA(n, f.lam.body, rt.v, rs.s);
      var m3 := 0;
      if qt.Done? {
        m3, k2 := MeetCall(n, qt.v, qs.v, cs[1..], ds[1..], k2, qt.s, qs.s);
        MoreCall(m3, Max(m1, Max(m2, m3)), qt.v, cs[1..], qt.s);
      }
      m := Max(m1, Max(m2, m3));
      MoreEnter(m1, m, f.lam, f.env, cs[0], t);
      MoreEval(m2, m, f.lam.body, rt.v, rt.s);
    }
  }

  lemma EndsCallCell(n: nat, x: nat, cs: seq<nat>, ds: seq<nat>, k: Link, t: AState, s: AState) returns (m: nat)
    requires Rel(k, t, s, {}) && x < |k.rho| && CellsRel(k.rho, cs, ds) && !CallCellA(n, k.rho[x], ds, s).OutOfFuel?
    ensures n <= m && !CallCellA(m, x, cs, t).OutOfFuel?
    decreases n, 5
  {
    var m1, k1 := MeetCell(n, x, k, t, s);
    m := m1;
    var rt, rs := ForceA(m1, x, t), ForceA(n, k.rho[x], s);
    if rt.Done? {
      var m2, _ := MeetCall(n, rt.v, rs.v, cs, ds, k1, rt.s, rs.s);
      m := Max(m1, m2);
      MoreForce(m1, m, x, t);
      MoreCall(m2, m, rt.v, cs, rt.s);
    }
  }

  lemma MeetFunctorStep(n: nat, f: AValue, g: AValue, c: nat, k: Link, t: AState, s: AState) returns (m: nat, k': Link)
    requires Rel(k, t, s, {}) && ValRel(k.rho, f, g) && c < |k.rho|
    requires n > 0 && f.AttrsV? && Get(f.attrs, FUNCTOR).Some? && Get(g.attrs, FUNCTOR).Some?
    requires !FunctorA(n, g, k.rho[c], s).OutOfFuel?
    ensures n <= m
    ensures MeetsValue(n, m, k, k', t, FunctorA(m, f, c, t), FunctorA(n, g, k.rho[c], s))
    decreases n, 0
  {
    GetBoth(k.rho, f.attrs, g.attrs, FUNCTOR);
    ValGrows(k.rho, k.rho + [|s.cells|], f, g);
    var k1 := AllocBoth(k, t, s, Val(f), Val(g));
    var (self, t1) := Alloc(Val(f), t);
    var (self', s1) := Alloc(Val(g), s);
    var x := Get(f.attrs, FUNCTOR).value;
    assert FunctorA(n, g, k.rho[c], s) == CallCellA(n - 1, k.rho[x], [self', k.rho[c]], s1);
    var m1 := EndsCallCell(n - 1, x, [self, c], [self', k.rho[c]], k1, t1, s1);
    m := m1 + 1;
    assert FunctorA(m, f, c, t) == CallCellA(m1, x, [self, c], t1);
    k' := SimFunctorStep(m, f, g, c, k, t, s);
    MoreFunctorStep(n, m, g, k.rho[c], s);
  }

  lemma MoreFunctorStep(n: nat, m: nat, f: AValue, arg: nat, t: AState)
    requires 0 < n <= m && f.AttrsV? && Get(f.attrs, FUNCTOR).Some?
    ensures FunctorA(n, f, arg, t).OutOfFuel? || FunctorA(m, f, arg, t) == FunctorA(n, f, arg, t)
  {
    var (self, t1) := Alloc(Val(f), t);
    var x := Get(f.attrs, FUNCTOR).value;
    MoreForce(n - 1, m - 1, x, t1);
    var r := ForceA(n - 1, x, t1);
    if r.Done? { MoreCall(n - 1, m - 1, r.v, [self, arg], r.s); }
  }

  lemma EndsFunctor(n: nat, f: AValue, g: AValue, cs: seq<nat>, ds: seq<nat>, k: Link, t: AState, s: AState) returns (m: nat)
    requires Rel(k, t, s, {}) && ValRel(k.rho, f, g) && CellsRel(k.rho, cs, ds) && cs != []
    requires f.AttrsV? && Get(f.attrs, FUNCTOR).Some? && Get(g.attrs, FUNCTOR).Some? && !CallA(n, g, ds, s).OutOfFuel?
    ensures n <= m && !CallA(m, f, cs, t).OutOfFuel?
    decreases n, 4, |cs|, 0
  {
    var m1, k1 := MeetFunctorStep(n, f, g, cs[0], k, t, s);
    m := m1;
    var rt, rs := FunctorA(m1, f, cs[0], t), FunctorA(n, g, ds[0], s);
    if rt.Done? {
      var m2, _ := MeetCall(n, rt.v, rs.v, cs[1..], ds[1..], k1, rt.s, rs.s);
      m := Max(m1, m2);
      MoreFunctorStep(m1, m, f, cs[0], t);
      MoreCall(m2, m, rt.v, cs[1..], rt.s);
    }
  }
}

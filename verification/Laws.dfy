/** Laws of evaluation, read off the big-step rules: which expressions mean the same, when a
    path is found, and what definitions, formals and names denote. */
module Laws {
  import opened Wrappers
  import opened SortedAttrs
  import opened Syntax
  import opened Scope
  import opened Machine
  import opened NamedEval
  import opened Observation
  import opened BigStep
  import opened Adequacy
  import opened SortedSets

  const TRUE: Named := Lit(Bool(true))
  const FALSE: Named := Lit(Bool(false))

  /** `e` evaluates to `r`. */
  ghost predicate Yields(e: Named, env: nat, s: NState, r: Out<NValue, NState>) {
    Derivable(Eval(e, env, s, r))
  }

  /** The two expressions have the same outcomes, in every environment and state. */
  ghost predicate SameMeaning(e1: Named, e2: Named) {
    forall env, s, r :: Yields(e1, env, s, r) <==> Yields(e2, env, s, r)
  }

  // ---- what is seen ----

  /** Looking at part `picks` of the result of `e` shows `o`, with some fuel. */
  ghost predicate Shows(e: Named, env: nat, s: NState, picks: seq<Pick>, o: Seen) {
    !o.Unfinished? && exists n :: LookN(picks, n, EvalN(n, e, env, s)) == o
  }

  lemma {:induction false} LookForGood(picks: seq<Pick>, n: nat, r: Out<NValue, NState>) returns (h: nat)
    requires !LookN(picks, n, r).Unfinished?
    ensures forall m :: m >= h ==> LookN(picks, m, r) == LookN(picks, n, r)
    decreases |picks|
  {
    h := 0;
    if r.Done? && picks != [] && Part(r.v, picks[0]).Some? {
      var c := Part(r.v, picks[0]).value;
      var next := ForceN(n, c, r.s);
      ForceDerived(n, c, r.s);
      var d :| Valid(d) && d.j == Force(c, r.s, next);
      var h1 := LookForGood(picks[1..], n, next);
      h := if h1 > Height(d) then h1 else Height(d);
      forall m | m >= h ensures LookN(picks, m, r) == LookN(picks, n, r) { DerivedHolds(d, m); }
    }
  }

  /** Expressions that mean the same show the same, wherever one looks. */
  lemma SameMeaningShowsSame(e1: Named, e2: Named, env: nat, s: NState, picks: seq<Pick>, o: Seen)
    requires SameMeaning(e1, e2)
    ensures Shows(e1, env, s, picks, o) <==> Shows(e2, env, s, picks, o)
  {
    if Shows(e1, env, s, picks, o) { ShowsToo(e1, e2, env, s, picks, o); }
    if Shows(e2, env, s, picks, o) { ShowsToo(e2, e1, env, s, picks, o); }
  }

  lemma ShowsToo(e1: Named, e2: Named, env: nat, s: NState, picks: seq<Pick>, o: Seen)
    requires SameMeaning(e1, e2) && Shows(e1, env, s, picks, o)
    ensures Shows(e2, env, s, picks, o)
  {
    var n :| LookN(picks, n, EvalN(n, e1, env, s)) == o;
    var r := EvalN(n, e1, env, s);
    EvalDerived(n, e1, env, s);
    assert Yields(e1, env, s, r);
    var h1 := GivesForGood(e2, env, s, r);
    var h2 := LookForGood(picks, n, r);
    assert EvalN(h1 + h2, e2, env, s) == r;
    assert LookN(picks, h1 + h2, EvalN(h1 + h2, e2, env, s)) == o;
  }

  // ---- conditions ----

  lemma LitMeans(c: Const, env: nat, s: NState, r: Out<NValue, NState>)
    ensures Yields(Lit(c), env, s, r) <==> r == Done(Data(c), s)
  {
    if Yields(Lit(c), env, s, r) { var ps := Invert(Eval(Lit(c), env, s, r)); }
    if r == Done(Data(c), s) { Derive(Eval(Lit(c), env, s, r), Nil); }
  }

  /** What a condition with truth value `b` chooses. */
  ghost predicate Chooses(b: Out<bool, NState>, thn: Named, els: Named, env: nat, r: Out<NValue, NState>) {
    match b
    case Raised(err) => r == Raised(err)
    case OutOfFuel => false
    case Done(true, s1) => Yields(thn, env, s1, r)
    case Done(false, s1) => Yields(els, env, s1, r)
  }

  /** The condition is evaluated first; the branch it chooses decides. */
  lemma IfMeans(c: Named, thn: Named, els: Named, env: nat, s: NState, r: Out<NValue, NState>)
    ensures Yields(If(c, thn, els), env, s, r) <==> exists rc :: Yields(c, env, s, rc) && Chooses(AsBool(rc), thn, els, env, r)
  {
    var j := Eval(If(c, thn, els), env, s, r);
    if Yields(If(c, thn, els), env, s, r) {
      var ps := Invert(j);
      assert Yields(c, env, s, ps.head.r) && Chooses(AsBool(ps.head.r), thn, els, env, r);
    }
    if rc :| Yields(c, env, s, rc) && Chooses(AsBool(rc), thn, els, env, r) {
      match AsBool(rc)
      case Raised(_) => Derive1(j, Eval(c, env, s, rc));
      case Done(true, s1) => Derive2(j, Eval(c, env, s, rc), Eval(thn, env, s1, r));
      case Done(false, s1) => Derive2(j, Eval(c, env, s, rc), Eval(els, env, s1, r));
    }
  }

  lemma IfTrue(e1: Named, e2: Named)
    ensures SameMeaning(If(TRUE, e1, e2), e1)
  {
    forall env, s, r ensures Yields(If(TRUE, e1, e2), env, s, r) <==> Yields(e1, env, s, r) {
      IfConstant(true, e1, e2, env, s, r);
    }
  }

  lemma IfFalse(e1: Named, e2: Named)
    ensures SameMeaning(If(FALSE, e1, e2), e2)
  {
    forall env, s, r ensures Yields(If(FALSE, e1, e2), env, s, r) <==> Yields(e2, env, s, r) {
      IfConstant(false, e1, e2, env, s, r);
    }
  }

  lemma IfConstant(b: bool, e1: Named, e2: Named, env: nat, s: NState, r: Out<NValue, NState>)
    ensures Yields(If(Lit(Bool(b)), e1, e2), env, s, r) <==> Yields(if b then e1 else e2, env, s, r)
  {
    var rb: Out<NValue, NState> := Done(Data(Bool(b)), s);
    IfMeans(Lit(Bool(b)), e1, e2, env, s, r);
    LitMeans(Bool(b), env, s, rb);
    assert AsBool(rb) == Done(b, s);
    assert Chooses(AsBool(rb), e1, e2, env, r) <==> Yields(if b then e1 else e2, env, s, r);
    if rc :| Yields(Lit(Bool(b)), env, s, rc) && Chooses(AsBool(rc), e1, e2, env, r) { LitMeans(Bool(b), env, s, rc); }
  }

  function Truth(b: Out<bool, NState>): Out<NValue, NState> {
    match b
    case Done(v, s) => Done(Data(Bool(v)), s)
    case Raised(err) => Raised(err)
    case OutOfFuel => OutOfFuel
  }

  /** A boolean expression used as a condition. */
  lemma IfTrueFalse(c: Named, env: nat, s: NState, r: Out<NValue, NState>)
    ensures Yields(If(c, TRUE, FALSE), env, s, r) <==> exists rc :: Yields(c, env, s, rc) && r == Truth(AsBool(rc)) && !r.OutOfFuel?
  {
    IfMeans(c, TRUE, FALSE, env, s, r);
    forall rc ensures Chooses(AsBool(rc), TRUE, FALSE, env, r) <==> r == Truth(AsBool(rc)) && !r.OutOfFuel? {
      match AsBool(rc)
      case Done(b, s1) => LitMeans(Bool(b), env, s1, r);
      case _ =>
    }
  }

  lemma NotIsIf(c: Named)
    ensures SameMeaning(Not(c), If(c, FALSE, TRUE))
  {
    forall env, s, r ensures Yields(Not(c), env, s, r) <==> Yields(If(c, FALSE, TRUE), env, s, r) {
      NotHere(c, env, s, r);
    }
  }

  lemma NotHere(c: Named, env: nat, s: NState, r: Out<NValue, NState>)
    ensures Yields(Not(c), env, s, r) <==> Yields(If(c, FALSE, TRUE), env, s, r)
  {
    NotMeans(c, env, s, r);
    IfMeans(c, FALSE, TRUE, env, s, r);
    forall rc ensures Chooses(AsBool(rc), FALSE, TRUE, env, r) <==> r == Negated(AsBool(rc)) && !r.OutOfFuel? {
      match AsBool(rc)
      case Done(b, s1) => LitMeans(Bool(!b), env, s1, r);
      case _ =>
    }
  }

  /** Negating the condition swaps the branches. */
  lemma IfNot(c: Named, e1: Named, e2: Named)
    ensures SameMeaning(If(Not(c), e1, e2), If(c, e2, e1))
  {
    forall env, s, r ensures Yields(If(Not(c), e1, e2), env, s, r) <==> Yields(If(c, e2, e1), env, s, r) {
      IfNotHere(c, e1, e2, env, s, r);
    }
  }

  function Negated(b: Out<bool, NState>): Out<NValue, NState> {
    match b
    case Done(v, s) => Done(Data(Bool(!v)), s)
    case Raised(err) => Raised(err)
    case OutOfFuel => OutOfFuel
  }

  lemma NotMeans(c: Named, env: nat, s: NState, rn: Out<NValue, NState>)
    ensures Yields(Not(c), env, s, rn) <==> exists rc :: Yields(c, env, s, rc) && rn == Negated(AsBool(rc)) && !rn.OutOfFuel?
  {
    if Yields(Not(c), env, s, rn) {
      var ps := Invert(Eval(Not(c), env, s, rn));
      assert Yields(c, env, s, ps.head.r) && rn == Negated(AsBool(ps.head.r)) && !rn.OutOfFuel?;
    }
    if rc :| Yields(c, env, s, rc) && rn == Negated(AsBool(rc)) && !rn.OutOfFuel? {
      Derive1(Eval(Not(c), env, s, rn), Eval(c, env, s, rc));
    }
  }

  lemma IfNotHere(c: Named, e1: Named, e2: Named, env: nat, s: NState, r: Out<NValue, NState>)
    ensures Yields(If(Not(c), e1, e2), env, s, r) <==> Yields(If(c, e2, e1), env, s, r)
  {
    IfMeans(Not(c), e1, e2, env, s, r);
    IfMeans(c, e2, e1, env, s, r);
    if rn :| Yields(Not(c), env, s, rn) && Chooses(AsBool(rn), e1, e2, env, r) {
      NotMeans(c, env, s, rn);
      var rc :| Yields(c, env, s, rc) && rn == Negated(AsBool(rc)) && !rn.OutOfFuel?;
      NegatedChooses(AsBool(rc), e1, e2, env, r);
    }
    if rc :| Yields(c, env, s, rc) && Chooses(AsBool(rc), e2, e1, env, r) {
      var rn := Negated(AsBool(rc));
      NotMeans(c, env, s, rn);
      NegatedChooses(AsBool(rc), e1, e2, env, r);
      assert Yields(Not(c), env, s, rn);
    }
  }

  lemma NegatedChooses(b: Out<bool, NState>, e1: Named, e2: Named, env: nat, r: Out<NValue, NState>)
    ensures Chooses(AsBool(Negated(b)), e1, e2, env, r) <==> Chooses(b, e2, e1, env, r)
  {}

  // ---- operators ----

  /** The conditional that a boolean operator abbreviates. */
  function AsIf(op: BoolOp, a: Named, b: Named): Named {
    match op
    case And => If(a, If(b, TRUE, FALSE), FALSE)
    case Or => If(a, TRUE, If(b, TRUE, FALSE))
    case Impl => If(a, If(b, TRUE, FALSE), TRUE)
  }

  /** `&&`, `||` and `->` are conditionals: the second operand is only evaluated if it decides. */
  lemma OperatorIsIf(op: BoolOp, a: Named, b: Named)
    ensures SameMeaning(BinBool(op, a, b), AsIf(op, a, b))
  {
    forall env, s, r ensures Yields(BinBool(op, a, b), env, s, r) <==> Yields(AsIf(op, a, b), env, s, r) {
      if Yields(BinBool(op, a, b), env, s, r) { OperatorThenIf(op, a, b, env, s, r); }
      if Yields(AsIf(op, a, b), env, s, r) { IfThenOperator(op, a, b, env, s, r); }
    }
  }

  lemma OperatorThenIf(op: BoolOp, a: Named, b: Named, env: nat, s: NState, r: Out<NValue, NState>)
    requires Yields(BinBool(op, a, b), env, s, r)
    ensures Yields(AsIf(op, a, b), env, s, r)
  {
    var ps := Invert(Eval(BinBool(op, a, b), env, s, r));
    var ra := ps.head.r;
    var c := AsIf(op, a, b);
    IfMeans(a, c.thn, c.els, env, s, r);
    match AsBool(ra)
    case Done(v, s1) =>
      IfTrueFalse(b, env, s1, r);
      LitMeans(Bool(true), env, s1, r);
      LitMeans(Bool(false), env, s1, r);
      if ps.tail.Cons? {
        var rb := ps.tail.head.r;
        assert Yields(b, env, s1, rb) && r == Truth(AsBool(rb)) && !r.OutOfFuel?;
      }
      assert Yields(a, env, s, ra) && Chooses(AsBool(ra), c.thn, c.els, env, r);
    case _ => assert Yields(a, env, s, ra) && Chooses(AsBool(ra), c.thn, c.els, env, r);
  }

  lemma IfThenOperator(op: BoolOp, a: Named, b: Named, env: nat, s: NState, r: Out<NValue, NState>)
    requires Yields(AsIf(op, a, b), env, s, r)
    ensures Yields(BinBool(op, a, b), env, s, r)
  {
    var c, j := AsIf(op, a, b), Eval(BinBool(op, a, b), env, s, r);
    IfMeans(a, c.thn, c.els, env, s, r);
    var ra :| Yields(a, env, s, ra) && Chooses(AsBool(ra), c.thn, c.els, env, r);
    match AsBool(ra)
    case Done(v, s1) =>
      if (match op case And => !v case Or => v case Impl => !v) {
        LitMeans(Bool(op != And), env, s1, r);
        Derive1(j, Eval(a, env, s, ra));
      } else {
        SecondDecides(op, a, b, env, s, ra, r);
      }
    case _ => Derive1(j, Eval(a, env, s, ra));
  }

  lemma SecondDecides(op: BoolOp, a: Named, b: Named, env: nat, s: NState, ra: Out<NValue, NState>, r: Out<NValue, NState>)
    requires Yields(a, env, s, ra) && AsBool(ra).Done? && AsBool(ra).v == (op != Or)
    requires Yields(If(b, TRUE, FALSE), env, AsBool(ra).s, r)
    ensures Yields(BinBool(op, a, b), env, s, r)
  {
    var s1 := AsBool(ra).s;
    IfTrueFalse(b, env, s1, r);
    var rb :| Yields(b, env, s1, rb) && r == Truth(AsBool(rb)) && !r.OutOfFuel?;
    Derive2(Eval(BinBool(op, a, b), env, s, r), Eval(a, env, s, ra), Eval(b, env, s1, rb));
  }

  /** `assert c; e` is `e` under the condition `c`, and an error without it. */
  lemma AssertIsIf(c: Named, e: Named)
    ensures SameMeaning(Assert(c, e), If(c, e, Assert(FALSE, e)))
    ensures forall env, s, r :: Yields(Assert(FALSE, e), env, s, r) <==> r == Raised(AssertFailed)
  {
    forall env, s, r ensures Yields(Assert(FALSE, e), env, s, r) <==> r == Raised(AssertFailed) {
      AssertConstant(e, env, s, r);
    }
    forall env, s, r ensures Yields(Assert(c, e), env, s, r) <==> Yields(If(c, e, Assert(FALSE, e)), env, s, r) {
      AssertMeans(c, e, env, s, r);
      IfMeans(c, e, Assert(FALSE, e), env, s, r);
    }
  }

  lemma AssertConstant(e: Named, env: nat, s: NState, r: Out<NValue, NState>)
    ensures Yields(Assert(FALSE, e), env, s, r) <==> r == Raised(AssertFailed)
  {
    var rb: Out<NValue, NState> := Done(Data(Bool(false)), s);
    AssertMeans(FALSE, e, env, s, r);
    LitMeans(Bool(false), env, s, rb);
    assert Asserted(AsBool(rb), e, env, r) <==> r == Raised(AssertFailed);
    if rc :| Yields(FALSE, env, s, rc) && Asserted(AsBool(rc), e, env, r) { LitMeans(Bool(false), env, s, rc); }
  }

  ghost predicate Asserted(b: Out<bool, NState>, e: Named, env: nat, r: Out<NValue, NState>) {
    match b
    case Raised(err) => r == Raised(err)
    case OutOfFuel => false
    case Done(true, s1) => Yields(e, env, s1, r)
    case Done(false, _) => r == Raised(AssertFailed)
  }

  lemma AssertMeans(c: Named, e: Named, env: nat, s: NState, r: Out<NValue, NState>)
    ensures Yields(Assert(c, e), env, s, r) <==> exists rc :: Yields(c, env, s, rc) && Asserted(AsBool(rc), e, env, r)
  {
    var j := Eval(Assert(c, e), env, s, r);
    if Yields(Assert(c, e), env, s, r) {
      var ps := Invert(j);
      assert Yields(c, env, s, ps.head.r) && Asserted(AsBool(ps.head.r), e, env, r);
    }
    if rc :| Yields(c, env, s, rc) && Asserted(AsBool(rc), e, env, r) {
      match AsBool(rc)
      case Done(true, s1) => Derive2(j, Eval(c, env, s, rc), Eval(e, env, s1, r));
      case _ => Derive1(j, Eval(c, env, s, rc));
    }
  }

  /** `e1 // e2`: the right operand is evaluated first, and for each name the value is that of
      the right operand if it has the name, and else that of the left one. */
  lemma UpdateMeans(e1: Named, e2: Named, env: nat, s: NState, v: NValue, s': NState)
    requires Ordered(e1) && Ordered(e2) && TidyState(s)
    requires Yields(Update(e1, e2), env, s, Done(v, s'))
    ensures exists left, right, s1 ::
      && Yields(e2, env, s, Done(AttrsV(right), s1)) && Yields(e1, env, s1, Done(AttrsV(left), s'))
      && v.AttrsV? && Sorted(v.attrs) && Overlaid(left, right, v.attrs)
  {
    var ps := Invert(Eval(Update(e1, e2), env, s, Done(v, s')));
    var right, left, s1 := ps.head.r.v.attrs, ps.tail.head.r.v.attrs, ps.head.r.s;
    SetsAreSorted(e2, env, s, AttrsV(right), s1);
    SetsAreSorted(e1, env, s1, AttrsV(left), s');
    MergeOverlays(left, right);
    assert Yields(e2, env, s, Done(AttrsV(right), s1)) && Yields(e1, env, s1, Done(AttrsV(left), s'));
  }

  /** Conversely, two operands that are sets have such an update. */
  lemma UpdateGives(e1: Named, e2: Named, env: nat, s: NState, left: seq<Attr<nat>>, right: seq<Attr<nat>>, s1: NState, s': NState)
    requires Ordered(e1) && Ordered(e2) && TidyState(s)
    requires Yields(e2, env, s, Done(AttrsV(right), s1)) && Yields(e1, env, s1, Done(AttrsV(left), s'))
    ensures exists both :: Yields(Update(e1, e2), env, s, Done(AttrsV(both), s')) && Sorted(both) && Overlaid(left, right, both)
  {
    SetsAreSorted(e2, env, s, AttrsV(right), s1);
    SetsAreSorted(e1, env, s1, AttrsV(left), s');
    MergeOverlays(left, right);
    Derive2(Eval(Update(e1, e2), env, s, Done(AttrsV(Merge(left, right)), s')),
            Eval(e2, env, s, Done(AttrsV(right), s1)), Eval(e1, env, s1, Done(AttrsV(left), s')));
  }

  lemma MergeOverlays(left: seq<Attr<nat>>, right: seq<Attr<nat>>)
    requires Sorted(left) && Sorted(right)
    ensures Sorted(Merge(left, right)) && Overlaid(left, right, Merge(left, right))
  {
    MergeSorted(left, right);
    forall name ensures Get(Merge(left, right), name) == if Get(right, name).Some? then Get(right, name) else Get(left, name) {
      MergeGet(left, right, name);
    }
  }

  ghost predicate Overlaid(left: seq<Attr<nat>>, right: seq<Attr<nat>>, both: seq<Attr<nat>>) {
    forall name :: Get(both, name) == if Get(right, name).Some? then Get(right, name) else Get(left, name)
  }

  // ---- paths ----

  predicate AllStatic(path: List<AttrName<(), ()>>) {
    path.Cons? ==> path.head.Static? && AllStatic(path.tail)
  }

  lemma OneValue(t: Target<(), ()>, s: NState, r1: Out<NValue, NState>, r2: Out<NValue, NState>)
    requires Derivable(Reach(t, s, r1)) && Derivable(Reach(t, s, r2))
    ensures r1 == r2
  {
    var d1 :| Valid(d1) && d1.j == Reach(t, s, r1);
    var d2 :| Valid(d2) && d2.j == Reach(t, s, r2);
    DerivedHolds(d1, Height(d1) + Height(d2));
    DerivedHolds(d2, Height(d1) + Height(d2));
  }

  /** The sets on the way are forced one after the other, and each has its name: the path ends
      at cell `c`, in state `s'`. */
  ghost predicate Found(t: Target<(), ()>, path: List<AttrName<(), ()>>, s: NState, c: nat, s': NState)
    decreases path
  {
    && path.Cons? && path.head.Static?
    && exists v, s1 ::
         && Derivable(Reach(t, s, Done(v, s1))) && PartOf(v, path.head.sym).Some?
         && var next := PartOf(v, path.head.sym).value;
            if path.tail.Nil? then c == next && s' == s1 else Found(At(next), path.tail, s1, c, s')
  }

  /** One of the values on the way is no set, or lacks its name. */
  ghost predicate Missing(t: Target<(), ()>, path: List<AttrName<(), ()>>, s: NState, s': NState)
    decreases path
  {
    && path.Cons? && path.head.Static?
    && exists v, s1 ::
         && Derivable(Reach(t, s, Done(v, s1)))
         && match PartOf(v, path.head.sym)
            case None => s' == s1
            case Some(next) => Missing(At(next), path.tail, s1, s')
  }

  lemma StaticName(sym: Symbol, env: nat, s: NState, text: Out<Symbol, NState>)
    ensures Derivable(NameOf(Static(sym), env, s, text)) <==> text == Done(sym, s)
  {
    if Derivable(NameOf(Static(sym), env, s, text)) { var ps := Invert(NameOf(Static(sym), env, s, text)); }
    if text == Done(sym, s) { Derive(NameOf(Static(sym), env, s, text), Nil); }
  }

  /** `?` on a path that is found is true. */
  lemma {:induction false} HasFound(t: Target<(), ()>, path: List<AttrName<(), ()>>, env: nat, s: NState, c: nat, s': NState)
    requires Found(t, path, s, c, s')
    ensures Derivable(Has(t, path, env, s, Done(Data(Bool(true)), s')))
    decreases path
  {
    var r: Out<NValue, NState> := Done(Data(Bool(true)), s');
    var v, s1 :| Derivable(Reach(t, s, Done(v, s1))) && PartOf(v, path.head.sym).Some?
      && var next := PartOf(v, path.head.sym).value;
         if path.tail.Nil? then c == next && s' == s1 else Found(At(next), path.tail, s1, c, s');
    var next := PartOf(v, path.head.sym).value;
    StaticName(path.head.sym, env, s1, Done(path.head.sym, s1));
    if path.tail.Nil? {
      Derive(Has(At(next), Nil, env, s1, r), Nil);
    } else {
      HasFound(At(next), path.tail, env, s1, c, s');
    }
    Derive3(Has(t, path, env, s, r), Reach(t, s, Done(v, s1)), NameOf(path.head, env, s1, Done(path.head.sym, s1)),
            Has(At(next), path.tail, env, s1, r));
  }

  /** `?` on a path that is missing is false. */
  lemma {:induction false} HasMissing(t: Target<(), ()>, path: List<AttrName<(), ()>>, env: nat, s: NState, s': NState)
    requires Missing(t, path, s, s')
    ensures Derivable(Has(t, path, env, s, Done(Data(Bool(false)), s')))
    decreases path
  {
    var r: Out<NValue, NState> := Done(Data(Bool(false)), s');
    var v, s1 :| Derivable(Reach(t, s, Done(v, s1)))
      && match PartOf(v, path.head.sym) case None => s' == s1 case Some(next) => Missing(At(next), path.tail, s1, s');
    StaticName(path.head.sym, env, s1, Done(path.head.sym, s1));
    var first, second := Reach(t, s, Done(v, s1)), NameOf(path.head, env, s1, Done(path.head.sym, s1));
    match PartOf(v, path.head.sym)
    case None => Derive2(Has(t, path, env, s, r), first, second);
    case Some(next) =>
      HasMissing(At(next), path.tail, env, s1, s');
      Derive3(Has(t, path, env, s, r), first, second, Has(At(next), path.tail, env, s1, r));
  }

  /** Those are the only ways in which `?` comes to an answer. */
  lemma {:induction false} HasOnlySo(t: Target<(), ()>, path: List<AttrName<(), ()>>, env: nat, s: NState, b: bool, s': NState)
    requires path.Cons? && AllStatic(path) && Derivable(Has(t, path, env, s, Done(Data(Bool(b)), s')))
    ensures if b then exists c :: Found(t, path, s, c, s') else Missing(t, path, s, s')
    decreases path
  {
    var r: Out<NValue, NState> := Done(Data(Bool(b)), s');
    var ps := Invert(Has(t, path, env, s, r));
    var v, s1 := ps.head.r.v, ps.head.r.s;
    StaticName(path.head.sym, env, s1, ps.tail.head.text);
    match PartOf(v, path.head.sym)
    case None => assert Derivable(Reach(t, s, Done(v, s1)));
    case Some(next) =>
      if path.tail.Nil? {
        var qs := Invert(Has(At(next), Nil, env, s1, r));
        assert Found(t, path, s, next, s');
      } else {
        HasOnlySo(At(next), path.tail, env, s1, b, s');
        if b {
          var c :| Found(At(next), path.tail, s1, c, s');
          assert Found(t, path, s, c, s');
        } else {
          assert Derivable(Reach(t, s, Done(v, s1)));
        }
      }
  }

  /** A selection along a path that is found forces the cell found, whatever the default. */
  lemma {:induction false} SelectFound(t: Target<(), ()>, path: List<AttrName<(), ()>>, def: Option<Named>, env: nat, s: NState,
                                       c: nat, s': NState, r: Out<NValue, NState>)
    requires Found(t, path, s, c, s')
    ensures Derivable(Follow(t, path, def, env, s, r)) <==> Derivable(Force(c, s', r))
    decreases path
  {
    var v, s1 :| Derivable(Reach(t, s, Done(v, s1))) && PartOf(v, path.head.sym).Some?
      && var next := PartOf(v, path.head.sym).value;
         if path.tail.Nil? then c == next && s' == s1 else Found(At(next), path.tail, s1, c, s');
    var next := PartOf(v, path.head.sym).value;
    SelectStep(t, path, def, env, s, v, s1, r);
    if path.tail.Nil? {
      FollowNothing(next, def, env, s1, r);
    } else {
      SelectFound(At(next), path.tail, def, env, s1, c, s', r);
    }
  }

  /** A selection along a path that is missing is its default. */
  lemma {:induction false} SelectMissing(t: Target<(), ()>, path: List<AttrName<(), ()>>, d: Named, env: nat, s: NState, s': NState,
                                         r: Out<NValue, NState>)
    requires Missing(t, path, s, s')
    ensures Derivable(Follow(t, path, Some(d), env, s, r)) <==> Yields(d, env, s', r)
    decreases path
  {
    var v, s1 :| Derivable(Reach(t, s, Done(v, s1)))
      && match PartOf(v, path.head.sym) case None => s' == s1 case Some(next) => Missing(At(next), path.tail, s1, s');
    SelectStep(t, path, Some(d), env, s, v, s1, r);
    if PartOf(v, path.head.sym).Some? { SelectMissing(At(PartOf(v, path.head.sym).value), path.tail, d, env, s1, s', r); }
  }

  lemma FollowNothing(c: nat, def: Option<Named>, env: nat, s: NState, r: Out<NValue, NState>)
    ensures Derivable(Follow(At(c), Nil, def, env, s, r)) <==> Derivable(Force(c, s, r))
  {
    if Derivable(Follow(At(c), Nil, def, env, s, r)) {
      var ps := Invert(Follow(At(c), Nil, def, env, s, r));
      var qs := Invert(Reach(At(c), s, r));
    }
    if Derivable(Force(c, s, r)) {
      Derive1(Reach(At(c), s, r), Force(c, s, r));
      Derive1(Follow(At(c), Nil, def, env, s, r), Reach(At(c), s, r));
    }
  }

  /** What one name of a selection leads to. */
  lemma SelectStep(t: Target<(), ()>, path: List<AttrName<(), ()>>, def: Option<Named>, env: nat, s: NState, v: NValue, s1: NState,
                   r: Out<NValue, NState>)
    requires path.Cons? && path.head.Static? && Derivable(Reach(t, s, Done(v, s1)))
    ensures Derivable(Follow(t, path, def, env, s, r)) <==>
      match PartOf(v, path.head.sym)
      case Some(c) => Derivable(Follow(At(c), path.tail, def, env, s1, r))
      case None =>
        match def
        case Some(d) => Yields(d, env, s1, r)
        case None => r == Raised(if v.AttrsV? then MissingAttr(path.head.sym) else TypeError)
  {
    var j := Follow(t, path, def, env, s, r);
    var sym := path.head.sym;
    StaticName(sym, env, s, Done(sym, s));
    var first, second := NameOf(path.head, env, s, Done(sym, s)), Reach(t, s, Done(v, s1));
    if Derivable(j) {
      var ps := Invert(j);
      StaticName(sym, env, s, ps.head.text);
      OneValue(t, s, ps.tail.head.r, Done(v, s1));
    }
    match PartOf(v, sym)
    case Some(c) =>
      if Derivable(Follow(At(c), path.tail, def, env, s1, r)) { Derive3(j, first, second, Follow(At(c), path.tail, def, env, s1, r)); }
    case None =>
      match def
      case Some(d) => if Yields(d, env, s1, r) { Derive3(j, first, second, Eval(d, env, s1, r)); }
      case None => if r == Raised(if v.AttrsV? then MissingAttr(sym) else TypeError) { Derive2(j, first, second); }
  }

  /** `?` is true exactly when selection finds an attribute, which it then forces; and a default
      is used exactly when `?` is false. */
  lemma HasDecidesSelect(path: List<AttrName<(), ()>>, d: Named, t: Target<(), ()>, env: nat, s: NState, b: bool, s': NState)
    requires path.Cons? && AllStatic(path) && Derivable(Has(t, path, env, s, Done(Data(Bool(b)), s')))
    ensures b ==> exists c ::
      && Found(t, path, s, c, s')
      && forall r, def :: Derivable(Follow(t, path, def, env, s, r)) <==> Derivable(Force(c, s', r))
    ensures !b ==> forall r :: Derivable(Follow(t, path, Some(d), env, s, r)) <==> Yields(d, env, s', r)
  {
    HasOnlySo(t, path, env, s, b, s');
    if b {
      var c :| Found(t, path, s, c, s');
      forall r, def ensures Derivable(Follow(t, path, def, env, s, r)) <==> Derivable(Force(c, s', r)) {
        SelectFound(t, path, def, env, s, c, s', r);
      }
    } else {
      forall r ensures Derivable(Follow(t, path, Some(d), env, s, r)) <==> Yields(d, env, s', r) {
        SelectMissing(t, path, d, env, s, s', r);
      }
    }
  }

  /** The same of whole expressions, whose set is evaluated first. */
  lemma HasAttrDecidesSelect(e: Named, path: List<AttrName<(), ()>>, d: Named, env: nat, s: NState, v: NValue, s0: NState, b: bool, s': NState)
    requires path.Cons? && AllStatic(path) && Yields(e, env, s, Done(v, s0))
    requires Yields(HasAttr(e, path), env, s, Done(Data(Bool(b)), s'))
    ensures b ==> exists c ::
      && Found(Direct(v), path, s0, c, s')
      && forall r, def :: Yields(Select(e, path, def), env, s, r) <==> Derivable(Force(c, s', r))
    ensures !b ==> forall r :: Yields(Select(e, path, Some(d)), env, s, r) <==> Yields(d, env, s', r)
  {
    var ps := Invert(Eval(HasAttr(e, path), env, s, Done(Data(Bool(b)), s')));
    OneOutcome(e, env, s, ps.head.r, Done(v, s0));
    HasDecidesSelect(path, d, Direct(v), env, s0, b, s');
    forall r, def ensures Yields(Select(e, path, def), env, s, r) <==> Derivable(Follow(Direct(v), path, def, env, s0, r)) {
      SelectIsFollow(e, path, def, env, s, v, s0, r);
    }
    if b {
      var c :| Found(Direct(v), path, s0, c, s')
        && forall r, def :: Derivable(Follow(Direct(v), path, def, env, s0, r)) <==> Derivable(Force(c, s', r));
      assert forall r, def :: Yields(Select(e, path, def), env, s, r) <==> Derivable(Force(c, s', r));
    }
  }

  lemma SelectIsFollow(e: Named, path: List<AttrName<(), ()>>, def: Option<Named>, env: nat, s: NState, v: NValue, s0: NState,
                       r: Out<NValue, NState>)
    requires Yields(e, env, s, Done(v, s0))
    ensures Yields(Select(e, path, def), env, s, r) <==> Derivable(Follow(Direct(v), path, def, env, s0, r))
  {
    var j := Eval(Select(e, path, def), env, s, r);
    if Derivable(j) {
      var ps := Invert(j);
      OneOutcome(e, env, s, ps.head.r, Done(v, s0));
    }
    if Derivable(Follow(Direct(v), path, def, env, s0, r)) {
      Derive2(j, Eval(e, env, s, Done(v, s0)), Follow(Direct(v), path, def, env, s0, r));
    }
  }
}

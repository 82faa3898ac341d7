/** Every attribute set that evaluation makes is sorted by name, strictly: the invariant that
    lets sets be searched and merged by their order, kept by every rule. */
module SortedSets {
  import opened Wrappers
  import opened SortedAttrs
  import opened Syntax
  import opened Scope
  import opened Machine
  import opened NamedEval
  import opened BigStep

  // ---- code whose definitions stand in the order of their names ----

  ghost predicate Ordered(e: Named)
    decreases e
  {
    match e
    case Lit(_) => true
    case Var(_, _) => true
    case InheritFrom(_) => true
    case Select(e1, path, def) => Ordered(e1) && OrderedPath(path) && OrderedOption(def)
    case HasAttr(e1, path) => Ordered(e1) && OrderedPath(path)
    case Attrs(s) => OrderedDefs(s.defs) && OrderedList(s.from) && OrderedDyn(s.dyn)
    case ListE(elems) => OrderedList(elems)
    case Lambda(lam) => OrderedLam(lam)
    case Call(fun, args) => Ordered(fun) && OrderedList(args)
    case Let(defs, from, body) => OrderedDefs(defs) && OrderedList(from) && Ordered(body)
    case With(_, scope, body) => Ordered(scope) && Ordered(body)
    case If(cond, thn, els) => Ordered(cond) && Ordered(thn) && Ordered(els)
    case Assert(cond, body) => Ordered(cond) && Ordered(body)
    case Not(e1) => Ordered(e1)
    case BinBool(_, e1, e2) => Ordered(e1) && Ordered(e2)
    case Update(e1, e2) => Ordered(e1) && Ordered(e2)
    case ConcatLists(e1, e2) => Ordered(e1) && Ordered(e2)
  }

  ghost predicate OrderedOption(e: Option<Named>)
    decreases e
  {
    e.Some? ==> Ordered(e.value)
  }

  ghost predicate OrderedList(es: List<Named>)
    decreases es
  {
    es.Cons? ==> Ordered(es.head) && OrderedList(es.tail)
  }

  ghost predicate OrderedPath(path: List<AttrName<(), ()>>)
    decreases path
  {
    path.Cons? ==> (path.head.Dynamic? ==> Ordered(path.head.e)) && OrderedPath(path.tail)
  }

  ghost predicate OrderedDefs(defs: List<AttrDef<(), ()>>)
    decreases defs
  {
    defs.Cons? ==>
      && Ordered(defs.head.e) && OrderedDefs(defs.tail)
      && (defs.tail.Cons? ==> defs.head.name < defs.tail.head.name)
  }

  ghost predicate OrderedDyn(dyn: List<DynAttr<(), ()>>)
    decreases dyn
  {
    dyn.Cons? ==> Ordered(dyn.head.nameE) && Ordered(dyn.head.valueE) && OrderedDyn(dyn.tail)
  }

  ghost predicate OrderedLam(lam: Lam<(), ()>)
    decreases lam
  {
    Ordered(lam.body) && (lam.Pattern? ==> OrderedFormals(lam.formals))
  }

  ghost predicate OrderedFormals(formals: List<Formal<(), ()>>)
    decreases formals
  {
    formals.Cons? ==> OrderedOption(formals.head.def) && OrderedFormals(formals.tail)
  }

  // ---- states ----

  ghost predicate Tidy(v: NValue) {
    && (v.AttrsV? ==> Sorted(v.attrs))
    && (v.Closure? ==> OrderedLam(v.lam))
  }

  ghost predicate TidyCell(c: NCell) {
    && (c.Val? ==> Tidy(c.v))
    && (c.Thunk? ==> Ordered(c.e))
  }

  /** Every set on the heap is sorted, and so will be those of the code there. */
  ghost predicate TidyState(s: NState) {
    forall c :: 0 <= c < |s.cells| ==> TidyCell(s.cells[c])
  }

  ghost predicate TidyTarget(t: Target<(), ()>) {
    t.Direct? ==> Tidy(t.v)
  }

  // ---- steps ----

  lemma Grown(s: NState, cell: NCell)
    requires TidyState(s) && TidyCell(cell)
    ensures TidyState(Alloc(cell, s).1)
  {}

  lemma MaybeThunkTidy(e: Named, env: nat, s: NState)
    requires TidyState(s) && Ordered(e)
    ensures TidyState(MaybeThunkN(e, env, s).1)
  {
    Grown(s, Thunk(e, env));
    match e
    case Lit(c) => Grown(s, Val(Data(c)));
    case ListE(_) => Grown(s, Val(ListV([])));
    case _ =>
  }

  lemma {:induction false} ThunksTidy(es: List<Named>, env: nat, s: NState)
    requires TidyState(s) && OrderedList(es)
    ensures TidyState(ThunksN(es, env, s).1)
    decreases es
  {
    if es.Cons? {
      MaybeThunkTidy(es.head, env, s);
      ThunksTidy(es.tail, env, MaybeThunkN(es.head, env, s).1);
    }
  }

  lemma SourcesTidy(from: List<Named>, up: nat, s: NState)
    requires TidyState(s) && OrderedList(from)
    ensures TidyState(SourcesN(from, up, s).1)
  {
    ThunksTidy(from, up, s);
  }

  lemma SortedCons(x: Attr<nat>, xs: seq<Attr<nat>>)
    requires Sorted(xs) && (xs != [] ==> x.name < xs[0].name)
    ensures Sorted([x] + xs)
  {}

  lemma {:induction false} DeclareTidy(defs: List<AttrDef<(), ()>>, always: bool, inner: nat, outer: nat, sources: nat, s: NState)
    requires TidyState(s) && OrderedDefs(defs)
    ensures var (attrs, s') := DeclareN(defs, always, inner, outer, sources, s);
      TidyState(s') && Sorted(attrs) && |attrs| == Length(defs) && (defs.Cons? ==> attrs[0].name == defs.head.name)
    decreases defs
  {
    if defs.Cons? {
      var d := defs.head;
      var env := DefEnv(d.kind, inner, outer, sources);
      MaybeThunkTidy(d.e, env, s);
      Grown(s, Thunk(d.e, env));
      var (c, s1) := if always && !d.kind.Inherited? then Alloc(Thunk(d.e, env), s) else MaybeThunkN(d.e, env, s);
      var s2 := SetVar(inner, d.name, c, s1);
      DeclareTidy(defs.tail, always, inner, outer, sources, s2);
      SortedCons(Attr(d.name, c), DeclareN(defs.tail, always, inner, outer, sources, s2).0);
    }
  }

  lemma {:induction false} ThunkDefsTidy(defs: List<AttrDef<(), ()>>, env: nat, sources: nat, s: NState)
    requires TidyState(s) && OrderedDefs(defs)
    ensures var (attrs, s') := ThunkDefsN(defs, env, sources, s);
      TidyState(s') && Sorted(attrs) && |attrs| == Length(defs) && (defs.Cons? ==> attrs[0].name == defs.head.name)
    decreases defs
  {
    if defs.Cons? {
      var d := defs.head;
      var from := DefEnv(d.kind, env, env, sources);
      MaybeThunkTidy(d.e, from, s);
      var (c, s1) := MaybeThunkN(d.e, from, s);
      ThunkDefsTidy(defs.tail, env, sources, s1);
      SortedCons(Attr(d.name, c), ThunkDefsN(defs.tail, env, sources, s1).0);
    }
  }

  lemma OpenTidy(defs: List<AttrDef<(), ()>>, from: List<Named>, always: bool, env: nat, s: NState)
    requires TidyState(s) && OrderedDefs(defs) && OrderedList(from)
    ensures var (attrs, s') := OpenN(defs, from, always, env, s); TidyState(s') && Sorted(attrs)
  {
    var (inner, s1) := PushN(NVars(Some(env), Undeclared(DefNames(defs))), s);
    SourcesTidy(from, inner, s1);
    var (sources, s2) := SourcesN(from, inner, s1);
    DeclareTidy(defs, always, inner, env, sources, s2);
  }

  lemma {:induction false} FormalsTidy(formals: List<Formal<(), ()>>, args: seq<Attr<nat>>, env: nat, s: NState)
    requires TidyState(s) && OrderedFormals(formals)
    ensures var r := FormalsN(formals, args, env, s); r.Done? ==> TidyState(r.s)
    decreases formals
  {
    if formals.Cons? {
      var f, rest := formals.head, formals.tail;
      if Get(args, f.name).Some? {
        FormalsTidy(rest, args, env, SetVar(env, f.name, Get(args, f.name).value, s));
      } else if f.def.Some? {
        MaybeThunkTidy(f.def.value, env, s);
        var (c, s1) := MaybeThunkN(f.def.value, env, s);
        FormalsTidy(rest, args, env, SetVar(env, f.name, c, s1));
      }
    }
  }

  // ---- rules ----

  /** The judgement starts from tidy values and a tidy state. */
  ghost predicate Starts(j: Judgement) {
    && TidyState(j.s)
    && match j
       case Eval(e, _, _, _) => Ordered(e)
       case Force(_, _, _) => true
       case Denote(_, _, _, _) => true
       case Ask(_, _, _, _) => true
       case NameOf(a, _, _, _) => a.Dynamic? ==> Ordered(a.e)
       case Reach(t, _, _) => TidyTarget(t)
       case Follow(t, path, def, _, _, _) => TidyTarget(t) && OrderedPath(path) && OrderedOption(def)
       case Has(t, path, _, _, _) => TidyTarget(t) && OrderedPath(path)
       case Add(dyn, bindings, _, _, _) => OrderedDyn(dyn) && Sorted(bindings)
       case Enter(lam, _, _, _, _) => OrderedLam(lam)
       case Apply(f, _, _, _) => Tidy(f)
  }

  ghost predicate EndsTidy(r: Out<NValue, NState>) {
    r.Done? ==> Tidy(r.v) && TidyState(r.s)
  }

  ghost predicate StateTidy<T(!new)>(r: Out<T, NState>) {
    r.Done? ==> TidyState(r.s)
  }

  ghost predicate Ends(j: Judgement) {
    match j
    case Eval(_, _, _, r) => EndsTidy(r)
    case Force(_, _, r) => EndsTidy(r)
    case Denote(_, _, _, cell) => StateTidy(cell)
    case Ask(_, _, _, cell) => StateTidy(cell)
    case NameOf(_, _, _, text) => StateTidy(text)
    case Reach(_, _, r) => EndsTidy(r)
    case Follow(_, _, _, _, _, r) => EndsTidy(r)
    case Has(_, _, _, _, r) => EndsTidy(r)
    case Add(_, _, _, _, r) => EndsTidy(r)
    case Enter(_, _, _, _, inner) => StateTidy(inner)
    case Apply(_, _, _, r) => EndsTidy(r)
  }

  ghost predicate Kept(ps: List<Judgement>) {
    ps.Cons? ==> (Starts(ps.head) ==> Ends(ps.head)) && Kept(ps.tail)
  }

  /** One more step of the list, for rules with three premises. */
  lemma KeptThird(ps: List<Judgement>)
    requires Kept(ps)
    ensures ps.Cons? && ps.tail.Cons? && ps.tail.tail.Cons? ==> (Starts(ps.tail.tail.head) ==> Ends(ps.tail.tail.head))
  {
    if ps.Cons? && ps.tail.Cons? { assert Kept(ps.tail.tail); }
  }

  lemma RuleKeeps(j: Judgement, ps: List<Judgement>)
    requires Rule(j, ps) && Starts(j) && Kept(ps)
    ensures Ends(j)
  {
    if j.Eval? {
      EvalKeeps(j.e, j.env, j.s, j.r, ps);
    } else if j.Follow? {
      FollowKeeps(j, ps);
    } else if j.Has? {
      HasKeeps(j, ps);
    } else if j.Add? || j.Enter? || j.Apply? {
      BuildKeeps(j, ps);
    } else {
      CellKeeps(j, ps);
    }
  }

  lemma BuildKeeps(j: Judgement, ps: List<Judgement>)
    requires j.Add? || j.Enter? || j.Apply?
    requires Rule(j, ps) && Starts(j) && Kept(ps)
    ensures Ends(j)
  {
    match j
    case Add(dyn, bindings, env, s, r) => AddKeeps(dyn, bindings, env, s, r, ps);
    case Enter(lam, lamEnv, arg, s, inner) => EnterKeeps(lam, lamEnv, arg, s, inner, ps);
    case Apply(f, args, s, r) => ApplyKeeps(f, args, s, r, ps);
  }

  lemma CellKeeps(j: Judgement, ps: List<Judgement>)
    requires j.Force? || j.Denote? || j.Ask? || j.NameOf? || j.Reach?
    requires Rule(j, ps) && Starts(j) && Kept(ps)
    ensures Ends(j)
  {
    match j
    case Force(c, s, r) => ForceKeeps(c, s, r, ps);
    case Ask(name, env, s, cell) => AskKeeps(name, env, s, cell, ps);
    case NameOf(a, env, s, text) => NameKeeps(a, env, s, text, ps);
    case _ =>
  }

  lemma ForceKeeps(c: nat, s: NState, r: Out<NValue, NState>, ps: List<Judgement>)
    requires ForceRule(c, s, r, ps) && TidyState(s) && Kept(ps)
    ensures EndsTidy(r)
  {
    if c < |s.cells| {
      assert TidyCell(s.cells[c]);
      if s.cells[c].Thunk? { assert Starts(ps.head); }
    }
  }

  lemma AskKeeps(name: Symbol, env: nat, s: NState, cell: Out<nat, NState>, ps: List<Judgement>)
    requires AskRule(name, env, s, cell, ps) && TidyState(s) && Kept(ps)
    ensures StateTidy(cell)
  {
    if env < |s.envs| && s.envs[env].NWith? { assert Starts(ps.head); }
  }

  lemma NameKeeps(a: AttrName<(), ()>, env: nat, s: NState, text: Out<Symbol, NState>, ps: List<Judgement>)
    requires Rule(NameOf(a, env, s, text), ps) && Starts(NameOf(a, env, s, text)) && Kept(ps)
    ensures StateTidy(text)
  {
    if a.Dynamic? { assert Starts(ps.head); }
  }

  lemma FollowKeeps(j: Judgement, ps: List<Judgement>)
    requires j.Follow? && Rule(j, ps) && Starts(j) && Kept(ps)
    ensures EndsTidy(j.r)
  {
    KeptThird(ps);
    assert Starts(ps.head);
  }

  lemma HasKeeps(j: Judgement, ps: List<Judgement>)
    requires j.Has? && Rule(j, ps) && Starts(j) && Kept(ps)
    ensures EndsTidy(j.r)
  {
    KeptThird(ps);
    if ps.Cons? { assert Starts(ps.head); }
  }

  lemma AddKeeps(dyn: List<DynAttr<(), ()>>, bindings: seq<Attr<nat>>, env: nat, s: NState, r: Out<NValue, NState>, ps: List<Judgement>)
    requires AddRule(dyn, bindings, env, s, r, ps) && TidyState(s) && OrderedDyn(dyn) && Sorted(bindings) && Kept(ps)
    ensures EndsTidy(r)
  {
    if dyn.Cons? {
      assert Starts(ps.head);
      match ps.head.r
      case Done(Data(Str(sym)), s1) =>
        MaybeThunkTidy(dyn.head.valueE, env, s1);
        var c := MaybeThunkN(dyn.head.valueE, env, s1).0;
        InsertOk(bindings, Attr(sym, c));
      case _ =>
    }
  }

  lemma EnterKeeps(lam: Lam<(), ()>, lamEnv: nat, arg: nat, s: NState, inner: Out<nat, NState>, ps: List<Judgement>)
    requires EnterRule(lam, lamEnv, arg, s, inner, ps) && TidyState(s) && OrderedLam(lam) && Kept(ps)
    ensures StateTidy(inner)
  {
    if lam.Pattern? {
      assert Starts(ps.head);
      match AsSet(ps.head.r)
      case Done(attrs, s1) =>
        var vars := Undeclared(LamNames(lam));
        var frame := NVars(Some(lamEnv), if lam.at.Some? then vars[lam.at.value := Some(arg)] else vars);
        FormalsTidy(lam.formals, attrs, |s1.envs|, s1.(envs := s1.envs + [frame]));
      case _ =>
    }
  }

  lemma ApplyKeeps(f: NValue, args: seq<nat>, s: NState, r: Out<NValue, NState>, ps: List<Judgement>)
    requires ApplyRule(f, args, s, r, ps) && TidyState(s) && Tidy(f) && Kept(ps)
    ensures EndsTidy(r)
  {
    KeptThird(ps);
    Grown(s, Val(f));
    if ps.Cons? { assert Starts(ps.head); }
  }

  lemma EvalKeeps(e: Named, env: nat, s: NState, r: Out<NValue, NState>, ps: List<Judgement>)
    requires EvalRule(e, env, s, r, ps) && TidyState(s) && Ordered(e) && Kept(ps)
    ensures EndsTidy(r)
  {
    if e.Attrs? {
      SetKeeps(e.attrs, env, s, r, ps);
    } else if e.Update? {
      UpdateKeeps(e, env, s, r, ps);
    } else if e.If? || e.Assert? || e.Not? || e.BinBool? || e.ConcatLists? {
      OperatorKeeps(e, env, s, r, ps);
    } else {
      FormKeeps(e, env, s, r, ps);
    }
  }

  lemma OperatorKeeps(e: Named, env: nat, s: NState, r: Out<NValue, NState>, ps: List<Judgement>)
    requires e.If? || e.Assert? || e.Not? || e.BinBool? || e.ConcatLists?
    requires EvalRule(e, env, s, r, ps) && TidyState(s) && Ordered(e) && Kept(ps)
    ensures EndsTidy(r)
  {
    assert Starts(ps.head);
  }

  lemma FormKeeps(e: Named, env: nat, s: NState, r: Out<NValue, NState>, ps: List<Judgement>)
    requires e.Lit? || e.Lambda? || e.ListE? || e.Var? || e.InheritFrom? || e.Select? || e.HasAttr? || e.Call? || e.Let? || e.With?
    requires EvalRule(e, env, s, r, ps) && TidyState(s) && Ordered(e) && Kept(ps)
    ensures EndsTidy(r)
  {
    match e
    case ListE(elems) => ThunksTidy(elems, env, s);
    case Call(_, args) =>
      assert Starts(ps.head);
      if ps.head.r.Done? { ThunksTidy(args, env, ps.head.r.s); }
    case Let(defs, from, _) => OpenTidy(defs, from, false, env, s);
    case With(_, scope, _) => MaybeThunkTidy(scope, env, s);
    case Lit(_) =>
    case Lambda(_) =>
    case InheritFrom(_) =>
    case _ => assert Starts(ps.head);
  }

  lemma UpdateKeeps(e: Named, env: nat, s: NState, r: Out<NValue, NState>, ps: List<Judgement>)
    requires e.Update? && EvalRule(e, env, s, r, ps) && TidyState(s) && Ordered(e) && Kept(ps)
    ensures EndsTidy(r)
  {
    assert Starts(ps.head);
    if r.Done? {
      assert Starts(ps.tail.head);
      MergeSorted(ps.tail.head.r.v.attrs, ps.head.r.v.attrs);
    }
  }

  lemma SetKeeps(attrs: AttrSet<(), ()>, env: nat, s: NState, r: Out<NValue, NState>, ps: List<Judgement>)
    requires SetRule(attrs, env, s, r, ps) && TidyState(s) && Ordered(Attrs(attrs)) && Kept(ps)
    ensures EndsTidy(r)
  {
    if !attrs.recursive {
      SourcesTidy(attrs.from, env, s);
      var (sources, s1) := SourcesN(attrs.from, env, s);
      ThunkDefsTidy(attrs.defs, env, sources, s1);
    } else {
      var always := OVERRIDES in DefNames(attrs.defs);
      OpenTidy(attrs.defs, attrs.from, always, env, s);
      var (bindings, s1) := OpenN(attrs.defs, attrs.from, always, env, s);
      if Get(bindings, OVERRIDES).Some? {
        assert Starts(ps.head);
        match AsSet(ps.head.r)
        case Done(over, _) => MergeSorted(bindings, over);
        case _ =>
      }
    }
  }

  // ---- runs ----

  lemma {:induction false} DerivedKeeps(d: Derivation)
    requires Valid(d) && Starts(d.j)
    ensures Ends(d.j)
    decreases d
  {
    AllKeep(d.premises);
    RuleKeeps(d.j, Conclusions(d.premises));
  }

  lemma {:induction false} AllKeep(ds: List<Derivation>)
    requires AllValid(ds)
    ensures Kept(Conclusions(ds))
    decreases ds
  {
    if ds.Cons? {
      if Starts(ds.head.j) { DerivedKeeps(ds.head); }
      AllKeep(ds.tail);
    }
  }

  /** Whatever ordered code evaluates to, every set in the result and on the heap is sorted. */
  lemma SetsAreSorted(e: Named, env: nat, s: NState, v: NValue, s': NState)
    requires Ordered(e) && TidyState(s) && Derivable(Eval(e, env, s, Done(v, s')))
    ensures Tidy(v) && TidyState(s')
  {
    var d :| Valid(d) && d.j == Eval(e, env, s, Done(v, s'));
    DerivedKeeps(d);
  }
}

/** What expressions mean: a big-step semantics without fuel, one rule for each form. The
    evaluator by name ends with an outcome, for some fuel, exactly when a derivation does. */
module BigStep {
  import opened Wrappers
  import opened SortedAttrs
  import opened Syntax
  import opened Scope
  import opened Machine
  import opened NamedEval

  // ---- judgements ----

  datatype Judgement =
    // in environment `env` and state `s`, `e` has outcome `r`
    | Eval(e: Named, env: nat, s: NState, r: Out<NValue, NState>)
    | Force(c: nat, s: NState, r: Out<NValue, NState>)
    // the cell that a name denotes
    | Denote(name: Symbol, env: nat, s: NState, cell: Out<nat, NState>)
    // the cell that the `with` sets from `env` outwards give to a name
    | Ask(name: Symbol, env: nat, s: NState, cell: Out<nat, NState>)
    | NameOf(a: AttrName<(), ()>, env: nat, s: NState, text: Out<Symbol, NState>)
    | Reach(t: Target<(), ()>, s: NState, r: Out<NValue, NState>)
    | Follow(t: Target<(), ()>, path: List<AttrName<(), ()>>, def: Option<Named>, env: nat, s: NState, r: Out<NValue, NState>)
    | Has(t: Target<(), ()>, path: List<AttrName<(), ()>>, env: nat, s: NState, r: Out<NValue, NState>)
    // the dynamic attributes that are still to be added to `bindings`
    | Add(dyn: List<DynAttr<(), ()>>, bindings: seq<Attr<nat>>, env: nat, s: NState, r: Out<NValue, NState>)
    // the environment of a lambda body
    | Enter(lam: Lam<(), ()>, lamEnv: nat, arg: nat, s: NState, inner: Out<nat, NState>)
    | Apply(f: NValue, args: seq<nat>, s: NState, r: Out<NValue, NState>)

  function AsBool(r: Out<NValue, NState>): Out<bool, NState> {
    match r
    case Done(Data(Bool(b)), s) => Done(b, s)
    case Done(_, _) => Raised(TypeError)
    case Raised(err) => Raised(err)
    case OutOfFuel => OutOfFuel
  }

  function AsName(r: Out<NValue, NState>): Out<Symbol, NState> {
    match r
    case Done(Data(Str(sym)), s) => Done(sym, s)
    case Done(_, _) => Raised(TypeError)
    case Raised(err) => Raised(err)
    case OutOfFuel => OutOfFuel
  }

  function AsSet(r: Out<NValue, NState>): Out<seq<Attr<nat>>, NState> {
    match r
    case Done(AttrsV(attrs), s) => Done(attrs, s)
    case Done(_, _) => Raised(TypeError)
    case Raised(err) => Raised(err)
    case OutOfFuel => OutOfFuel
  }

  /** The first premise evaluates `e`. */
  ghost predicate Evals(ps: List<Judgement>, e: Named, env: nat, s: NState) {
    ps.Cons? && ps.head.Eval? && ps.head.e == e && ps.head.env == env && ps.head.s == s
  }

  ghost predicate Forces(ps: List<Judgement>, c: nat, s: NState) {
    ps.Cons? && ps.head.Force? && ps.head.c == c && ps.head.s == s
  }

  ghost predicate Only(ps: List<Judgement>, j: Judgement) {
    ps == Cons(j, Nil)
  }

  // ---- rules ----

  ghost predicate Rule(j: Judgement, ps: List<Judgement>) {
    match j
    case Eval(e, env, s, r) => EvalRule(e, env, s, r, ps)
    case Force(c, s, r) => ForceRule(c, s, r, ps)
    case Denote(name, env, s, cell) =>
      (match Find(s.envs, env, name)
       case Some(Some(c)) => ps.Nil? && cell == Done(c, s)
       case Some(None) => ps.Nil? && cell == Raised(Stuck)
       case None => Only(ps, Ask(name, env, s, cell)))
    case Ask(name, env, s, cell) => AskRule(name, env, s, cell, ps)
    case NameOf(Static(sym), env, s, text) => ps.Nil? && text == Done(sym, s)
    case NameOf(Dynamic(e), env, s, text) => Evals(ps, e, env, s) && ps.tail.Nil? && text == AsName(ps.head.r)
    case Reach(Direct(v), s, r) => ps.Nil? && r == Done(v, s)
    case Reach(At(c), s, r) => Only(ps, Force(c, s, r))
    case Follow(t, path, def, env, s, r) => SelectRule(t, path, def, env, s, r, ps)
    case Has(t, path, env, s, r) => HasRule(t, path, env, s, r, ps)
    case Add(dyn, bindings, env, s, r) => AddRule(dyn, bindings, env, s, r, ps)
    case Enter(lam, lamEnv, arg, s, inner) => EnterRule(lam, lamEnv, arg, s, inner, ps)
    case Apply(f, args, s, r) => ApplyRule(f, args, s, r, ps)
  }

  ghost predicate ForceRule(c: nat, s: NState, r: Out<NValue, NState>, ps: List<Judgement>) {
    if c >= |s.cells| then ps.Nil? && r == Raised(Stuck)
    else match s.cells[c]
      case Val(v) => ps.Nil? && r == Done(v, s)
      case BlackHole => ps.Nil? && r == Raised(InfiniteRecursion)
      case Thunk(e, env) =>
        && Evals(ps, e, env, s.(cells := s.cells[c := BlackHole])) && ps.tail.Nil?
        && match ps.head.r
           case Raised(err) => r == Raised(err)
           case OutOfFuel => false
           case Done(v, s1) =>
             r == if c < |s1.cells| then Done(v, s1.(cells := s1.cells[c := Val(v)])) else Raised(Stuck)
  }

  ghost predicate AskRule(name: Symbol, env: nat, s: NState, cell: Out<nat, NState>, ps: List<Judgement>) {
    if env >= |s.envs| then ps.Nil? && cell == Raised(Stuck)
    else match s.envs[env]
      case NWith(_, c0) =>
        && Forces(ps, c0, s)
        && (match AsSet(ps.head.r)
            case Raised(err) => ps.tail.Nil? && cell == Raised(err)
            case OutOfFuel => false
            case Done(attrs, s1) =>
              match Get(attrs, name)
              case Some(c) => ps.tail.Nil? && cell == Done(c, s1)
              case None =>
                if env < |s1.envs| then Outwards(name, s1.envs[env].up, env, s1, cell, ps.tail)
                else ps.tail.Nil? && cell == Raised(Stuck))
      case _ => Outwards(name, s.envs[env].up, env, s, cell, ps)
  }

  ghost predicate Outwards(name: Symbol, up: Option<nat>, env: nat, s: NState, cell: Out<nat, NState>, ps: List<Judgement>) {
    match up
    case None => ps.Nil? && cell == Raised(UndefinedVar(name))
    case Some(u) => if u < env then Only(ps, Ask(name, u, s, cell)) else ps.Nil? && cell == Raised(Stuck)
  }

  ghost predicate EvalRule(e: Named, env: nat, s: NState, r: Out<NValue, NState>, ps: List<Judgement>) {
    match e
    case Lit(c) => ps.Nil? && r == Done(Data(c), s)
    case Lambda(lam) => ps.Nil? && r == Done(Closure(lam, env), s)
    case ListE(elems) => ps.Nil? && var (cs, s1) := ThunksN(elems, env, s); r == Done(ListV(cs), s1)
    case Var(name, _) =>
      && ps.Cons? && ps.head.Denote? && ps.head.name == name && ps.head.env == env && ps.head.s == s
      && (match ps.head.cell
          case Raised(err) => ps.tail.Nil? && r == Raised(err)
          case OutOfFuel => false
          case Done(c, s1) => Only(ps.tail, Force(c, s1, r)))
    case InheritFrom(displ) =>
      (match Source(s.envs, env, displ)
       case None => ps.Nil? && r == Raised(Stuck)
       case Some(c) => Only(ps, Force(c, s, r)))
    case Select(e1, path, def) =>
      && Evals(ps, e1, env, s)
      && (match ps.head.r
          case Raised(err) => ps.tail.Nil? && r == Raised(err)
          case OutOfFuel => false
          case Done(v, s1) => Only(ps.tail, Follow(Direct(v), path, def, env, s1, r)))
    case HasAttr(e1, path) =>
      && Evals(ps, e1, env, s)
      && (match ps.head.r
          case Raised(err) => ps.tail.Nil? && r == Raised(err)
          case OutOfFuel => false
          case Done(v, s1) => Only(ps.tail, Has(Direct(v), path, env, s1, r)))
    case Attrs(attrs) => SetRule(attrs, env, s, r, ps)
    case Call(fun, args) =>
      && Evals(ps, fun, env, s)
      && (match ps.head.r
          case Raised(err) => ps.tail.Nil? && r == Raised(err)
          case OutOfFuel => false
          case Done(f, s1) => var (cs, s2) := ThunksN(args, env, s1); Only(ps.tail, Apply(f, cs, s2, r)))
    case Let(defs, from, body) =>
      var (_, s1) := OpenN(defs, from, false, env, s);
      Only(ps, Eval(body, |s.envs|, s1, r))
    case With(_, scope, body) =>
      var (c, s1) := MaybeThunkN(scope, env, s);
      Only(ps, Eval(body, |s1.envs|, s1.(envs := s1.envs + [NWith(Some(env), c)]), r))
    case If(cond, thn, els) =>
      && Evals(ps, cond, env, s)
      && (match AsBool(ps.head.r)
          case Raised(err) => ps.tail.Nil? && r == Raised(err)
          case OutOfFuel => false
          case Done(true, s1) => Only(ps.tail, Eval(thn, env, s1, r))
          case Done(false, s1) => Only(ps.tail, Eval(els, env, s1, r)))
    case Assert(cond, body) =>
      && Evals(ps, cond, env, s)
      && (match AsBool(ps.head.r)
          case Raised(err) => ps.tail.Nil? && r == Raised(err)
          case OutOfFuel => false
          case Done(true, s1) => Only(ps.tail, Eval(body, env, s1, r))
          case Done(false, _) => ps.tail.Nil? && r == Raised(AssertFailed))
    case Not(e1) =>
      && Evals(ps, e1, env, s) && ps.tail.Nil?
      && (match AsBool(ps.head.r)
          case Raised(err) => r == Raised(err)
          case OutOfFuel => false
          case Done(true, s1) => r == Done(Data(Bool(false)), s1)
          case Done(false, s1) => r == Done(Data(Bool(true)), s1))
    case BinBool(op, e1, e2) =>
      && Evals(ps, e1, env, s)
      && (match AsBool(ps.head.r)
          case Raised(err) => ps.tail.Nil? && r == Raised(err)
          case OutOfFuel => false
          case Done(b, s1) =>
            match (op, b)
            case (And, false) => ps.tail.Nil? && r == Done(Data(Bool(false)), s1)
            case (Or, true) => ps.tail.Nil? && r == Done(Data(Bool(true)), s1)
            case (Impl, false) => ps.tail.Nil? && r == Done(Data(Bool(true)), s1)
            case _ => TruthRule(e2, env, s1, r, ps.tail))
    case Update(e1, e2) =>
      && Evals(ps, e2, env, s)
      && (match AsSet(ps.head.r)
          case Raised(err) => ps.tail.Nil? && r == Raised(err)
          case OutOfFuel => false
          case Done(right, s1) =>
            && Evals(ps.tail, e1, env, s1) && ps.tail.tail.Nil?
            && match AsSet(ps.tail.head.r)
               case Raised(err) => r == Raised(err)
               case OutOfFuel => false
               case Done(left, s2) => r == Done(AttrsV(Merge(left, right)), s2))
    case ConcatLists(e1, e2) =>
      && Evals(ps, e1, env, s)
      && (match ps.head.r
          case Raised(err) => ps.tail.Nil? && r == Raised(err)
          case OutOfFuel => false
          case Done(v1, s1) =>
            && Evals(ps.tail, e2, env, s1) && ps.tail.tail.Nil?
            && match ps.tail.head.r
               case Raised(err) => r == Raised(err)
               case OutOfFuel => false
               case Done(v2, s2) =>
                 r == if v1.ListV? && v2.ListV? then Done(ListV(v1.elems + v2.elems), s2) else Raised(TypeError))
  }

  /** The boolean that `e` evaluates to. */
  ghost predicate TruthRule(e: Named, env: nat, s: NState, r: Out<NValue, NState>, ps: List<Judgement>) {
    && Evals(ps, e, env, s) && ps.tail.Nil?
    && match AsBool(ps.head.r)
       case Raised(err) => r == Raised(err)
       case OutOfFuel => false
       case Done(b, s1) => r == Done(Data(Bool(b)), s1)
  }

  ghost predicate SetRule(attrs: AttrSet<(), ()>, env: nat, s: NState, r: Out<NValue, NState>, ps: List<Judgement>) {
    if !attrs.recursive then
      var (sources, s1) := SourcesN(attrs.from, env, s);
      var (bindings, s2) := ThunkDefsN(attrs.defs, env, sources, s1);
      Only(ps, Add(attrs.dyn, bindings, env, s2, r))
    else
      var (bindings, s1) := OpenN(attrs.defs, attrs.from, OVERRIDES in DefNames(attrs.defs), env, s);
      match Get(bindings, OVERRIDES)
      case None => Only(ps, Add(attrs.dyn, bindings, |s.envs|, s1, r))
      case Some(c) =>
        && Forces(ps, c, s1)
        && match AsSet(ps.head.r)
           case Raised(err) => ps.tail.Nil? && r == Raised(err)
           case OutOfFuel => false
           case Done(over, s2) => Only(ps.tail, Add(attrs.dyn, Merge(bindings, over), |s.envs|, OverrideN(over, |s.envs|, s2), r))
  }

  ghost predicate AddRule(dyn: List<DynAttr<(), ()>>, bindings: seq<Attr<nat>>, env: nat, s: NState, r: Out<NValue, NState>,
                          ps: List<Judgement>)
  {
    match dyn
    case Nil => ps.Nil? && r == Done(AttrsV(bindings), s)
    case Cons(d, rest) =>
      && Evals(ps, d.nameE, env, s)
      && match ps.head.r
         case Raised(err) => ps.tail.Nil? && r == Raised(err)
         case OutOfFuel => false
         case Done(Data(Null), s1) => Only(ps.tail, Add(rest, bindings, env, s1, r))
         case Done(Data(Str(sym)), s1) =>
           if Get(bindings, sym).Some? then ps.tail.Nil? && r == Raised(DuplicateAttr(sym))
           else
             var (c, s2) := MaybeThunkN(d.valueE, env, s1);
             Only(ps.tail, Add(rest, Insert(bindings, Attr(sym, c)), env, s2, r))
         case Done(_, _) => ps.tail.Nil? && r == Raised(TypeError)
  }

  ghost predicate SelectRule(t: Target<(), ()>, path: List<AttrName<(), ()>>, def: Option<Named>, env: nat, s: NState,
                             r: Out<NValue, NState>, ps: List<Judgement>)
  {
    match path
    case Nil => Only(ps, Reach(t, s, r))
    case Cons(a, rest) =>
      && ps.Cons? && ps.head.NameOf? && ps.head.a == a && ps.head.env == env && ps.head.s == s
      && match ps.head.text
         case Raised(err) => ps.tail.Nil? && r == Raised(err)
         case OutOfFuel => false
         case Done(name, s1) =>
           && ps.tail.Cons? && ps.tail.head.Reach? && ps.tail.head.t == t && ps.tail.head.s == s1
           && match ps.tail.head.r
              case Raised(err) => ps.tail.tail.Nil? && r == Raised(err)
              case OutOfFuel => false
              case Done(v, s2) =>
                match PartOf(v, name)
                case Some(c) => Only(ps.tail.tail, Follow(At(c), rest, def, env, s2, r))
                case None =>
                  match def
                  case Some(d) => Only(ps.tail.tail, Eval(d, env, s2, r))
                  case None => ps.tail.tail.Nil? && r == Raised(if v.AttrsV? then MissingAttr(name) else TypeError)
  }

  /** The attribute of a value, if it is a set that has it. */
  function PartOf(v: NValue, name: Symbol): Option<nat> {
    match v case AttrsV(attrs) => Get(attrs, name) case _ => None
  }

  ghost predicate HasRule(t: Target<(), ()>, path: List<AttrName<(), ()>>, env: nat, s: NState, r: Out<NValue, NState>, ps: List<Judgement>) {
    match path
    case Nil => ps.Nil? && r == Done(Data(Bool(true)), s)
    case Cons(a, rest) =>
      && ps.Cons? && ps.head.Reach? && ps.head.t == t && ps.head.s == s
      && match ps.head.r
         case Raised(err) => ps.tail.Nil? && r == Raised(err)
         case OutOfFuel => false
         case Done(v, s1) =>
           && ps.tail.Cons? && ps.tail.head.NameOf? && ps.tail.head.a == a && ps.tail.head.env == env && ps.tail.head.s == s1
           && match ps.tail.head.text
              case Raised(err) => ps.tail.tail.Nil? && r == Raised(err)
              case OutOfFuel => false
              case Done(name, s2) =>
                match PartOf(v, name)
                case Some(c) => Only(ps.tail.tail, Has(At(c), rest, env, s2, r))
                case None => ps.tail.tail.Nil? && r == Done(Data(Bool(false)), s2)
  }

  ghost predicate EnterRule(lam: Lam<(), ()>, lamEnv: nat, arg: nat, s: NState, inner: Out<nat, NState>, ps: List<Judgement>) {
    match lam
    case ArgOnly(x, _) => ps.Nil? && inner == Done(|s.envs|, s.(envs := s.envs + [NVars(Some(lamEnv), map[x := Some(arg)])]))
    case Pattern(at, formals, ellipsis, _) =>
      && Forces(ps, arg, s) && ps.tail.Nil?
      && match AsSet(ps.head.r)
         case Raised(err) => inner == Raised(err)
         case OutOfFuel => false
         case Done(attrs, s1) =>
           var vars := Undeclared(LamNames(lam));
           var frame := NVars(Some(lamEnv), if at.Some? then vars[at.value := Some(arg)] else vars);
           match FormalsN(formals, attrs, |s1.envs|, s1.(envs := s1.envs + [frame]))
           case Raised(err) => inner == Raised(err)
           case OutOfFuel => false
           case Done(_, s2) =>
             match FirstUnexpected(attrs, FormalNames(formals))
             case Some(name) => inner == if ellipsis then Done(|s1.envs|, s2) else Raised(UnexpectedArg(name))
             case None => inner == Done(|s1.envs|, s2)
  }

  ghost predicate ApplyRule(f: NValue, args: seq<nat>, s: NState, r: Out<NValue, NState>, ps: List<Judgement>) {
    if args == [] then ps.Nil? && r == Done(f, s)
    else match f
      case Closure(lam, env) =>
        && ps.Cons? && ps.head.Enter? && ps.head.lam == lam && ps.head.lamEnv == env && ps.head.arg == args[0] && ps.head.s == s
        && (match ps.head.inner
            case Raised(err) => ps.tail.Nil? && r == Raised(err)
            case OutOfFuel => false
            case Done(inner, s1) =>
              && Evals(ps.tail, lam.body, inner, s1)
              && match ps.tail.head.r
                 case Raised(err) => ps.tail.tail.Nil? && r == Raised(err)
                 case OutOfFuel => false
                 case Done(v, s2) => Only(ps.tail.tail, Apply(v, args[1..], s2, r)))
      case AttrsV(attrs) =>
        (match Get(attrs, FUNCTOR)
         case None => ps.Nil? && r == Raised(TypeError)
         case Some(functor) =>
           // the functor gets the set itself, in a new cell, and then the argument
           var s1 := s.(cells := s.cells + [Val(f)]);
           && Forces(ps, functor, s1)
           && match ps.head.r
              case Raised(err) => ps.tail.Nil? && r == Raised(err)
              case OutOfFuel => false
              case Done(g, s2) =>
                && ps.tail.Cons? && ps.tail.head.Apply? && ps.tail.head.f == g && ps.tail.head.args == [|s.cells|, args[0]] && ps.tail.head.s == s2
                && match ps.tail.head.r
                   case Raised(err) => ps.tail.tail.Nil? && r == Raised(err)
                   case OutOfFuel => false
                   case Done(v, s3) => Only(ps.tail.tail, Apply(v, args[1..], s3, r)))
      case _ => ps.Nil? && r == Raised(TypeError)
  }

  // ---- derivations ----

  datatype Derivation = By(j: Judgement, premises: List<Derivation>)

  function Conclusions(ds: List<Derivation>): List<Judgement> {
    match ds case Nil => Nil case Cons(d, rest) => Cons(d.j, Conclusions(rest))
  }

  ghost predicate Valid(d: Derivation)
    decreases d
  {
    Rule(d.j, Conclusions(d.premises)) && AllValid(d.premises)
  }

  ghost predicate AllValid(ds: List<Derivation>)
    decreases ds
  {
    ds.Cons? ==> Valid(ds.head) && AllValid(ds.tail)
  }

  ghost predicate Derivable(j: Judgement) {
    exists d :: Valid(d) && d.j == j
  }

  ghost predicate AllDerivable(ps: List<Judgement>) {
    ps.Cons? ==> Derivable(ps.head) && AllDerivable(ps.tail)
  }

  /** Every premise has a derivation, so the conclusion has. */
  lemma Derive(j: Judgement, ps: List<Judgement>)
    requires Rule(j, ps) && AllDerivable(ps)
    ensures Derivable(j)
  {
    var ds := Collect(ps);
    assert Valid(By(j, ds));
  }

  lemma Derive1(j: Judgement, p: Judgement)
    requires Rule(j, Cons(p, Nil)) && Derivable(p)
    ensures Derivable(j)
  {
    assert AllDerivable(Nil);
    Derive(j, Cons(p, Nil));
  }

  lemma Derive2(j: Judgement, p: Judgement, q: Judgement)
    requires Rule(j, Cons(p, Cons(q, Nil))) && Derivable(p) && Derivable(q)
    ensures Derivable(j)
  {
    assert AllDerivable(Cons(q, Nil));
    Derive(j, Cons(p, Cons(q, Nil)));
  }

  lemma Derive3(j: Judgement, p: Judgement, q: Judgement, o: Judgement)
    requires Rule(j, Cons(p, Cons(q, Cons(o, Nil)))) && Derivable(p) && Derivable(q) && Derivable(o)
    ensures Derivable(j)
  {
    assert AllDerivable(Cons(o, Nil)) && AllDerivable(Cons(q, Cons(o, Nil)));
    Derive(j, Cons(p, Cons(q, Cons(o, Nil))));
  }

  lemma Collect(ps: List<Judgement>) returns (ds: List<Derivation>)
    requires AllDerivable(ps)
    ensures AllValid(ds) && Conclusions(ds) == ps
  {
    match ps
    case Nil => ds := Nil;
    case Cons(p, rest) =>
      var d :| Valid(d) && d.j == p;
      var more := Collect(rest);
      ds := Cons(d, more);
  }

  /** The last step of a derivation. */
  lemma Invert(j: Judgement) returns (ps: List<Judgement>)
    requires Derivable(j)
    ensures Rule(j, ps) && AllDerivable(ps)
    ensures ps.Cons? && ps.tail.Cons? && ps.tail.tail.Cons? ==> Derivable(ps.tail.tail.head)
  {
    var d :| Valid(d) && d.j == j;
    ps := Conclusions(d.premises);
    AllOf(d.premises);
    if ps.Cons? && ps.tail.Cons? { assert AllDerivable(ps.tail.tail); }
  }

  lemma AllOf(ds: List<Derivation>)
    requires AllValid(ds)
    ensures AllDerivable(Conclusions(ds))
    decreases ds
  {
    if ds.Cons? { AllOf(ds.tail); }
  }
}

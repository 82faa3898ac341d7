/** The evaluator that follows (level, displacement) pairs blindly: environments are arrays
    of slots without names. */
module AddressedEval {
  import opened Wrappers
  import opened SortedAttrs
  import opened Syntax
  import opened Scope
  import opened Machine

  // An empty slot is one the enclosing construct has not filled yet.
  datatype AFrame = AFrame(up: Option<nat>, values: seq<Option<nat>>)

  type AValue = Value<Addr, WithInfo>
  type ACell = Cell<Addr, WithInfo>
  type AState = State<Addr, WithInfo, AFrame>

  function Climb(envs: seq<AFrame>, env: nat, level: nat): (r: Option<nat>)
    ensures r.Some? ==> r.value < |envs|
    decreases level
  {
    if env >= |envs| then None
    else if level == 0 then Some(env)
    else match envs[env].up
      case None => None
      case Some(u) => Climb(envs, u, level - 1)
  }

  function Slot(envs: seq<AFrame>, env: nat, level: nat, displ: nat): Option<nat> {
    match Climb(envs, env, level)
    case None => None
    case Some(f) => if displ < |envs[f].values| then envs[f].values[displ] else None
  }

  function SetSlot(env: nat, displ: nat, c: nat, s: AState): AState {
    if env < |s.envs| && displ < |s.envs[env].values| then
      s.(envs := s.envs[env := s.envs[env].(values := s.envs[env].values[displ := Some(c)])])
    else s
  }

  function Push(f: AFrame, s: AState): (nat, AState) {
    (|s.envs|, s.(envs := s.envs + [f]))
  }

  function MaybeThunkA(e: Bound, env: nat, s: AState): (nat, AState) {
    if !s.reuse then Alloc(Thunk(e, env), s) else
    match e
    case Lit(c) => Alloc(Val(Data(c)), s)
    case ListE(Nil) => Alloc(Val(ListV([])), s)
    case Var(_, Lexical(level, displ)) =>
      (match Slot(s.envs, env, level, displ)
       case Some(c) => (c, s)
       case None => Alloc(Thunk(e, env), s))
    case InheritFrom(displ) =>
      (match Slot(s.envs, env, 0, displ)
       case Some(c) => (c, s)
       case None => Alloc(Thunk(e, env), s))
    case _ => Alloc(Thunk(e, env), s)
  }

  function ThunksA(es: List<Bound>, env: nat, s: AState): (seq<nat>, AState) {
    match es
    case Nil => ([], s)
    case Cons(e, rest) =>
      var (c, s1) := MaybeThunkA(e, env, s);
      var (cs, s2) := ThunksA(rest, env, s1);
      ([c] + cs, s2)
  }

  /** The environment of `inherit (src)` sources; `up` itself when there are none. */
  function SourcesA(from: List<Bound>, up: nat, s: AState): (nat, AState) {
    if from.Nil? then (up, s) else
    var (cs, s1) := ThunksA(from, up, s);
    Push(AFrame(Some(up), seq(|cs|, i requires 0 <= i < |cs| => Some(cs[i]))), s1)
  }

  /** Fills the slots of `inner` one after the other; `always` asks for thunks because
      `__overrides` may replace the slots later. */
  function FillA(defs: List<AttrDef<Addr, WithInfo>>, displ: nat, always: bool, inner: nat, outer: nat, sources: nat, s: AState)
    : (seq<Attr<nat>>, AState)
  {
    match defs
    case Nil => ([], s)
    case Cons(d, rest) =>
      var env := DefEnv(d.kind, inner, outer, sources);
      var (c, s1) := if always && !d.kind.Inherited? then Alloc(Thunk(d.e, env), s) else MaybeThunkA(d.e, env, s);
      var (attrs, s2) := FillA(rest, displ + 1, always, inner, outer, sources, SetSlot(inner, displ, c, s1));
      ([Attr(d.name, c)] + attrs, s2)
  }

  function ThunkDefsA(defs: List<AttrDef<Addr, WithInfo>>, env: nat, sources: nat, s: AState): (seq<Attr<nat>>, AState) {
    match defs
    case Nil => ([], s)
    case Cons(d, rest) =>
      var (c, s1) := MaybeThunkA(d.e, DefEnv(d.kind, env, env, sources), s);
      var (attrs, s2) := ThunkDefsA(rest, env, sources, s1);
      ([Attr(d.name, c)] + attrs, s2)
  }

  function OverrideSlotsA(names: seq<Symbol>, over: seq<Attr<nat>>, env: nat, s: AState): AState {
    if over == [] then s else
    var s1 := match IndexOf(names, over[0].name)
      case None => s
      case Some(displ) => SetSlot(env, displ, over[0].value, s);
    OverrideSlotsA(names, over[1..], env, s1)
  }

  /** Walks the formals; the result counts the arguments used. */
  function FormalsA(formals: List<Formal<Addr, WithInfo>>, displ: nat, args: seq<Attr<nat>>, env: nat, s: AState): Out<nat, AState> {
    match formals
    case Nil => Done(0, s)
    case Cons(f, rest) =>
      match Get(args, f.name)
      case Some(c) =>
        var (used, s1) :- FormalsA(rest, displ + 1, args, env, SetSlot(env, displ, c, s));
        Done(used + 1, s1)
      case None =>
        match f.def
        case None => Raised(MissingArg(f.name))
        case Some(d) =>
          var (c, s1) := MaybeThunkA(d, env, s);
          FormalsA(rest, displ + 1, args, env, SetSlot(env, displ, c, s1))
  }

  function ForceA(n: nat, c: nat, s: AState): Out<AValue, AState>
    decreases n, 0
  {
    if n == 0 then OutOfFuel
    else if c >= |s.cells| then Raised(Stuck)
    else match s.cells[c]
      case Val(v) => Done(v, s)
      case BlackHole => Raised(InfiniteRecursion)
      case Thunk(e, env) =>
        var (v, s1) :- EvalA(n - 1, e, env, s.(cells := s.cells[c := BlackHole]));
        if c < |s1.cells| then Done(v, s1.(cells := s1.cells[c := Val(v)])) else Raised(Stuck)
  }

  function EvalA(n: nat, e: Bound, env: nat, s: AState): Out<AValue, AState>
    decreases n, 0
  {
    if n == 0 then OutOfFuel else
    match e
    case Lit(c) => Done(Data(c), s)
    case Var(name, addr) =>
      var (c, s1) :- LookupVar(n - 1, name, addr, env, s);
      ForceA(n - 1, c, s1)
    case InheritFrom(displ) =>
      (match Slot(s.envs, env, 0, displ)
       case None => Raised(Stuck)
       case Some(c) => ForceA(n - 1, c, s))
    case Select(e1, path, def) =>
      var (v, s1) :- EvalA(n - 1, e1, env, s);
      SelectA(n - 1, Direct(v), path, def, env, s1)
    case HasAttr(e1, path) =>
      var (v, s1) :- EvalA(n - 1, e1, env, s);
      HasAttrA(n - 1, Direct(v), path, env, s1)
    case Attrs(attrs) => AttrsA(n - 1, attrs, env, s)
    case ListE(elems) =>
      var (cs, s1) := ThunksA(elems, env, s);
      Done(ListV(cs), s1)
    case Lambda(lam) => Done(Closure(lam, env), s)
    case Call(fun, args) =>
      var (f, s1) :- EvalA(n - 1, fun, env, s);
      var (cs, s2) := ThunksA(args, env, s1);
      CallA(n - 1, f, cs, s2)
    case Let(defs, from, body) =>
      var (inner, s1) := Push(AFrame(Some(env), seq(Length(defs), _ => None)), s);
      var (sources, s2) := SourcesA(from, inner, s1);
      var (_, s3) := FillA(defs, 0, false, inner, env, sources, s2);
      EvalA(n - 1, body, inner, s3)
    case With(_, scope, body) =>
      var (c, s1) := MaybeThunkA(scope, env, s);
      var (inner, s2) := Push(AFrame(Some(env), [Some(c)]), s1);
      EvalA(n - 1, body, inner, s2)
    case If(cond, thn, els) =>
      var (b, s1) :- BoolA(n - 1, cond, env, s);
      EvalA(n - 1, if b then thn else els, env, s1)
    case Assert(cond, body) =>
      var (b, s1) :- BoolA(n - 1, cond, env, s);
      if b then EvalA(n - 1, body, env, s1) else Raised(AssertFailed)
    case Not(e1) =>
      var (b, s1) :- BoolA(n - 1, e1, env, s);
      Done(Data(Bool(!b)), s1)
    case BinBool(op, e1, e2) =>
      var (b1, s1) :- BoolA(n - 1, e1, env, s);
      if (match op case And => !b1 case Or => b1 case Impl => !b1) then Done(Data(Bool(!op.And?)), s1) else
      var (b2, s2) :- BoolA(n - 1, e2, env, s1);
      Done(Data(Bool(b2)), s2)
    case Update(e1, e2) =>
      var (a2, s1) :- EvalAttrsA(n - 1, e2, env, s);
      var (a1, s2) :- EvalAttrsA(n - 1, e1, env, s1);
      Done(AttrsV(Merge(a1, a2)), s2)
    case ConcatLists(e1, e2) =>
      var (v1, s1) :- EvalA(n - 1, e1, env, s);
      var (v2, s2) :- EvalA(n - 1, e2, env, s1);
      if v1.ListV? && v2.ListV? then Done(ListV(v1.elems + v2.elems), s2) else Raised(TypeError)
  }

  function BoolA(n: nat, e: Bound, env: nat, s: AState): Out<bool, AState>
    decreases n, 1
  {
    var (v, s1) :- EvalA(n, e, env, s);
    if v.Data? && v.c.Bool? then Done(v.c.b, s1) else Raised(TypeError)
  }

  function EvalAttrsA(n: nat, e: Bound, env: nat, s: AState): Out<seq<Attr<nat>>, AState>
    decreases n, 1
  {
    var (v, s1) :- EvalA(n, e, env, s);
    if v.AttrsV? then Done(v.attrs, s1) else Raised(TypeError)
  }

  /** The cell a variable denotes. */
  function LookupVar(n: nat, name: Symbol, addr: Addr, env: nat, s: AState): Out<nat, AState>
    decreases n, 2
  {
    match addr
    case Lexical(level, displ) =>
      (match Slot(s.envs, env, level, displ)
       case None => Raised(Stuck)
       case Some(c) => Done(c, s))
    case FromWith(level, node) =>
      match Climb(s.envs, env, level)
      case None => Raised(Stuck)
      case Some(f) => WithA(n, f, node, name, s)
  }

  /** `env` is the frame of the `with` that recorded `node`. */
  function WithA(n: nat, env: nat, node: WithInfo, name: Symbol, s: AState): Out<nat, AState>
    decreases n, 1, node
  {
    match Slot(s.envs, env, 0, 0)
    case None => Raised(Stuck)
    case Some(c) =>
      var (v, s1) :- ForceA(n, c, s);
      if !v.AttrsV? then Raised(TypeError) else
      match Get(v.attrs, name)
      case Some(found) => Done(found, s1)
      case None =>
        match node.parent
        case None => Raised(UndefinedVar(name))
        case Some(parent) =>
          match Climb(s1.envs, env, node.prevWith)
          case None => Raised(Stuck)
          case Some(f) => WithA(n, f, parent, name, s1)
  }

  function TargetA(n: nat, t: Target<Addr, WithInfo>, s: AState): Out<AValue, AState>
    decreases n, 1
  {
    match t
    case Direct(v) => Done(v, s)
    case At(c) => ForceA(n, c, s)
  }

  function NameA(n: nat, a: AttrName<Addr, WithInfo>, env: nat, s: AState): Out<Symbol, AState>
    decreases n, 1
  {
    match a
    case Static(sym) => Done(sym, s)
    case Dynamic(e) =>
      var (v, s1) :- EvalA(n, e, env, s);
      if v.Data? && v.c.Str? then Done(v.c.sym, s1) else Raised(TypeError)
  }

  function SelectA(n: nat, t: Target<Addr, WithInfo>, path: List<AttrName<Addr, WithInfo>>, def: Option<Bound>, env: nat, s: AState)
    : Out<AValue, AState>
    decreases n, 2, path
  {
    match path
    case Nil => TargetA(n, t, s)
    case Cons(a, rest) =>
      var (name, s1) :- NameA(n, a, env, s);
      var (v, s2) :- TargetA(n, t, s1);
      var found := if v.AttrsV? then Get(v.attrs, name) else None;
      match found
      case Some(c) => SelectA(n, At(c), rest, def, env, s2)
      case None =>
        match def
        case Some(d) => EvalA(n, d, env, s2)
        case None => Raised(if v.AttrsV? then MissingAttr(name) else TypeError)
  }

  function HasAttrA(n: nat, t: Target<Addr, WithInfo>, path: List<AttrName<Addr, WithInfo>>, env: nat, s: AState): Out<AValue, AState>
    decreases n, 2, path
  {
    match path
    case Nil => Done(Data(Bool(true)), s)
    case Cons(a, rest) =>
      var (v, s1) :- TargetA(n, t, s);
      var (name, s2) :- NameA(n, a, env, s1);
      match if v.AttrsV? then Get(v.attrs, name) else None
      case Some(c) => HasAttrA(n, At(c), rest, env, s2)
      case None => Done(Data(Bool(false)), s2)
  }

  function AttrsA(n: nat, attrs: AttrSet<Addr, WithInfo>, env: nat, s: AState): Out<AValue, AState>
    decreases n, 3
  {
    if attrs.recursive then
      var (inner, s1) := Push(AFrame(Some(env), seq(Length(attrs.defs), _ => None)), s);
      var (sources, s2) := SourcesA(attrs.from, inner, s1);
      var over := IndexOf(DefNames(attrs.defs), OVERRIDES);
      var (bindings, s3) := FillA(attrs.defs, 0, over.Some?, inner, env, sources, s2);
      if over.None? then DynA(n, attrs.dyn, bindings, inner, s3)
      else if over.value >= |bindings| then Raised(Stuck)
      else
        var (v, s4) :- ForceA(n, bindings[over.value].value, s3);
        if !v.AttrsV? then Raised(TypeError) else
        var s5 := OverrideSlotsA(DefNames(attrs.defs), v.attrs, inner, s4);
        DynA(n, attrs.dyn, Merge(bindings, v.attrs), inner, s5)
    else
      var (sources, s1) := SourcesA(attrs.from, env, s);
      var (bindings, s2) := ThunkDefsA(attrs.defs, env, sources, s1);
      DynA(n, attrs.dyn, bindings, env, s2)
  }

  /** Dynamic attributes come after `rec` and `__overrides`. */
  function DynA(n: nat, dyn: List<DynAttr<Addr, WithInfo>>, bindings: seq<Attr<nat>>, env: nat, s: AState): Out<AValue, AState>
    decreases n, 2, dyn
  {
    match dyn
    case Nil => Done(AttrsV(bindings), s)
    case Cons(d, rest) =>
      var (v, s1) :- EvalA(n, d.nameE, env, s);
      if v == Data(Null) then DynA(n, rest, bindings, env, s1)
      else if !(v.Data? && v.c.Str?) then Raised(TypeError)
      else if Get(bindings, v.c.sym).Some? then Raised(DuplicateAttr(v.c.sym))
      else
        var (c, s2) := MaybeThunkA(d.valueE, env, s1);
        DynA(n, rest, Insert(bindings, Attr(v.c.sym, c)), env, s2)
  }

  /** Builds the environment of a lambda body. */
  function EnterA(n: nat, lam: Lam<Addr, WithInfo>, lamEnv: nat, arg: nat, s: AState): Out<nat, AState>
    decreases n, 1
  {
    match lam
    case ArgOnly(_, _) =>
      var (inner, s1) := Push(AFrame(Some(lamEnv), [Some(arg)]), s);
      Done(inner, s1)
    case Pattern(at, formals, ellipsis, _) =>
      var (v, s1) :- ForceA(n, arg, s);
      if !v.AttrsV? then Raised(TypeError) else
      var first := if at.Some? then [Some(arg)] else [];
      var (inner, s2) := Push(AFrame(Some(lamEnv), first + seq(Length(formals), _ => None)), s1);
      var (used, s3) :- FormalsA(formals, |first|, v.attrs, inner, s2);
      if !ellipsis && used != |v.attrs| then
        match FirstUnexpected(v.attrs, FormalNames(formals))
        case Some(name) => Raised(UnexpectedArg(name))
        case None => Raised(Stuck)
      else Done(inner, s3)
  }

  function CallA(n: nat, f: AValue, args: seq<nat>, s: AState): Out<AValue, AState>
    decreases n, 2, |args|
  {
    if args == [] then Done(f, s) else
    match f
    case Closure(lam, env) =>
      var (inner, s1) :- EnterA(n, lam, env, args[0], s);
      var (v, s2) :- EvalA(n, lam.body, inner, s1);
      CallA(n, v, args[1..], s2)
    case AttrsV(attrs) =>
      (match Get(attrs, FUNCTOR)
       case None => Raised(TypeError)
       case Some(functor) =>
         if n == 0 then OutOfFuel else
         var (self, s1) := Alloc(Val(f), s);
         var (g, s2) :- ForceA(n - 1, functor, s1);
         var (v, s3) :- CallA(n - 1, g, [self, args[0]], s2);
         CallA(n, v, args[1..], s3))
    case _ => Raised(TypeError)
  }

  // ---- parts of the evaluation, named for the proofs ----

  /** The rest of a selection once the name is known. */
  function NamedA(n: nat, name: Symbol, t: Target<Addr, WithInfo>, rest: List<AttrName<Addr, WithInfo>>, def: Option<Bound>, env: nat, s: AState)
    : Out<AValue, AState>
  {
    var (v, s1) :- TargetA(n, t, s);
    SelectedA(n, name, v, rest, def, env, s1)
  }

  lemma SelectIsA(n: nat, t: Target<Addr, WithInfo>, path: List<AttrName<Addr, WithInfo>>, def: Option<Bound>, env: nat, s: AState)
    requires path.Cons? && NameA(n, path.head, env, s).Done?
    ensures SelectA(n, t, path, def, env, s)
         == NamedA(n, NameA(n, path.head, env, s).v, t, path.tail, def, env, NameA(n, path.head, env, s).s)
  {}

  /** The rest of a selection once the value and the name are known. */
  function SelectedA(n: nat, name: Symbol, v: AValue, rest: List<AttrName<Addr, WithInfo>>, def: Option<Bound>, env: nat, s: AState): Out<AValue, AState> {
    if v.AttrsV? && Get(v.attrs, name).Some? then SelectA(n, At(Get(v.attrs, name).value), rest, def, env, s)
    else if def.Some? then EvalA(n, def.value, env, s)
    else Raised(if v.AttrsV? then MissingAttr(name) else TypeError)
  }

  /** The frame of a `let` or `rec`, which is frame |s.envs|, and its sources, with the definitions filled in. */
  function OpenA(defs: List<AttrDef<Addr, WithInfo>>, from: List<Bound>, always: bool, env: nat, s: AState): (seq<Attr<nat>>, AState) {
    var (inner, s1) := Push(AFrame(Some(env), seq(Length(defs), _ => None)), s);
    var (sources, s2) := SourcesA(from, inner, s1);
    FillA(defs, 0, always, inner, env, sources, s2)
  }

  /** A dynamic attribute added and the rest. */
  function AddA(n: nat, dyn: List<DynAttr<Addr, WithInfo>>, name: Symbol, bindings: seq<Attr<nat>>, env: nat, s: AState): Out<AValue, AState>
    requires dyn.Cons?
  {
    var (c, s1) := MaybeThunkA(dyn.head.valueE, env, s);
    DynA(n, dyn.tail, Insert(bindings, Attr(name, c)), env, s1)
  }

  function PatternFrameA(lam: Lam<Addr, WithInfo>, lamEnv: nat, arg: nat): AFrame
    requires lam.Pattern?
  {
    AFrame(Some(lamEnv), (if lam.at.Some? then [Some(arg)] else []) + seq(Length(lam.formals), _ => None))
  }

  /** Matching an attribute set against a pattern: the tail of `EnterA`. */
  function MatchA(lam: Lam<Addr, WithInfo>, lamEnv: nat, arg: nat, attrs: seq<Attr<nat>>, s: AState): Out<nat, AState>
    requires lam.Pattern?
  {
    var (inner, s2) := Push(PatternFrameA(lam, lamEnv, arg), s);
    var (used, s3) :- FormalsA(lam.formals, if lam.at.Some? then 1 else 0, attrs, inner, s2);
    if !lam.ellipsis && used != |attrs| then
      match FirstUnexpected(attrs, FormalNames(lam.formals))
      case Some(name) => Raised(UnexpectedArg(name))
      case None => Raised(Stuck)
    else Done(inner, s3)
  }

  /** One argument applied through `__functor`. */
  function FunctorA(n: nat, f: AValue, arg: nat, s: AState): Out<AValue, AState>
    requires n > 0 && f.AttrsV? && Get(f.attrs, FUNCTOR).Some?
  {
    CallCellA(n - 1, Get(f.attrs, FUNCTOR).value, [|s.cells|, arg], Alloc(Val(f), s).1)
  }

  /** Forces a cell and calls what it holds. */
  function CallCellA(n: nat, c: nat, args: seq<nat>, s: AState): Out<AValue, AState> {
    var (g, s1) :- ForceA(n, c, s);
    CallA(n, g, args, s1)
  }
}

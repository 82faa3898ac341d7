/** The reference evaluator: environments are maps from names to cells, and a variable is
    looked up by walking outwards. It knows nothing of levels and displacements. */
module NamedEval {
  import opened Wrappers
  import opened SortedAttrs
  import opened Syntax
  import opened Scope
  import opened Machine

  datatype NFrame =
    // a name maps to None while its binding construct is still filling the frame
    | NVars(up: Option<nat>, vars: map<Symbol, Option<nat>>)
    | NWith(up: Option<nat>, attrs: nat)
    | NSources(up: Option<nat>, cells: seq<nat>)

  type NValue = Value<(), ()>
  type NCell = Cell<(), ()>
  type NState = State<(), (), NFrame>

  /** The binding of `name` in the innermost scope that declares it; `with` does not count. */
  function Find(envs: seq<NFrame>, env: nat, name: Symbol): Option<Option<nat>> {
    if env >= |envs| then None
    else if envs[env].NVars? && name in envs[env].vars then Some(envs[env].vars[name])
    else match envs[env].up
      case Some(u) => if u < env then Find(envs, u, name) else None
      case None => None
  }

  function Source(envs: seq<NFrame>, env: nat, displ: nat): Option<nat> {
    if env < |envs| && envs[env].NSources? && displ < |envs[env].cells| then Some(envs[env].cells[displ]) else None
  }

  function SetVar(env: nat, name: Symbol, c: nat, s: NState): NState {
    if env < |s.envs| && s.envs[env].NVars? then
      s.(envs := s.envs[env := s.envs[env].(vars := s.envs[env].vars[name := Some(c)])])
    else s
  }

  function PushN(f: NFrame, s: NState): (nat, NState) {
    (|s.envs|, s.(envs := s.envs + [f]))
  }

  function Undeclared(names: seq<Symbol>): map<Symbol, Option<nat>> {
    map x | x in names :: None
  }

  function MaybeThunkN(e: Named, env: nat, s: NState): (nat, NState) {
    if !s.reuse then Alloc(Thunk(e, env), s) else
    match e
    case Lit(c) => Alloc(Val(Data(c)), s)
    case ListE(Nil) => Alloc(Val(ListV([])), s)
    case Var(name, _) =>
      (match Find(s.envs, env, name)
       case Some(Some(c)) => (c, s)
       case _ => Alloc(Thunk(e, env), s))
    case InheritFrom(displ) =>
      (match Source(s.envs, env, displ)
       case Some(c) => (c, s)
       case None => Alloc(Thunk(e, env), s))
    case _ => Alloc(Thunk(e, env), s)
  }

  function ThunksN(es: List<Named>, env: nat, s: NState): (seq<nat>, NState) {
    match es
    case Nil => ([], s)
    case Cons(e, rest) =>
      var (c, s1) := MaybeThunkN(e, env, s);
      var (cs, s2) := ThunksN(rest, env, s1);
      ([c] + cs, s2)
  }

  function SourcesN(from: List<Named>, up: nat, s: NState): (nat, NState) {
    if from.Nil? then (up, s) else
    var (cs, s1) := ThunksN(from, up, s);
    PushN(NSources(Some(up), cs), s1)
  }

  function DeclareN(defs: List<AttrDef<(), ()>>, always: bool, inner: nat, outer: nat, sources: nat, s: NState): (seq<Attr<nat>>, NState) {
    match defs
    case Nil => ([], s)
    case Cons(d, rest) =>
      var env := DefEnv(d.kind, inner, outer, sources);
      var (c, s1) := if always && !d.kind.Inherited? then Alloc(Thunk(d.e, env), s) else MaybeThunkN(d.e, env, s);
      var (attrs, s2) := DeclareN(rest, always, inner, outer, sources, SetVar(inner, d.name, c, s1));
      ([Attr(d.name, c)] + attrs, s2)
  }

  /** The frame of a `let` or `rec`, which is frame |s.envs|, and its sources, with the definitions. */
  function OpenN(defs: List<AttrDef<(), ()>>, from: List<Named>, always: bool, env: nat, s: NState): (seq<Attr<nat>>, NState) {
    var (inner, s1) := PushN(NVars(Some(env), Undeclared(DefNames(defs))), s);
    var (sources, s2) := SourcesN(from, inner, s1);
    DeclareN(defs, always, inner, env, sources, s2)
  }

  function ThunkDefsN(defs: List<AttrDef<(), ()>>, env: nat, sources: nat, s: NState): (seq<Attr<nat>>, NState) {
    match defs
    case Nil => ([], s)
    case Cons(d, rest) =>
      var (c, s1) := MaybeThunkN(d.e, DefEnv(d.kind, env, env, sources), s);
      var (attrs, s2) := ThunkDefsN(rest, env, sources, s1);
      ([Attr(d.name, c)] + attrs, s2)
  }

  /** Every declared name that `over` redefines now denotes the overriding cell. */
  function OverrideN(over: seq<Attr<nat>>, env: nat, s: NState): NState {
    if env < |s.envs| && s.envs[env].NVars? then
      var vars := s.envs[env].vars;
      var vars' := map x | x in vars :: if Get(over, x).Some? then Get(over, x) else vars[x];
      s.(envs := s.envs[env := s.envs[env].(vars := vars')])
    else s
  }

  function FormalsN(formals: List<Formal<(), ()>>, args: seq<Attr<nat>>, env: nat, s: NState): Out<(), NState> {
    match formals
    case Nil => Done((), s)
    case Cons(f, rest) =>
      match Get(args, f.name)
      case Some(c) => FormalsN(rest, args, env, SetVar(env, f.name, c, s))
      case None =>
        match f.def
        case None => Raised(MissingArg(f.name))
        case Some(d) =>
          var (c, s1) := MaybeThunkN(d, env, s);
          FormalsN(rest, args, env, SetVar(env, f.name, c, s1))
  }

  function ForceN(n: nat, c: nat, s: NState): Out<NValue, NState>
    decreases n, 0
  {
    if n == 0 then OutOfFuel
    else if c >= |s.cells| then Raised(Stuck)
    else match s.cells[c]
      case Val(v) => Done(v, s)
      case BlackHole => Raised(InfiniteRecursion)
      case Thunk(e, env) =>
        var (v, s1) :- EvalN(n - 1, e, env, s.(cells := s.cells[c := BlackHole]));
        if c < |s1.cells| then Done(v, s1.(cells := s1.cells[c := Val(v)])) else Raised(Stuck)
  }

  function EvalN(n: nat, e: Named, env: nat, s: NState): Out<NValue, NState>
    decreases n, 0
  {
    if n == 0 then OutOfFuel else
    match e
    case Lit(c) => Done(Data(c), s)
    case Var(name, _) =>
      var (c, s1) :- LookupN(n - 1, name, env, s);
      ForceN(n - 1, c, s1)
    case InheritFrom(displ) =>
      (match Source(s.envs, env, displ)
       case None => Raised(Stuck)
       case Some(c) => ForceN(n - 1, c, s))
    case Select(e1, path, def) =>
      var (v, s1) :- EvalN(n - 1, e1, env, s);
      SelectN(n - 1, Direct(v), path, def, env, s1)
    case HasAttr(e1, path) =>
      var (v, s1) :- EvalN(n - 1, e1, env, s);
      HasAttrN(n - 1, Direct(v), path, env, s1)
    case Attrs(attrs) => AttrsN(n - 1, attrs, env, s)
    case ListE(elems) =>
      var (cs, s1) := ThunksN(elems, env, s);
      Done(ListV(cs), s1)
    case Lambda(lam) => Done(Closure(lam, env), s)
    case Call(fun, args) =>
      var (f, s1) :- EvalN(n - 1, fun, env, s);
      var (cs, s2) := ThunksN(args, env, s1);
      CallN(n - 1, f, cs, s2)
    case Let(defs, from, body) =>
      var (inner, s1) := PushN(NVars(Some(env), Undeclared(DefNames(defs))), s);
      var (sources, s2) := SourcesN(from, inner, s1);
      var (_, s3) := DeclareN(defs, false, inner, env, sources, s2);
      EvalN(n - 1, body, inner, s3)
    case With(_, scope, body) =>
      var (c, s1) := MaybeThunkN(scope, env, s);
      var (inner, s2) := PushN(NWith(Some(env), c), s1);
      EvalN(n - 1, body, inner, s2)
    case If(cond, thn, els) =>
      var (b, s1) :- BoolN(n - 1, cond, env, s);
      if b then EvalN(n - 1, thn, env, s1) else EvalN(n - 1, els, env, s1)
    case Assert(cond, body) =>
      var (b, s1) :- BoolN(n - 1, cond, env, s);
      if b then EvalN(n - 1, body, env, s1) else Raised(AssertFailed)
    case Not(e1) =>
      var (b, s1) :- BoolN(n - 1, e1, env, s);
      Done(Data(Bool(!b)), s1)
    case BinBool(op, e1, e2) =>
      var (b1, s1) :- BoolN(n - 1, e1, env, s);
      (match op
       case And =>
         if !b1 then Done(Data(Bool(false)), s1) else
         var (b2, s2) :- BoolN(n - 1, e2, env, s1);
         Done(Data(Bool(b2)), s2)
       case Or =>
         if b1 then Done(Data(Bool(true)), s1) else
         var (b2, s2) :- BoolN(n - 1, e2, env, s1);
         Done(Data(Bool(b2)), s2)
       case Impl =>
         if !b1 then Done(Data(Bool(true)), s1) else
         var (b2, s2) :- BoolN(n - 1, e2, env, s1);
         Done(Data(Bool(b2)), s2))
    case Update(e1, e2) =>
      var (a2, s1) :- EvalAttrsN(n - 1, e2, env, s);
      var (a1, s2) :- EvalAttrsN(n - 1, e1, env, s1);
      Done(AttrsV(Merge(a1, a2)), s2)
    case ConcatLists(e1, e2) =>
      var (v1, s1) :- EvalN(n - 1, e1, env, s);
      var (v2, s2) :- EvalN(n - 1, e2, env, s1);
      if v1.ListV? && v2.ListV? then Done(ListV(v1.elems + v2.elems), s2) else Raised(TypeError)
  }

  function BoolN(n: nat, e: Named, env: nat, s: NState): Out<bool, NState>
    decreases n, 1
  {
    var (v, s1) :- EvalN(n, e, env, s);
    if v.Data? && v.c.Bool? then Done(v.c.b, s1) else Raised(TypeError)
  }

  function EvalAttrsN(n: nat, e: Named, env: nat, s: NState): Out<seq<Attr<nat>>, NState>
    decreases n, 1
  {
    var (v, s1) :- EvalN(n, e, env, s);
    if v.AttrsV? then Done(v.attrs, s1) else Raised(TypeError)
  }

  /** A lexical binding at any depth beats every `with`. */
  function LookupN(n: nat, name: Symbol, env: nat, s: NState): Out<nat, NState>
    decreases n, 2
  {
    match Find(s.envs, env, name)
    case Some(Some(c)) => Done(c, s)
    case Some(None) => Raised(Stuck)
    case None => WithN(n, name, env, s)
  }

  /** Asks the enclosing `with` sets one after the other, innermost first. */
  function WithN(n: nat, name: Symbol, env: nat, s: NState): Out<nat, NState>
    decreases n, 1, env
  {
    if env >= |s.envs| then Raised(Stuck) else
    match s.envs[env]
    case NWith(_, attrs) =>
      var (v, s1) :- ForceN(n, attrs, s);
      if !v.AttrsV? then Raised(TypeError) else
      (match Get(v.attrs, name)
       case Some(found) => Done(found, s1)
       case None => if env < |s1.envs| then OuterN(n, name, s1.envs[env].up, env, s1) else Raised(Stuck))
    case _ => OuterN(n, name, s.envs[env].up, env, s)
  }

  function OuterN(n: nat, name: Symbol, up: Option<nat>, env: nat, s: NState): Out<nat, NState>
    decreases n, 1, env, 0
  {
    match up
    case None => Raised(UndefinedVar(name))
    case Some(u) => if u < env then WithN(n, name, u, s) else Raised(Stuck)
  }

  function TargetN(n: nat, t: Target<(), ()>, s: NState): Out<NValue, NState>
    decreases n, 1
  {
    match t
    case Direct(v) => Done(v, s)
    case At(c) => ForceN(n, c, s)
  }

  function NameN(n: nat, a: AttrName<(), ()>, env: nat, s: NState): Out<Symbol, NState>
    decreases n, 1
  {
    match a
    case Static(sym) => Done(sym, s)
    case Dynamic(e) =>
      var (v, s1) :- EvalN(n, e, env, s);
      if v.Data? && v.c.Str? then Done(v.c.sym, s1) else Raised(TypeError)
  }

  function SelectN(n: nat, t: Target<(), ()>, path: List<AttrName<(), ()>>, def: Option<Named>, env: nat, s: NState): Out<NValue, NState>
    decreases n, 2, path
  {
    match path
    case Nil => TargetN(n, t, s)
    case Cons(a, rest) =>
      var (name, s1) :- NameN(n, a, env, s);
      var (v, s2) :- TargetN(n, t, s1);
      if v.AttrsV? && Get(v.attrs, name).Some? then SelectN(n, At(Get(v.attrs, name).value), rest, def, env, s2)
      else if def.Some? then EvalN(n, def.value, env, s2)
      else if v.AttrsV? then Raised(MissingAttr(name))
      else Raised(TypeError)
  }

  function HasAttrN(n: nat, t: Target<(), ()>, path: List<AttrName<(), ()>>, env: nat, s: NState): Out<NValue, NState>
    decreases n, 2, path
  {
    match path
    case Nil => Done(Data(Bool(true)), s)
    case Cons(a, rest) =>
      var (v, s1) :- TargetN(n, t, s);
      var (name, s2) :- NameN(n, a, env, s1);
      if v.AttrsV? && Get(v.attrs, name).Some? then HasAttrN(n, At(Get(v.attrs, name).value), rest, env, s2)
      else Done(Data(Bool(false)), s2)
  }

  function AttrsN(n: nat, attrs: AttrSet<(), ()>, env: nat, s: NState): Out<NValue, NState>
    decreases n, 3
  {
    if !attrs.recursive then
      var (sources, s1) := SourcesN(attrs.from, env, s);
      var (bindings, s2) := ThunkDefsN(attrs.defs, env, sources, s1);
      DynN(n, attrs.dyn, bindings, env, s2)
    else
      var (inner, s1) := PushN(NVars(Some(env), Undeclared(DefNames(attrs.defs))), s);
      var (sources, s2) := SourcesN(attrs.from, inner, s1);
      var (bindings, s3) := DeclareN(attrs.defs, OVERRIDES in DefNames(attrs.defs), inner, env, sources, s2);
      match Get(bindings, OVERRIDES)
      case None => DynN(n, attrs.dyn, bindings, inner, s3)
      case Some(c) =>
        var (v, s4) :- ForceN(n, c, s3);
        if !v.AttrsV? then Raised(TypeError) else
        DynN(n, attrs.dyn, Merge(bindings, v.attrs), inner, OverrideN(v.attrs, inner, s4))
  }

  function DynN(n: nat, dyn: List<DynAttr<(), ()>>, bindings: seq<Attr<nat>>, env: nat, s: NState): Out<NValue, NState>
    decreases n, 2, dyn
  {
    match dyn
    case Nil => Done(AttrsV(bindings), s)
    case Cons(d, rest) =>
      var (v, s1) :- EvalN(n, d.nameE, env, s);
      match v
      case Data(Null) => DynN(n, rest, bindings, env, s1)
      case Data(Str(sym)) =>
        if Get(bindings, sym).Some? then Raised(DuplicateAttr(sym)) else
        var (c, s2) := MaybeThunkN(d.valueE, env, s1);
        DynN(n, rest, Insert(bindings, Attr(sym, c)), env, s2)
      case _ => Raised(TypeError)
  }

  function EnterN(n: nat, lam: Lam<(), ()>, lamEnv: nat, arg: nat, s: NState): Out<nat, NState>
    decreases n, 1
  {
    match lam
    case ArgOnly(x, _) =>
      var (inner, s1) := PushN(NVars(Some(lamEnv), map[x := Some(arg)]), s);
      Done(inner, s1)
    case Pattern(at, formals, ellipsis, _) =>
      var (v, s1) :- ForceN(n, arg, s);
      if !v.AttrsV? then Raised(TypeError) else
      var vars := Undeclared(LamNames(lam));
      var (inner, s2) := PushN(NVars(Some(lamEnv), if at.Some? then vars[at.value := Some(arg)] else vars), s1);
      var (_, s3) :- FormalsN(formals, v.attrs, inner, s2);
      var unexpected := FirstUnexpected(v.attrs, FormalNames(formals));
      if !ellipsis && unexpected.Some? then Raised(UnexpectedArg(unexpected.value)) else Done(inner, s3)
  }

  function CallN(n: nat, f: NValue, args: seq<nat>, s: NState): Out<NValue, NState>
    decreases n, 2, |args|
  {
    if args == [] then Done(f, s) else
    match f
    case Closure(lam, env) =>
      var (inner, s1) :- EnterN(n, lam, env, args[0], s);
      var (v, s2) :- EvalN(n, lam.body, inner, s1);
      CallN(n, v, args[1..], s2)
    case AttrsV(attrs) =>
      (match Get(attrs, FUNCTOR)
       case None => Raised(TypeError)
       case Some(functor) =>
         if n == 0 then OutOfFuel else
         var (self, s1) := Alloc(Val(f), s);
         var (g, s2) :- ForceN(n - 1, functor, s1);
         var (v, s3) :- CallN(n - 1, g, [self, args[0]], s2);
         CallN(n, v, args[1..], s3))
    case _ => Raised(TypeError)
  }
}

/** The main results about lexical addressing. */
module LexicalAddressing {
  import opened Wrappers
  import opened SortedAttrs
  import opened Syntax
  import opened Scope
  import opened Machine
  import opened NamedEval
  import opened AddressedEval
  import opened Observation
  import opened Correspondence
  import opened Simulation

  /** Evaluating the bound expression by address has the outcome of evaluating the expression
      by name: corresponding values in corresponding states, the same error, or no fuel left.
      No address dangles, no slot is empty and no `unreachable` branch is reached. */
  lemma AddressingPreservesMeaning(n: nat, e: Named, b: Bound, env: nat, scopes: Scopes, sn: NState, sa: AState)
    requires Ready(scopes, sn, sa) && env < |scopes| && Bind(e, scopes[env]) == Ok(b)
    ensures exists scopes' :: scopes <= scopes' && SameValue(scopes', |sn.cells|, EvalN(n, e, env, sn), EvalA(n, b, env, sa))
    ensures EvalA(n, b, env, sa) != Raised(Stuck)
  {
    var scopes' := SimEval(n, e, b, env, scopes, sn, sa);
  }

  /** The same for forcing a cell, so for every later use of a suspended value. */
  lemma ForcingAgrees(n: nat, c: nat, scopes: Scopes, sn: NState, sa: AState)
    requires Ready(scopes, sn, sa) && c < |sn.cells|
    ensures exists scopes' :: scopes <= scopes' && SameValue(scopes', |sn.cells|, ForceN(n, c, sn), ForceA(n, c, sa))
    ensures ForceA(n, c, sa) != Raised(Stuck)
  {
    var scopes' := SimForce(n, c, scopes, sn, sa);
  }

  lemma {:induction false} LooksAgree(picks: seq<Pick>, n: nat, scopes: Scopes, cells: nat, rn: Out<NValue, NState>, ra: Out<AValue, AState>)
    requires SameValue(scopes, cells, rn, ra)
    ensures LookN(picks, n, rn) == LookA(picks, n, ra) != Failed(Stuck)
    decreases |picks|
  {
    if rn.Done? && picks != [] && Part(rn.v, picks[0]).Some? {
      var c := Part(rn.v, picks[0]).value;
      if rn.v.AttrsV? { GetIn(rn.v.attrs, picks[0].name, |rn.s.cells|); }
      var scopes' := SimForce(n, c, scopes, rn.s, ra.s);
      LooksAgree(picks[1..], n, scopes', |rn.s.cells|, ForceN(n, c, rn.s), ForceA(n, c, ra.s));
    }
  }

  /** A whole program, from any corresponding states: whatever part of its result is looked
      at, what is seen does not depend on how variables are found. */
  lemma ProgramsAgree(picks: seq<Pick>, n: nat, e: Named, b: Bound, env: nat, scopes: Scopes, sn: NState, sa: AState)
    requires Ready(scopes, sn, sa) && env < |scopes| && Bind(e, scopes[env]) == Ok(b)
    ensures LookN(picks, n, EvalN(n, e, env, sn)) == LookA(picks, n, EvalA(n, b, env, sa))
    ensures LookA(picks, n, EvalA(n, b, env, sa)) != Failed(Stuck)
  {
    var scopes' := SimEval(n, e, b, env, scopes, sn, sa);
    LooksAgree(picks, n, scopes', |sn.cells|, EvalN(n, e, env, sn), EvalA(n, b, env, sa));
  }

  /** `bindVars` reports an undefined variable exactly when no scope declares the name and no
      `with` encloses it. */
  lemma UndefinedExactlyWhenUnbound(name: Symbol, env: nat, scopes: Scopes, sn: NState, sa: AState)
    requires Rel(scopes, sn, sa) && env < |scopes|
    ensures Resolve(name, scopes[env]).Err? <==>
              Find(sn.envs, env, name) == None && Withs(sn.envs, env) == []
    ensures Resolve(name, scopes[env]).Err? ==> Resolve(name, scopes[env]) == Err(Undefined(name))
  {
    FindIsSlot(scopes, sn, sa, env, name);
    FirstWithIsHead(env, scopes, sn, sa);
  }

  /** The enclosing `with` environments, innermost first. */
  function Withs(envs: seq<NFrame>, env: nat): seq<nat> {
    if env >= |envs| then []
    else
      var outer := match envs[env].up case Some(u) => if u < env then Withs(envs, u) else [] case None => [];
      if envs[env].NWith? then [env] + outer else outer
  }

  /** The environments `lookupVar` passes through, from that of `node` on. */
  function Trail(envs: seq<AFrame>, env: nat, node: WithInfo): seq<nat>
    decreases node
  {
    match node.parent
    case None => [env]
    case Some(parent) =>
      match Climb(envs, env, node.prevWith)
      case None => [env]
      case Some(f) => [env] + Trail(envs, f, parent)
  }

  lemma {:induction false} FirstWithIsHead(env: nat, scopes: Scopes, sn: NState, sa: AState)
    requires Rel(scopes, sn, sa) && env < |scopes|
    ensures match FirstWith(scopes[env])
            case None => Withs(sn.envs, env) == []
            case Some((level, node)) =>
              var f := Climb(sa.envs, env, level);
              && f.Some? && f.value <= env && scopes[f.value].Env? && scopes[f.value].frame == IsWith(node)
              && Withs(sn.envs, env) == Withs(sn.envs, f.value)
    decreases env
  {
    assert FrameRel(scopes, env, sn.envs[env], sa.envs[env], |sn.cells|);
    if !scopes[env].frame.IsWith? && sn.envs[env].up.Some? {
      var u := sn.envs[env].up.value;
      FirstWithIsHead(u, scopes, sn, sa);
      if FirstWith(scopes[u]).Some? { ClimbUp(scopes, sn, sa, env, u, FirstWith(scopes[u]).value.0); }
    }
  }

  lemma {:induction false} TrailFrom(env: nat, node: WithInfo, scopes: Scopes, sn: NState, sa: AState)
    requires Rel(scopes, sn, sa) && env < |scopes| && scopes[env].Env? && scopes[env].frame == IsWith(node)
    ensures Trail(sa.envs, env, node) == Withs(sn.envs, env)
    decreases env
  {
    assert FrameRel(scopes, env, sn.envs[env], sa.envs[env], |sn.cells|);
    if sn.envs[env].up.Some? {
      var u := sn.envs[env].up.value;
      FirstWithIsHead(u, scopes, sn, sa);
      if FirstWith(scopes[u]).Some? {
        var (level, parent) := FirstWith(scopes[u]).value;
        ClimbUp(scopes, sn, sa, env, u, level);
        TrailFrom(Climb(sa.envs, u, level).value, parent, scopes, sn, sa);
      }
    }
  }

  /** A variable taken from `with` visits every enclosing `with` exactly once, innermost first. */
  lemma WithVisitsAll(name: Symbol, env: nat, level: nat, node: WithInfo, scopes: Scopes, sn: NState, sa: AState)
    requires Rel(scopes, sn, sa) && env < |scopes| && Resolve(name, scopes[env]) == Ok(FromWith(level, node))
    ensures Climb(sa.envs, env, level).Some?
    ensures Trail(sa.envs, Climb(sa.envs, env, level).value, node) == Withs(sn.envs, env)
  {
    FirstWithIsHead(env, scopes, sn, sa);
    TrailFrom(Climb(sa.envs, env, level).value, node, scopes, sn, sa);
  }

  /** Levels are taken only from a scope that declares the name: `with` never shadows one, and
      looking up such a variable forces nothing. */
  lemma LexicalBeatsWith(name: Symbol, env: nat, scopes: Scopes, sn: NState, sa: AState)
    requires Rel(scopes, sn, sa) && env < |scopes| && Resolve(name, scopes[env]).Ok?
    ensures Resolve(name, scopes[env]).value.Lexical? <==> Find(sn.envs, env, name).Some?
    ensures Resolve(name, scopes[env]).value.FromWith? <==> Find(sn.envs, env, name).None? && Withs(sn.envs, env) != []
    ensures Resolve(name, scopes[env]).value.Lexical? && Find(sn.envs, env, name).value.Some? ==>
      forall n :: LookupVar(n, name, Resolve(name, scopes[env]).value, env, sa) == Done(Find(sn.envs, env, name).value.value, sa)
  {
    FindIsSlot(scopes, sn, sa, env, name);
    FirstWithIsHead(env, scopes, sn, sa);
    if FirstWith(scopes[env]).Some? {
      var f := Climb(sa.envs, env, FirstWith(scopes[env]).value.0).value;
      assert FrameRel(scopes, f, sn.envs[f], sa.envs[f], |sn.cells|);
    }
  }
}

/** From the parser's tree to a result: `bindVars` in place, then evaluation by the addresses
    it left in the nodes. */
module Programs {
  import opened Wrappers
  import opened SortedAttrs
  import opened Syntax
  import opened BindVars
  import opened BindTree
  import Scope
  import NamedEval
  import AddressedEval
  import Observation
  import Correspondence
  import Simulation
  import LexicalAddressing

  ghost predicate Agree(e: Scope.Named, b: Scope.Bound, picks: seq<Observation.Pick>, n: nat, sn: NamedEval.NState, sa: AddressedEval.AState) {
    Observation.LookN(picks, n, NamedEval.EvalN(n, e, 0, sn)) == Observation.LookA(picks, n, AddressedEval.EvalA(n, b, 0, sa))
  }

  /** Environment 0 is a base environment with these names. */
  ghost predicate Based(scopes: Correspondence.Scopes, names: seq<Symbol>) {
    scopes != [] && scopes[0] == Scope.Env(Scope.Vars(names), Scope.Empty)
  }

  /** The whole pass: when `bindVars` succeeds, evaluating by what it wrote gives what evaluating
      by name gives, in whatever part of the result, for every base environment with these
      names, in corresponding heaps whose values and suspended code may live in any further
      environments, and every amount of fuel. */
  method BindProgram(e: Tree, base: seq<Entry>, ghost names: seq<Symbol>) returns (r: Option<Scope.BindError>)
    requires IsTree(e) && TableOf(base, names)
    requires Parsed(Scope.Bind(Erase(e), Scope.Env(Scope.Vars(names), Scope.Empty)))
    modifies Nodes(e)
    ensures Scope.Bind(Erase(e), Scope.Env(Scope.Vars(names), Scope.Empty))
         == if r.None? then Ok(Snapshot(e, {})) else Err(r.value)
    ensures r.None? ==> forall picks, n, scopes, sn, sa | Based(scopes, names) && Simulation.Ready(scopes, sn, sa) ::
      Agree(Erase(e), Snapshot(e, {}), picks, n, sn, sa)
  {
    var env := StaticEnv(null, base, NoEnv);
    ghost var st := Scope.Env(Scope.Vars(names), Scope.Empty);
    assert Withs(env) == {};
    r := BindTree.Bind(e, env, st);
    if r.None? {
      forall picks, n, scopes, sn, sa | Based(scopes, names) && Simulation.Ready(scopes, sn, sa) ensures Agree(Erase(e), Snapshot(e, {}), picks, n, sn, sa) {
        LexicalAddressing.ProgramsAgree(picks, n, Erase(e), Snapshot(e, {}), 0, scopes, sn, sa);
      }
    }
  }
}

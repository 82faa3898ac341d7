/** `forceValueDeep`: a walk over a possibly cyclic value graph that forces every value it
    can reach through lists and attribute sets, each at most once. */
module DeepForce {
  type Address = nat

  // What forcing a value gives: failure, or a value with the values directly inside it.
  datatype Node = Fails | Leaf | ListN(elems: seq<Address>) | AttrsN(values: seq<Address>)

  type Graph = Address -> Node

  datatype Outcome = Done | ForceFailed | TooDeep

  function Children(g: Graph, a: Address): seq<Address> {
    match g(a)
    case ListN(elems) => elems
    case AttrsN(values) => values
    case _ => []
  }

  ghost predicate Inside(g: Graph, a: Address, s: set<Address>) {
    forall k :: 0 <= k < |Children(g, a)| ==> Children(g, a)[k] in s
  }

  ghost predicate Closed(g: Graph, s: set<Address>) {
    forall a :: a in s ==> Inside(g, a, s)
  }

  /** `b` can be reached from `a` in n steps. */
  ghost predicate ReachIn(g: Graph, a: Address, b: Address, n: nat)
    decreases n
  {
    if n == 0 then a == b
    else exists k :: 0 <= k < |Children(g, a)| && ReachIn(g, Children(g, a)[k], b, n - 1)
  }

  ghost predicate Reachable(g: Graph, a: Address, b: Address) {
    exists n: nat :: ReachIn(g, a, b, n)
  }

  lemma {:induction false} ClosedHoldsReachable(g: Graph, s: set<Address>, a: Address, b: Address, n: nat)
    requires Closed(g, s) && a in s && ReachIn(g, a, b, n)
    ensures b in s
    decreases n
  {
    if n > 0 {
      var k :| 0 <= k < |Children(g, a)| && ReachIn(g, Children(g, a)[k], b, n - 1);
      ClosedHoldsReachable(g, s, Children(g, a)[k], b, n - 1);
    }
  }

  lemma ReachStep(g: Graph, a: Address, k: nat, b: Address)
    requires k < |Children(g, a)| && Reachable(g, Children(g, a)[k], b)
    ensures Reachable(g, a, b)
  {
    var n: nat :| ReachIn(g, Children(g, a)[k], b, n);
    assert ReachIn(g, a, b, n + 1);
  }

  /** A list reaches itself and what its elements reach, a set itself and what the values of
      its attributes reach, and any other value only itself. */
  lemma ReachesThroughListsAndSets(g: Graph, a: Address, b: Address)
    ensures Reachable(g, a, b) <==>
      || b == a
      || (match g(a)
          case ListN(elems) => exists k :: 0 <= k < |elems| && Reachable(g, elems[k], b)
          case AttrsN(values) => exists k :: 0 <= k < |values| && Reachable(g, values[k], b)
          case Leaf => false
          case Fails => false)
  {
    if b == a { assert ReachIn(g, a, b, 0); }
    if Reachable(g, a, b) && b != a {
      var n: nat :| ReachIn(g, a, b, n);
      var k :| 0 <= k < |Children(g, a)| && ReachIn(g, Children(g, a)[k], b, n - 1);
      assert Reachable(g, Children(g, a)[k], b);
    }
    forall k: nat | k < |Children(g, a)| && Reachable(g, Children(g, a)[k], b) ensures Reachable(g, a, b) {
      ReachStep(g, a, k, b);
    }
    Inner(g, a);
  }

  lemma Inner(g: Graph, a: Address)
    ensures match g(a)
      case ListN(elems) => Children(g, a) == elems
      case AttrsN(values) => Children(g, a) == values
      case _ => Children(g, a) == []
  {}

  /** What was marked since `before` succeeded and has all its contents marked, except that
      the contents of `open` are still being walked. */
  ghost predicate Explored(g: Graph, before: set<Address>, seen: set<Address>, open: set<Address>) {
    forall a :: a in seen && a !in before ==> !g(a).Fails? && (a !in open ==> Inside(g, a, seen))
  }

  lemma ExploreMore(g: Graph, before: set<Address>, mid: set<Address>, seen: set<Address>, open: set<Address>)
    requires before <= mid <= seen && Explored(g, before, mid, open) && Explored(g, mid, seen, {})
    ensures Explored(g, before, seen, open)
  {
    forall a | a in seen && a !in before ensures !g(a).Fails? && (a !in open ==> Inside(g, a, seen)) {
      if a in mid { assert a !in open ==> Inside(g, a, mid); }
    }
  }

  ghost predicate Distinct(xs: seq<Address>) {
    forall i, j :: 0 <= i < j < |xs| ==> xs[i] != xs[j]
  }

  class Walk {
    var seen: set<Address>
    // every call of forceValue, in order
    var forces: seq<Address>

    constructor ()
      ensures seen == {} && forces == []
    {
      seen, forces := {}, [];
    }

    /** Each value is forced at most once, and only after it was marked. */
    ghost predicate Valid()
      reads this
    {
      Distinct(forces) && forall a :: a in forces <==> a in seen
    }

    /** Marks `v` and forces it. */
    method Force(g: Graph, v: Address) returns (n: Node)
      requires Valid() && v !in seen
      modifies this
      ensures Valid() && seen == old(seen) + {v} && forces == old(forces) + [v]
      ensures n == g(v)
    {
      seen := seen + {v};
      forces := forces + [v];
      n := g(v);
    }

    /** `universe` is any finite set closed under contents; `depth` counts the calls left
        before the call-depth limit. */
    method Recurse(g: Graph, v: Address, depth: nat, ghost universe: set<Address>) returns (r: Outcome)
      requires Valid() && Closed(g, universe) && v in universe && seen <= universe
      modifies this
      ensures Valid() && old(seen) <= seen <= universe
      ensures r == Done ==> v in seen && Explored(g, old(seen), seen, {})
      ensures r == ForceFailed ==> FailureBelow(g, v)
      ensures depth > |universe - old(seen)| ==> r != TooDeep
      decreases depth, 0
    {
      if depth == 0 { return TooDeep; }
      if v in seen { return Done; }
      ghost var before := seen;
      var n := Force(g, v);
      MarkShrinks(universe, before, v);
      if n.Fails? {
        FailsHere(g, v);
        return ForceFailed;
      }
      r := RecurseInside(g, v, depth - 1, before, universe);
    }

    method RecurseInside(g: Graph, v: Address, depth: nat, ghost before: set<Address>, ghost universe: set<Address>)
        returns (r: Outcome)
      requires Valid() && Closed(g, universe) && v in universe && seen <= universe
      requires seen == before + {v} && !g(v).Fails?
      modifies this
      ensures Valid() && old(seen) <= seen <= universe
      ensures r == Done ==> Explored(g, before, seen, {})
      ensures r == ForceFailed ==> FailureBelow(g, v)
      ensures depth > |universe - old(seen)| ==> r != TooDeep
      decreases depth, 1
    {
      var inside := Children(g, v);
      var k := 0;
      while k < |inside|
        invariant 0 <= k <= |inside|
        invariant Valid() && old(seen) <= seen <= universe
        invariant Explored(g, before, seen, {v})
        invariant forall j :: 0 <= j < k ==> inside[j] in seen
      {
        LargerSeen(universe, old(seen), seen);
        ghost var mid := seen;
        var sub := Recurse(g, inside[k], depth, universe);
        if sub != Done {
          if sub == ForceFailed { FailureAbove(g, v, k); }
          return sub;
        }
        ExploreMore(g, before, mid, seen, {v});
        k := k + 1;
      }
      CloseNode(g, before, seen, v);
      return Done;
    }
  }

  ghost predicate FailureBelow(g: Graph, v: Address) {
    exists b :: Reachable(g, v, b) && g(b).Fails?
  }

  lemma FailsHere(g: Graph, v: Address)
    requires g(v).Fails?
    ensures FailureBelow(g, v)
  {
    assert ReachIn(g, v, v, 0);
  }

  lemma FailureAbove(g: Graph, v: Address, k: nat)
    requires k < |Children(g, v)| && FailureBelow(g, Children(g, v)[k])
    ensures FailureBelow(g, v)
  {
    var b :| Reachable(g, Children(g, v)[k], b) && g(b).Fails?;
    ReachStep(g, v, k, b);
  }

  lemma CloseNode(g: Graph, before: set<Address>, seen: set<Address>, v: Address)
    requires Explored(g, before, seen, {v}) && Inside(g, v, seen)
    ensures Explored(g, before, seen, {})
  {}

  lemma MarkShrinks(universe: set<Address>, s: set<Address>, v: Address)
    requires v in universe && v !in s
    ensures |universe - s| == |universe - (s + {v})| + 1
  {
    assert universe - s == (universe - (s + {v})) + {v};
  }

  lemma LargerSeen(universe: set<Address>, s: set<Address>, t: set<Address>)
    requires s <= t
    ensures universe - t <= universe - s && |universe - t| <= |universe - s|
  {
    assert universe - s == (universe - t) + ((universe - s) - (universe - t));
  }

  /** On success everything reachable has been forced; the walk fails only if something
      reachable does, and with enough call depth these are the only outcomes. */
  method ForceValueDeep(g: Graph, v: Address, depth: nat, ghost universe: set<Address>) returns (r: Outcome, forces: seq<Address>)
    requires Closed(g, universe) && v in universe
    ensures Distinct(forces)
    ensures r == Done ==> forall b :: Reachable(g, v, b) ==> b in forces && !g(b).Fails?
    ensures r == ForceFailed ==> exists b :: Reachable(g, v, b) && g(b).Fails?
    ensures depth > |universe| ==> (r == Done <==> forall b :: Reachable(g, v, b) ==> !g(b).Fails?)
  {
    var walk := new Walk();
    assert universe - {} == universe;
    r := walk.Recurse(g, v, depth, universe);
    forces := walk.forces;
    if r == Done {
      assert Closed(g, walk.seen);
      forall b | Reachable(g, v, b) ensures b in forces && !g(b).Fails? {
        var n: nat :| ReachIn(g, v, b, n);
        ClosedHoldsReachable(g, walk.seen, v, b, n);
      }
    }
  }
}

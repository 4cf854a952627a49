/**
 The authorization-gate collector: a depth-first walk over a dependency graph that may have cycles,
 with one visited set shared by all recursive calls.
 */
module GateCollector {
  import opened Wrappers

  type NodeId = nat

  /** The name of the dependency's callable, if it has one, and its own dependencies in order. */
  datatype Dependant = Dependant(name: Option<string>, dependencies: seq<NodeId>)

  /** Nodes that are not listed have neither a callable nor dependencies. */
  type Graph = map<NodeId, Dependant>

  const EXTRA_GATE_NAMES: set<string> := {"admin_uc"}
  const GATE_PREFIX: string := "require_"

  function Deps(g: Graph, n: NodeId): seq<NodeId> {
    if n in g then g[n].dependencies else []
  }

  function Name(g: Graph, n: NodeId): Option<string> {
    if n in g then g[n].name else None
  }

  predicate IsGate(name: string) {
    name != "" && (GATE_PREFIX <= name || name in EXTRA_GATE_NAMES)
  }

  /** The names that count as authorization: a requirement of any kind, and one more. */
  ghost predicate GateName(name: string) {
    name == "admin_uc" || exists what :: name == "require_" + what
  }

  lemma IsGateIff(name: string)
    ensures IsGate(name) <==> GateName(name)
  {
    if GATE_PREFIX <= name { assert name == "require_" + name[8..]; }
    if what :| name == "require_" + what { assert GATE_PREFIX <= name; }
  }

  ghost predicate HasGate(g: Graph, n: NodeId, name: string) {
    Name(g, n) == Some(name) && GateName(name)
  }

  // Reachability

  /** p walks along dependencies from a, ending in its last node. */
  ghost predicate Path(g: Graph, a: NodeId, p: seq<NodeId>)
    decreases |p|
  {
    p != [] && p[0] in Deps(g, a) && (|p| == 1 || Path(g, p[0], p[1..]))
  }

  /** b is a dependency of a, directly or through others. */
  ghost predicate Reaches(g: Graph, a: NodeId, b: NodeId) {
    exists p :: Path(g, a, p) && p[|p| - 1] == b
  }

  /** The name is that of a gate on some dependency a reaches. */
  ghost predicate Guards(g: Graph, a: NodeId, name: string) {
    exists b :: Reaches(g, a, b) && HasGate(g, b, name)
  }

  lemma EdgeReaches(g: Graph, a: NodeId, b: NodeId)
    requires b in Deps(g, a)
    ensures Reaches(g, a, b)
  {
    assert Path(g, a, [b]);
  }

  lemma EdgeThenReaches(g: Graph, a: NodeId, m: NodeId, b: NodeId)
    requires m in Deps(g, a) && Reaches(g, m, b)
    ensures Reaches(g, a, b)
  {
    var p :| Path(g, m, p) && p[|p| - 1] == b;
    assert ([m] + p)[1..] == p;
    assert Path(g, a, [m] + p);
  }

  lemma GuardsThroughEdge(g: Graph, a: NodeId, m: NodeId)
    requires m in Deps(g, a)
    ensures forall b :: Reaches(g, m, b) ==> Reaches(g, a, b)
    ensures forall name :: Guards(g, m, name) ==> Guards(g, a, name)
  {
    forall b | Reaches(g, m, b) ensures Reaches(g, a, b) {
      EdgeThenReaches(g, a, m, b);
    }
  }

  /** m has been visited and its gate, if it is one, collected. */
  ghost predicate Taken(g: Graph, m: NodeId, visited: set<NodeId>, gates: set<string>) {
    m in visited && forall name :: HasGate(g, m, name) ==> name in gates
  }

  /** Every dependency of every node of `nodes` is taken. */
  ghost predicate Expanded(g: Graph, nodes: set<NodeId>, visited: set<NodeId>, gates: set<string>) {
    forall v, m :: v in nodes && m in Deps(g, v) ==> Taken(g, m, visited, gates)
  }

  ghost predicate AllReached(g: Graph, n: NodeId, nodes: set<NodeId>, gates: set<string>) {
    && (forall v :: v in nodes ==> Reaches(g, n, v))
    && (forall name :: name in gates ==> Guards(g, n, name))
  }

  lemma MoreGates(g: Graph, nodes: set<NodeId>, visited: set<NodeId>, gates: set<string>, more: set<string>)
    requires Expanded(g, nodes, visited, gates) && gates <= more
    ensures Expanded(g, nodes, visited, more)
  {
    forall v, m | v in nodes && m in Deps(g, v) ensures Taken(g, m, visited, more) {
      assert Taken(g, m, visited, gates);
    }
  }

  /** One visit of a new dependency: s0 before, s1 after the recursive call returned `more`. */
  lemma VisitExpands(g: Graph, n: NodeId, before: set<NodeId>, s0: set<NodeId>, sub: NodeId, s1: set<NodeId>,
                     gates: set<string>, more: set<string>)
    requires before <= s0 && s0 + {sub} <= s1 && sub in Deps(g, n)
    requires Expanded(g, s0 - before, s0, gates) && AllReached(g, n, s0 - before, gates)
    requires Expanded(g, {sub} + (s1 - (s0 + {sub})), s1, more)
    requires AllReached(g, sub, s1 - (s0 + {sub}), more)
    ensures Expanded(g, s1 - before, s1, gates + more) && AllReached(g, n, s1 - before, gates + more)
  {
    forall v, m | v in s1 - before && m in Deps(g, v) ensures Taken(g, m, s1, gates + more) {
      if v in s0 {
        assert Taken(g, m, s0, gates);
      } else {
        assert v in {sub} + (s1 - (s0 + {sub})) && Taken(g, m, s1, more);
      }
    }
    EdgeReaches(g, n, sub);
    GuardsThroughEdge(g, n, sub);
  }

  /** What the visited set has closed over contains everything reachable. */
  lemma {:induction false} ClosedContainsPath(g: Graph, a: NodeId, p: seq<NodeId>, nodes: set<NodeId>, gates: set<string>)
    requires Path(g, a, p) && Expanded(g, nodes, nodes, gates)
    requires forall m :: m in Deps(g, a) ==> Taken(g, m, nodes, gates)
    ensures Taken(g, p[|p| - 1], nodes, gates)
    decreases |p|
  {
    if |p| > 1 {
      ClosedContainsPath(g, p[0], p[1..], nodes, gates);
    }
  }

  // The collector

  class Seen {
    var ids: set<NodeId>
    constructor ()
      ensures ids == {}
    {
      ids := {};
    }
  }

  function Universe(g: Graph): set<NodeId> {
    set n, m | n in g && m in g[n].dependencies :: m
  }

  /** A call returns only part of what its node reaches: branches already visited are skipped.  It promises
      that whatever it newly visited is expanded into the shared set and its own result. */
  method CollectGates(g: Graph, n: NodeId, seen: Seen) returns (gates: set<string>)
    modifies seen
    ensures old(seen.ids) <= seen.ids
    ensures Expanded(g, {n} + (seen.ids - old(seen.ids)), seen.ids, gates)
    ensures AllReached(g, n, seen.ids - old(seen.ids), gates)
    decreases |Universe(g) - seen.ids|
  {
    gates := {};
    var dependencies := Deps(g, n);
    ghost var before := seen.ids;
    for k := 0 to |dependencies|
      invariant before <= seen.ids
      invariant forall j :: 0 <= j < k ==> Taken(g, dependencies[j], seen.ids, gates)
      invariant Expanded(g, seen.ids - before, seen.ids, gates)
      invariant AllReached(g, n, seen.ids - before, gates)
    {
      var sub := dependencies[k];
      var name := Name(g, sub);
      if name.Some? { IsGateIff(name.value); }
      if name.Some? && IsGate(name.value) {
        EdgeReaches(g, n, sub);
        assert HasGate(g, sub, name.value);
        MoreGates(g, seen.ids - before, seen.ids, gates, gates + {name.value});
        gates := gates + {name.value};
      }
      if sub !in seen.ids {
        ghost var visited := seen.ids;
        UniverseShrinks(g, before, seen.ids, sub);
        seen.ids := seen.ids + {sub};
        var more := CollectGates(g, sub, seen);
        VisitExpands(g, n, before, visited, sub, seen.ids, gates, more);
        gates := gates + more;
      }
    }
  }

  lemma UniverseShrinks(g: Graph, before: set<NodeId>, ids: set<NodeId>, n: NodeId)
    requires before <= ids && n !in ids && exists a :: n in Deps(g, a)
    ensures |Universe(g) - (ids + {n})| < |Universe(g) - before|
  {
    assert n in Universe(g);
    var rest := Universe(g) - (ids + {n});
    SubsetSize(rest + {n}, Universe(g) - before);
  }

  lemma {:induction false} SubsetSize(a: set<NodeId>, b: set<NodeId>)
    requires a <= b
    ensures |a| <= |b|
  {
    if a != {} {
      var x :| x in a;
      SubsetSize(a - {x}, b - {x});
    }
  }

  /** Called on a root: exactly the gate names on all reachable dependencies, on every graph. */
  method GatesOf(g: Graph, root: NodeId) returns (gates: set<string>)
    ensures forall name :: name in gates <==> Guards(g, root, name)
  {
    var seen := new Seen();
    gates := CollectGates(g, root, seen);
    assert Expanded(g, seen.ids, seen.ids, gates);
    forall name | Guards(g, root, name) ensures name in gates {
      var b :| Reaches(g, root, b) && HasGate(g, b, name);
      var p :| Path(g, root, p) && p[|p| - 1] == b;
      ClosedContainsPath(g, root, p, seen.ids, gates);
    }
  }

  datatype Status = RoleGated | Public | Authenticated

  /** A route's row in the matrix. */
  method RouteStatus(g: Graph, root: NodeId, path: string, publicPrefixes: seq<string>) returns (status: Status)
    ensures status.RoleGated? <==> exists name :: Guards(g, root, name)
    ensures status.Public? <==>
            !(exists name :: Guards(g, root, name))
            && exists i :: 0 <= i < |publicPrefixes| && publicPrefixes[i] <= path
  {
    var gates := GatesOf(g, root);
    if gates != {} {
      var name :| name in gates;
      assert Guards(g, root, name);
      status := RoleGated;
    } else if exists i :: 0 <= i < |publicPrefixes| && publicPrefixes[i] <= path {
      status := Public;
    } else {
      status := Authenticated;
    }
  }
}

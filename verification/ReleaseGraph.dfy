/** The release graph: which components depend on which, and what being reachable means. */
module ReleaseGraph {

  datatype Component = Component(paths: seq<string>, dependsOn: seq<string>)

  type Graph = map<string, Component>

  predicate Edge(g: Graph, a: string, b: string) {
    a in g && b in g[a].dependsOn
  }

  /** Every dependency names a component. */
  predicate Closed(g: Graph) {
    forall n | n in g :: forall d | d in g[n].dependsOn :: d in g
  }

  predicate IsPath(g: Graph, p: seq<string>) {
    p != [] && forall i | 0 <= i < |p| - 1 :: Edge(g, p[i], p[i + 1])
  }

  predicate PathBetween(g: Graph, p: seq<string>, a: string, b: string) {
    IsPath(g, p) && p[0] == a && p[|p| - 1] == b
  }

  /** `a` leads to `b` through zero or more `depends_on` steps. */
  ghost predicate Reaches(g: Graph, a: string, b: string) {
    exists p :: PathBetween(g, p, a, b)
  }

  /** `a` leads to `b` through one or more `depends_on` steps. */
  ghost predicate ReachesProperly(g: Graph, a: string, b: string) {
    exists p :: PathBetween(g, p, a, b) && |p| >= 2
  }

  ghost predicate Acyclic(g: Graph) {
    forall n :: !ReachesProperly(g, n, n)
  }

  /** An order in which a dict may yield its items. That a dict yields no key twice plays no part. */
  ghost predicate Enumerates(order: seq<string>, g: Graph) {
    forall n :: n in order <==> n in g
  }

  lemma StepReaches(g: Graph, a: string, b: string)
    requires Edge(g, a, b)
    ensures ReachesProperly(g, a, b)
  {
    assert PathBetween(g, [a, b], a, b);
  }

  lemma ExtendReach(g: Graph, a: string, b: string, c: string)
    requires ReachesProperly(g, a, b) && Edge(g, b, c)
    ensures ReachesProperly(g, a, c)
  {
    var p :| PathBetween(g, p, a, b) && |p| >= 2;
    assert PathBetween(g, p + [c], a, c);
  }

  lemma ReachThrough(g: Graph, a: string, b: string, c: string)
    requires Edge(g, a, b) && Reaches(g, b, c)
    ensures Reaches(g, a, c)
  {
    var p :| PathBetween(g, p, b, c);
    assert PathBetween(g, [a] + p, a, c);
  }

  lemma ReachSelf(g: Graph, a: string)
    ensures Reaches(g, a, a)
  {
    assert PathBetween(g, [a], a, a);
  }

  predicate DependencyClosed(g: Graph, s: set<string>) {
    forall n | n in s && n in g :: forall d | d in g[n].dependsOn :: d in s
  }

  lemma {:induction false} PathStaysInside(g: Graph, s: set<string>, p: seq<string>)
    requires IsPath(g, p) && p[0] in s && DependencyClosed(g, s)
    ensures p[|p| - 1] in s
  {
    if |p| > 1 {
      assert Edge(g, p[0], p[1]);
      forall i | 0 <= i < |p[1..]| - 1 ensures Edge(g, p[1..][i], p[1..][i + 1]) {
        assert Edge(g, p[i + 1], p[i + 2]);
      }
      PathStaysInside(g, s, p[1..]);
    }
  }

  // ---------------------------------------------------------------- cycle check

  /** A component whose dependencies all lie in a closed set that leaves it out is on no cycle. */
  lemma OutsideClosedSet(g: Graph, s: set<string>, n: string)
    requires n in g && n !in s && DependencyClosed(g, s) && forall d | d in g[n].dependsOn :: d in s
    ensures !ReachesProperly(g, n, n)
  {
    forall p | PathBetween(g, p, n, n) && |p| >= 2 ensures false {
      assert Edge(g, p[0], p[1]);
      forall i | 0 <= i < |p[1..]| - 1 ensures Edge(g, p[1..][i], p[1..][i + 1]) {
        assert Edge(g, p[i + 1], p[i + 2]);
      }
      PathStaysInside(g, s, p[1..]);
    }
  }

  lemma FinishedIsAcyclic(g: Graph, s: set<string>)
    requires g.Keys <= s && forall n | n in s :: !ReachesProperly(g, n, n)
    ensures Acyclic(g)
  {
    if n :| ReachesProperly(g, n, n) {
      var p :| PathBetween(g, p, n, n) && |p| >= 2;
      assert Edge(g, p[0], p[1]);
    }
  }

  /** `_assert_acyclic` with its two sets; a refused visit is the ValueError. */
  class CycleCheck {
    const g: Graph
    var visiting: set<string>
    var visited: set<string>

    constructor (g: Graph)
      ensures this.g == g && visiting == {} && visited == {}
    {
      this.g := g;
      visiting, visited := {}, {};
    }

    /** What is visited is finished: closed under dependencies and free of cycles. */
    ghost predicate Valid()
      reads this
    {
      && Closed(g)
      && visiting <= g.Keys && visited <= g.Keys && visiting !! visited
      && DependencyClosed(g, visited)
      && forall n | n in visited :: !ReachesProperly(g, n, n)
    }

    method Visit(name: string) returns (ok: bool)
      requires Valid() && name in g
      requires forall v | v in visiting :: ReachesProperly(g, v, name)
      modifies this
      decreases g.Keys - visiting - visited
      ensures ok ==> Valid() && visiting == old(visiting) && old(visited) <= visited && name in visited
      ensures !ok ==> !Acyclic(g)
    {
      if name in visiting {
        return false;
      }
      if name in visited {
        return true;
      }
      visiting := visiting + {name};
      var deps := g[name].dependsOn;
      var i := 0;
      while i < |deps|
        invariant 0 <= i <= |deps|
        invariant Valid() && visiting == old(visiting) + {name} && old(visited) <= visited
        invariant forall j | 0 <= j < i :: deps[j] in visited
      {
        forall v | v in visiting ensures ReachesProperly(g, v, deps[i]) {
          assert Edge(g, name, deps[i]);
          if v == name { StepReaches(g, name, deps[i]); } else { ExtendReach(g, v, name, deps[i]); }
        }
        assert name in g.Keys - old(visiting) - old(visited) && name !in g.Keys - visiting - visited;
        ok := Visit(deps[i]);
        if !ok {
          return false;
        }
        i := i + 1;
      }
      OutsideClosedSet(g, visited, name);
      visiting := visiting - {name};
      visited := visited + {name};
      return true;
    }
  }

  method AssertAcyclic(g: Graph, order: seq<string>) returns (ok: bool)
    requires Closed(g) && Enumerates(order, g)
    ensures ok <==> Acyclic(g)
  {
    var check := new CycleCheck(g);
    var i := 0;
    while i < |order|
      invariant 0 <= i <= |order| && check.g == g
      invariant check.Valid() && check.visiting == {}
      invariant forall j | 0 <= j < i :: order[j] in check.visited
    {
      assert order[i] in order;
      ok := check.Visit(order[i]);
      if !ok {
        return false;
      }
      i := i + 1;
    }
    FinishedIsAcyclic(g, check.visited);
    return true;
  }

  predicate HasContent(g: Graph) {
    forall n | n in g :: g[n].paths != [] || g[n].dependsOn != []
  }

  /** The graph checks of `load_components`: accepted exactly when there is a component, each
      has paths or dependencies, all dependencies are known and none leads back to itself. */
  method LoadComponents(g: Graph, order: seq<string>) returns (ok: bool)
    requires Enumerates(order, g)
    ensures ok <==> g != map[] && HasContent(g) && Closed(g) && Acyclic(g)
  {
    if g == map[] {
      return false;
    }
    if exists n | n in g :: g[n].paths == [] && g[n].dependsOn == [] {
      return false;
    }
    if exists n | n in g :: exists d | d in g[n].dependsOn :: d !in g {
      return false;
    }
    ok := AssertAcyclic(g, order);
  }
}

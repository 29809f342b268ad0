/** Which components a change selects, and the root gate it must pass. `fnmatch` is the
    parameter `matches(path, pattern)`; paths are already normalized. */
module ReleaseSelection {
  import opened Wrappers
  import opened ReleaseGraph

  type Matcher = (string, string) -> bool

  predicate MatchesAny(matches: Matcher, paths: seq<string>, patterns: seq<string>) {
    exists path | path in paths :: exists pattern | pattern in patterns :: matches(path, pattern)
  }

  /** One of the component's own patterns matches a changed path. */
  predicate DirectlyChanged(g: Graph, matches: Matcher, paths: seq<string>, n: string) {
    n in g && MatchesAny(matches, paths, g[n].paths)
  }

  predicate Accounted(g: Graph, matches: Matcher, ignored: seq<string>, path: string) {
    (exists n | n in g :: MatchesAny(matches, [path], g[n].paths)) || MatchesAny(matches, [path], ignored)
  }

  /** Every changed path belongs to a component or to an ignore rule. */
  predicate AllAccounted(g: Graph, matches: Matcher, paths: seq<string>, ignored: seq<string>) {
    forall path | path in paths :: Accounted(g, matches, ignored, path)
  }

  /** The component leads to a directly changed one through `depends_on`. */
  ghost predicate Selected(g: Graph, matches: Matcher, paths: seq<string>, n: string) {
    n in g && exists m :: DirectlyChanged(g, matches, paths, m) && Reaches(g, n, m)
  }

  ghost function SelectionOf(g: Graph, matches: Matcher, paths: seq<string>): map<string, bool> {
    map n | n in g :: Selected(g, matches, paths, n)
  }

  // ---------------------------------------------------------------- least fixed point

  predicate ContainsChanged(g: Graph, matches: Matcher, paths: seq<string>, s: set<string>) {
    forall n | n in g :: DirectlyChanged(g, matches, paths, n) ==> n in s
  }

  /** Nothing outside `s` depends on a member of `s`. */
  predicate DependentClosed(g: Graph, s: set<string>) {
    forall n | n in g && n !in s :: forall d | d in g[n].dependsOn :: d !in s
  }

  lemma {:induction false} ReachingPathInside(g: Graph, s: set<string>, p: seq<string>)
    requires IsPath(g, p) && p[|p| - 1] in s && DependentClosed(g, s)
    ensures p[0] in s
  {
    if |p| > 1 {
      assert Edge(g, p[0], p[1]);
      forall i | 0 <= i < |p[1..]| - 1 ensures Edge(g, p[1..][i], p[1..][i + 1]) {
        assert Edge(g, p[i + 1], p[i + 2]);
      }
      ReachingPathInside(g, s, p[1..]);
    }
  }

  lemma SelectedInside(g: Graph, matches: Matcher, paths: seq<string>, s: set<string>, n: string)
    requires ContainsChanged(g, matches, paths, s) && DependentClosed(g, s) && Selected(g, matches, paths, n)
    ensures n in s
  {
    var m :| DirectlyChanged(g, matches, paths, m) && Reaches(g, n, m);
    var p :| PathBetween(g, p, n, m);
    ReachingPathInside(g, s, p);
  }

  lemma ChangedSelected(g: Graph, matches: Matcher, paths: seq<string>, n: string)
    requires DirectlyChanged(g, matches, paths, n)
    ensures Selected(g, matches, paths, n)
  {
    ReachSelf(g, n);
  }

  /** The selection contains what changed, is closed under dependents, and lies inside every
      other set with these two properties. */
  lemma SelectionIsLeast(g: Graph, matches: Matcher, paths: seq<string>, s: set<string>)
    ensures forall n :: DirectlyChanged(g, matches, paths, n) ==> Selected(g, matches, paths, n)
    ensures forall n, d :: Edge(g, n, d) && Selected(g, matches, paths, d) ==> Selected(g, matches, paths, n)
    ensures ContainsChanged(g, matches, paths, s) && DependentClosed(g, s)
            ==> forall n :: Selected(g, matches, paths, n) ==> n in s
  {
    hide DirectlyChanged, Selected, ContainsChanged, DependentClosed;
    forall n | DirectlyChanged(g, matches, paths, n) ensures Selected(g, matches, paths, n) {
      ChangedSelected(g, matches, paths, n);
    }
    forall n, d | Edge(g, n, d) && Selected(g, matches, paths, d) ensures Selected(g, matches, paths, n) {
      DependentSelected(g, matches, paths, n, d);
    }
    if ContainsChanged(g, matches, paths, s) && DependentClosed(g, s) {
      forall n | Selected(g, matches, paths, n) ensures n in s {
        SelectedInside(g, matches, paths, s, n);
      }
    }
  }

  lemma DependentSelected(g: Graph, matches: Matcher, paths: seq<string>, n: string, d: string)
    requires Edge(g, n, d) && Selected(g, matches, paths, d)
    ensures Selected(g, matches, paths, n)
  {
    var m :| DirectlyChanged(g, matches, paths, m) && Reaches(g, d, m);
    ReachThrough(g, n, d, m);
  }

  // ---------------------------------------------------------------- the loop

  ghost function Chosen(selected: map<string, bool>): set<string> {
    set n | n in selected && selected[n]
  }

  /** Everything marked so far is selected, and everything changed is marked. */
  ghost predicate Sound(g: Graph, matches: Matcher, paths: seq<string>, selected: map<string, bool>) {
    && selected.Keys == g.Keys
    && ContainsChanged(g, matches, paths, Chosen(selected))
    && forall n | n in Chosen(selected) :: Selected(g, matches, paths, n)
  }

  lemma SoundAndClosed(g: Graph, matches: Matcher, paths: seq<string>, selected: map<string, bool>)
    requires Sound(g, matches, paths, selected) && DependentClosed(g, Chosen(selected))
    ensures selected == SelectionOf(g, matches, paths)
  {
    hide Selected;
    SelectionIsLeast(g, matches, paths, Chosen(selected));
    forall n | n in g ensures selected[n] == Selected(g, matches, paths, n) {
      assert n in Chosen(selected) <==> selected[n];
    }
  }

  predicate SomeDependencySelected(g: Graph, selected: map<string, bool>, n: string)
    requires n in g
  {
    exists d | d in g[n].dependsOn :: d in selected && selected[d]
  }

  /** One pass over the components; `order` is the iteration order of the dict. */
  method SelectionPass(g: Graph, order: seq<string>, ghost matches: Matcher, ghost paths: seq<string>,
                       before: map<string, bool>)
    returns (selected: map<string, bool>, changed: bool)
    requires Closed(g) && Enumerates(order, g) && Sound(g, matches, paths, before)
    ensures Sound(g, matches, paths, selected)
    ensures changed ==> Chosen(before) < Chosen(selected)
    ensures !changed ==> selected == before && DependentClosed(g, Chosen(selected))
  {
    hide Selected, ContainsChanged;
    selected, changed := before, false;
    var i := 0;
    while i < |order|
      invariant 0 <= i <= |order|
      invariant Sound(g, matches, paths, selected)
      invariant changed ==> Chosen(before) < Chosen(selected)
      invariant !changed ==> selected == before
      invariant !changed ==> forall j | 0 <= j < i ::
                order[j] in g && (selected[order[j]] || !SomeDependencySelected(g, selected, order[j]))
    {
      var name := order[i];
      assert name in order;
      if !selected[name] && SomeDependencySelected(g, selected, name) {
        MarkSound(g, matches, paths, selected, name);
        assert Chosen(selected[name := true]) == Chosen(selected) + {name} && name !in Chosen(selected);
        selected := selected[name := true];
        changed := true;
      }
      i := i + 1;
    }
    if !changed {
      forall n | n in g && n !in Chosen(selected) ensures forall d | d in g[n].dependsOn :: d !in Chosen(selected) {
        assert n in order;
        var j :| 0 <= j < |order| && order[j] == n;
        assert !SomeDependencySelected(g, selected, n);
      }
    }
  }

  lemma MarkSound(g: Graph, matches: Matcher, paths: seq<string>, selected: map<string, bool>, name: string)
    requires Sound(g, matches, paths, selected) && name in g && SomeDependencySelected(g, selected, name)
    ensures Sound(g, matches, paths, selected[name := true])
  {
    hide Selected;
    var d :| d in g[name].dependsOn && d in selected && selected[d];
    assert d in Chosen(selected) && Edge(g, name, d);
    DependentSelected(g, matches, paths, name, d);
    assert Chosen(selected[name := true]) == Chosen(selected) + {name};
  }

  /** `select_components`: None is the unmapped-path error. The result does not depend on the
      iteration order of the mapping. */
  method SelectComponents(g: Graph, order: seq<string>, matches: Matcher, paths: seq<string>, ignored: seq<string>)
    returns (r: Option<map<string, bool>>)
    requires Closed(g) && Enumerates(order, g)
    ensures r == if AllAccounted(g, matches, paths, ignored) then Some(SelectionOf(g, matches, paths)) else None
  {
    hide Selected;
    var selected := map n | n in g :: DirectlyChanged(g, matches, paths, n);
    if !AllAccounted(g, matches, paths, ignored) {
      return None;
    }
    assert Sound(g, matches, paths, selected) by { SelectionIsLeast(g, matches, paths, {}); }
    var changed := true;
    while changed
      invariant Sound(g, matches, paths, selected)
      invariant !changed ==> DependentClosed(g, Chosen(selected))
      decreases g.Keys - Chosen(selected), changed
    {
      ghost var before := selected;
      selected, changed := SelectionPass(g, order, matches, paths, selected);
      if changed {
        ghost var n :| n in Chosen(selected) && n !in Chosen(before);
        assert n in g.Keys - Chosen(before);
      }
    }
    SoundAndClosed(g, matches, paths, selected);
    return Some(selected);
  }

  /** A changed path touches a component: one of the component's own patterns matches it. */
  predicate Touches(g: Graph, matches: Matcher, path: string, n: string) {
    n in g && exists pattern :: pattern in g[n].paths && matches(path, pattern)
  }

  /** What the selection says, down to paths and patterns: a change is refused exactly when one of
      its paths touches no component and matches no ignore rule, and a component is selected exactly
      when it leads to one that a changed path touches. */
  lemma SelectionMeaning(g: Graph, matches: Matcher, paths: seq<string>, ignored: seq<string>)
    ensures !AllAccounted(g, matches, paths, ignored) <==>
            exists path :: path in paths && (forall n :: !Touches(g, matches, path, n))
                           && forall pattern :: pattern in ignored ==> !matches(path, pattern)
    ensures SelectionOf(g, matches, paths).Keys == g.Keys
    ensures forall n | n in g ::
              SelectionOf(g, matches, paths)[n] <==>
              exists m, path :: path in paths && Touches(g, matches, path, m) && Reaches(g, n, m)
  {
    hide Reaches;
    forall path ensures Accounted(g, matches, ignored, path) <==>
                        (exists n :: Touches(g, matches, path, n))
                        || exists pattern :: pattern in ignored && matches(path, pattern)
    {
      AccountedMeans(g, matches, ignored, path);
    }
    forall n ensures DirectlyChanged(g, matches, paths, n) <==>
                     exists path :: path in paths && Touches(g, matches, path, n)
    {
    }
    hide DirectlyChanged, Accounted, Touches;
    forall n | n in g ensures SelectionOf(g, matches, paths)[n] <==>
                              exists m, path :: path in paths && Touches(g, matches, path, m) && Reaches(g, n, m)
    {
    }
  }

  lemma AccountedMeans(g: Graph, matches: Matcher, ignored: seq<string>, path: string)
    ensures Accounted(g, matches, ignored, path) <==>
            (exists n :: Touches(g, matches, path, n)) || exists pattern :: pattern in ignored && matches(path, pattern)
  {
    assert path in [path];
    forall n | n in g ensures MatchesAny(matches, [path], g[n].paths) <==> Touches(g, matches, path, n) {
    }
  }

  // ---------------------------------------------------------------- the root gate

  datatype Gate = NoGate | Contract | Full {
    function Rank(): nat {
      match this case NoGate => 0 case Contract => 1 case Full => 2
    }
  }

  function Max(a: Gate, b: Gate): Gate {
    if a.Rank() >= b.Rank() then a else b
  }

  const ROOT_COMPONENTS: set<string> := {"miner_cli", "screening_protocol", "validator", "sandbox_docker"}
  const PROJECT_PATHS: set<string> := {"pyproject.toml", "uv.lock"}
  const VALIDATOR_STACK := "validator_stack"

  /** `select_root_verification`; None is the KeyError for a graph without a validator stack. */
  function RootGate(g: Graph, selected: map<string, bool>, matches: Matcher, paths: seq<string>): Option<Gate> {
    if exists n | n in ROOT_COMPONENTS :: n in selected && selected[n] then Some(Full)
    else if exists path | path in paths :: path in PROJECT_PATHS then Some(Full)
    else if VALIDATOR_STACK !in g then None
    else if MatchesAny(matches, paths, g[VALIDATOR_STACK].paths) then Some(Contract)
    else Some(NoGate)
  }

  /** The gate of a change set, as `main` computes it. */
  ghost function PlanGate(g: Graph, matches: Matcher, paths: seq<string>): Option<Gate> {
    RootGate(g, SelectionOf(g, matches, paths), matches, paths)
  }

  /** When each gate is due, in terms of the graph: the full one when a project file changed or
      a root component leads to a changed component, the contract one otherwise when a pattern of
      the validator stack itself matches. */
  lemma GateMeaning(g: Graph, matches: Matcher, paths: seq<string>)
    ensures var full := "pyproject.toml" in paths || "uv.lock" in paths
                        || LeadsToChange(g, matches, paths, "miner_cli")
                        || LeadsToChange(g, matches, paths, "screening_protocol")
                        || LeadsToChange(g, matches, paths, "validator")
                        || LeadsToChange(g, matches, paths, "sandbox_docker");
            && (PlanGate(g, matches, paths) == Some(Full) <==> full)
            && (PlanGate(g, matches, paths) == Some(Contract) <==>
                  !full && exists path :: path in paths && Touches(g, matches, path, "validator_stack"))
            && (PlanGate(g, matches, paths) == None <==> !full && "validator_stack" !in g)
  {
    SelectionMeaning(g, matches, paths, []);
    hide SelectionOf, Reaches;
    assert forall n | n in g :: SelectionOf(g, matches, paths)[n] <==> LeadsToChange(g, matches, paths, n);
  }

  /** The component is there and leads to one that a changed path touches. */
  ghost predicate LeadsToChange(g: Graph, matches: Matcher, paths: seq<string>, n: string) {
    n in g && exists m, path :: path in paths && Touches(g, matches, path, m) && Reaches(g, n, m)
  }

  ghost predicate IsUnion(r: seq<string>, p: seq<string>, q: seq<string>) {
    forall x :: x in r <==> x in p || x in q
  }

  /** Adding changed paths joins gates: the gate of a union is the stronger of the two gates,
      and the union is accounted for when both parts are. */
  lemma GateOfUnion(g: Graph, matches: Matcher, p: seq<string>, q: seq<string>, r: seq<string>, ignored: seq<string>)
    requires IsUnion(r, p, q) && PlanGate(g, matches, p).Some? && PlanGate(g, matches, q).Some?
    ensures PlanGate(g, matches, r) == Some(Max(PlanGate(g, matches, p).value, PlanGate(g, matches, q).value))
    ensures AllAccounted(g, matches, r, ignored)
            <==> AllAccounted(g, matches, p, ignored) && AllAccounted(g, matches, q, ignored)
  {
  }

  /** More changed paths never weaken the gate. */
  lemma GateMonotone(g: Graph, matches: Matcher, p: seq<string>, r: seq<string>)
    requires (forall x | x in p :: x in r) && PlanGate(g, matches, p).Some?
    ensures PlanGate(g, matches, r).Some?
    ensures PlanGate(g, matches, p).value.Rank() <= PlanGate(g, matches, r).value.Rank()
  {
  }
}

/**
 * The declared build targets and the parser's one service used by `buck project`:
 * building the target graph of a set of roots, that is, their transitive closure
 * under "depends on". A target graph is realized into rules that can be looked up
 * by target.
 */
module TargetUniverse {
  import opened Wrappers

  /** A fully-qualified build target name such as "//apps/demo:lib"; targets are equal by name. */
  type Id = string

  /** The declared type of a rule. `isTest` is what `BuildRuleType.isTestRule()` reports. */
  datatype RuleType =
    | ProjectConfigType
    | XcodeProjectConfigType
    | XcodeWorkspaceConfigType
    | OtherType(name: string, isTest: bool)
  {
    predicate IsTestRule() {
      OtherType? && isTest
    }
  }

  /** The rule-specific attributes that the association predicates inspect. */
  datatype Payload =
    | ProjectConfig(projectRule: Option<Id>)
    | XcodeProjectConfig(rules: seq<Id>)
    | Test(sourceUnderTest: seq<Id>)
    | XcodeWorkspaceConfig
    | Other

  /** A declared target: its type, the targets it depends on, and its attributes. */
  datatype Node = Node(kind: RuleType, deps: set<Id>, payload: Payload)

  /** Every target the parser can read, keyed by its name. */
  type Universe = map<Id, Node>

  /** A set of target nodes, each under its own name. */
  datatype TargetGraph = TargetGraph(nodes: map<Id, Node>) {

    function Targets(): set<Id> {
      nodes.Keys
    }

    /** No node of the graph depends on a target outside it. */
    predicate Closed() {
      forall t, d :: t in nodes && d in nodes[t].deps ==> d in nodes
    }
  }

  /** The parser could not close a target set: these names are reached but not declared. */
  datatype GraphError = MissingTargets(missing: set<Id>)

  /** A realized node: what `findBuildRuleByTarget` hands back. */
  datatype Rule = Rule(target: Id, payload: Payload)

  /** True when every dependency of a declared member of `c` is in `c`. */
  predicate ClosedIn(u: Universe, c: set<Id>) {
    forall t, d :: t in c && t in u && d in u[t].deps ==> d in c
  }

  /** The direct dependencies of the declared members of `s`. */
  function DepsOf(u: Universe, s: set<Id>): set<Id> {
    set t, d | t in s && t in u && d in u[t].deps :: d
  }

  /** Every name the universe mentions; the closure never leaves `s` plus this set. */
  ghost function Mentioned(u: Universe): set<Id> {
    u.Keys + DepsOf(u, u.Keys)
  }

  lemma DepsAreMentioned(u: Universe, s: set<Id>)
    ensures DepsOf(u, s) <= Mentioned(u)
  {
  }

  /** Growing `s` strictly within `bound` shrinks what is left of `bound`. */
  lemma GapShrinks(bound: set<Id>, s: set<Id>, next: set<Id>)
    requires s <= next && !(next <= s) && next - s <= bound
    ensures |bound - next| < |bound - s|
  {
    var x :| x in next && x !in s;
    assert bound - next <= (bound - s) - {x};
    SubsetCardinality(bound - next, (bound - s) - {x});
  }

  lemma {:induction false} SubsetCardinality(a: set<Id>, b: set<Id>)
    requires a <= b
    ensures |a| <= |b|
    decreases |a|
  {
    if a != {} {
      var x :| x in a;
      SubsetCardinality(a - {x}, b - {x});
    }
  }

  lemma NotSubsetLeavesDifference(a: set<Id>, b: set<Id>)
    requires !(a <= b)
    ensures a - b != {}
  {
    var x :| x in a && x !in b;
    assert x in a - b;
  }

  /** The transitive closure of `s` under the declared dependencies (a fixpoint iteration). */
  function Close(u: Universe, s: set<Id>): set<Id>
    decreases |Mentioned(u) - s|
  {
    var next := s + DepsOf(u, s);
    if next <= s then s
    else
      DepsAreMentioned(u, s);
      GapShrinks(Mentioned(u), s, next);
      Close(u, next)
  }

  lemma {:induction false} CloseContainsRoots(u: Universe, s: set<Id>)
    ensures s <= Close(u, s)
    decreases |Mentioned(u) - s|
  {
    var next := s + DepsOf(u, s);
    if !(next <= s) {
      DepsAreMentioned(u, s);
      GapShrinks(Mentioned(u), s, next);
      CloseContainsRoots(u, next);
    }
  }

  lemma {:induction false} CloseIsClosed(u: Universe, s: set<Id>)
    ensures ClosedIn(u, Close(u, s))
    decreases |Mentioned(u) - s|
  {
    var next := s + DepsOf(u, s);
    if next <= s {
      forall t, d | t in s && t in u && d in u[t].deps ensures d in s {
        assert d in DepsOf(u, s);
      }
    } else {
      DepsAreMentioned(u, s);
      GapShrinks(Mentioned(u), s, next);
      CloseIsClosed(u, next);
    }
  }

  /** The closure is the least dependency-closed superset of the roots. */
  lemma {:induction false} CloseIsLeast(u: Universe, s: set<Id>, c: set<Id>)
    requires s <= c && ClosedIn(u, c)
    ensures Close(u, s) <= c
    decreases |Mentioned(u) - s|
  {
    var next := s + DepsOf(u, s);
    if !(next <= s) {
      forall d | d in DepsOf(u, s) ensures d in c {
        var t :| t in s && t in u && d in u[t].deps;
      }
      DepsAreMentioned(u, s);
      GapShrinks(Mentioned(u), s, next);
      CloseIsLeast(u, next, c);
    }
  }

  lemma CloseIsMonotonic(u: Universe, s1: set<Id>, s2: set<Id>)
    requires s1 <= s2
    ensures Close(u, s1) <= Close(u, s2)
  {
    CloseContainsRoots(u, s2);
    CloseIsClosed(u, s2);
    CloseIsLeast(u, s1, Close(u, s2));
  }

  /** Closing the empty set of roots gives the empty set. */
  lemma CloseOfNothing(u: Universe)
    ensures Close(u, {}) == {}
  {
  }

  /**
   * `buildTargetGraphForBuildTargets`: the target graph of the closure of `roots`,
   * or the names the closure reaches that no build file declares.
   */
  function BuildGraph(u: Universe, roots: set<Id>): (r: Result<TargetGraph, GraphError>)
    ensures r.Ok? <==> Close(u, roots) <= u.Keys
    ensures r.Ok? ==> r.value.Targets() == Close(u, roots)
    ensures r.Ok? ==> roots <= r.value.Targets() && r.value.Closed()
    ensures r.Ok? ==> forall t :: t in r.value.nodes ==> t in u && r.value.nodes[t] == u[t]
    ensures r.Err? ==> r.error.missing != {} && r.error.missing == Close(u, roots) - u.Keys
  {
    var c := Close(u, roots);
    CloseContainsRoots(u, roots);
    CloseIsClosed(u, roots);
    if c <= u.Keys then Ok(TargetGraph(map t | t in c :: u[t]))
    else
      NotSubsetLeavesDifference(c, u.Keys);
      Err(MissingTargets(c - u.Keys))
  }

  /** No dependency-closed superset of the roots is smaller than their graph. */
  lemma BuildGraphIsLeast(u: Universe, roots: set<Id>, c: set<Id>)
    requires BuildGraph(u, roots).Ok?
    requires roots <= c && ClosedIn(u, c)
    ensures BuildGraph(u, roots).value.Targets() <= c
  {
    CloseIsLeast(u, roots, c);
  }

  /** More roots never give a smaller graph. */
  lemma BuildGraphIsMonotonic(u: Universe, roots1: set<Id>, roots2: set<Id>)
    requires roots1 <= roots2 && BuildGraph(u, roots2).Ok?
    ensures BuildGraph(u, roots1).Ok?
    ensures BuildGraph(u, roots1).value.Targets() <= BuildGraph(u, roots2).value.Targets()
  {
    CloseIsMonotonic(u, roots1, roots2);
  }

  /** `ActionGraph.findBuildRuleByTarget`: the realized rule of `t`, or None (Java's null). */
  function FindBuildRuleByTarget(g: TargetGraph, t: Id): (r: Option<Rule>)
    ensures r.Some? <==> t in g.nodes
    ensures r.Some? ==> r.value.target == t && r.value.payload == g.nodes[t].payload
  {
    if t in g.nodes then Some(Rule(t, g.nodes[t].payload)) else None
  }
}

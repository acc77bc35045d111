/**
 * The predicates `buck project` builds in createTargetGraphs: predicates over
 * target nodes (which targets are roots, which are candidates) and associated-rule
 * predicates over a realized rule and a reference graph. Each predicate object of
 * the source is a variant of a closed datatype; `Accepts` and `IsMatch` say what
 * each one decides, and the methods below are the source's loops with early
 * returns, proved to decide exactly that.
 */
module ProjectPredicates {
  import opened Wrappers
  import opened TargetUniverse

  /** A predicate over a target node, together with the configuration it captures. */
  datatype NodePredicate =
    | OfType(kind: RuleType)
    | IsTestRuleNode
    | XcodeRoots(workspaceAndProjects: bool, excludePaths: seq<string>, passedIn: set<Id>)

  /** The type the Xcode root predicate filters on. */
  function XcodeRootType(workspaceAndProjects: bool): RuleType {
    if workspaceAndProjects then XcodeWorkspaceConfigType else XcodeProjectConfigType
  }

  /** Some excluded path, written after "//", is a prefix of the fully-qualified name. */
  predicate IsUnderExcludedPath(name: Id, excludePaths: seq<string>) {
    exists i :: 0 <= i < |excludePaths| && "//" + excludePaths[i] <= name
  }

  /** What each node predicate decides for target `t` declared as `n`. */
  predicate Accepts(p: NodePredicate, t: Id, n: Node) {
    match p
    case OfType(kind) => n.kind == kind
    case IsTestRuleNode => n.kind.IsTestRule()
    case XcodeRoots(w, excludePaths, passedIn) =>
      n.kind == XcodeRootType(w) && (t in passedIn || !IsUnderExcludedPath(t, excludePaths))
  }

  /** The Xcode root predicate as the source runs it: a type check, then a loop over the excluded paths. */
  method ApplyXcodeRoots(workspaceAndProjects: bool, excludePaths: seq<string>, passedIn: set<Id>, t: Id, n: Node)
    returns (accept: bool)
    ensures accept <==>
      && n.kind == XcodeRootType(workspaceAndProjects)
      && (t in passedIn || forall i :: 0 <= i < |excludePaths| ==> !("//" + excludePaths[i] <= t))
    ensures accept == Accepts(XcodeRoots(workspaceAndProjects, excludePaths, passedIn), t, n)
  {
    var filterType := XcodeRootType(workspaceAndProjects);
    if filterType != n.kind {
      return false;
    }
    for i := 0 to |excludePaths|
      invariant t in passedIn || forall j :: 0 <= j < i ==> !("//" + excludePaths[j] <= t)
    {
      if "//" + excludePaths[i] <= t && t !in passedIn {
        return false;
      }
    }
    return true;
  }

  /** A target the user names explicitly passes the Xcode root predicate whatever the excluded paths. */
  lemma ExplicitTargetOverridesExclusion(w: bool, excludePaths: seq<string>, passedIn: set<Id>, t: Id, n: Node)
    requires t in passedIn && n.kind == XcodeRootType(w)
    ensures Accepts(XcodeRoots(w, excludePaths, passedIn), t, n)
  {
  }

  /** A target of the filtered type that lies under an excluded path and was not named is rejected. */
  lemma ExcludedTargetIsRejected(w: bool, excludePaths: seq<string>, passedIn: set<Id>, t: Id, n: Node, i: nat)
    requires i < |excludePaths| && "//" + excludePaths[i] <= t && t !in passedIn
    ensures !Accepts(XcodeRoots(w, excludePaths, passedIn), t, n)
  {
  }

  /** The associated-rule predicates of the source, one per variant. */
  datatype AssociatedRulePredicate =
    | IntellijProjectConfig
    | XcodeProjectConfigRules
    | TestsOfSourceUnderTest

  /** Some target of `ids` has a rule in graph `g`. */
  predicate AnyInGraph(ids: seq<Id>, g: TargetGraph) {
    exists x :: x in ids && x in g.nodes
  }

  /** What each associated-rule predicate decides for `rule` against the reference graph `g`. */
  predicate IsMatch(a: AssociatedRulePredicate, rule: Rule, g: TargetGraph) {
    match a
    case IntellijProjectConfig =>
      rule.payload.ProjectConfig? && rule.payload.projectRule.Some? && rule.payload.projectRule.value in g.nodes
    case XcodeProjectConfigRules =>
      rule.payload.XcodeProjectConfig? && AnyInGraph(rule.payload.rules, g)
    case TestsOfSourceUnderTest =>
      rule.payload.Test? && AnyInGraph(rule.payload.sourceUnderTest, g)
  }

  /** The IntelliJ association: a project config whose project rule is in the reference graph. */
  method MatchIntellijProjectConfig(rule: Rule, g: TargetGraph) returns (matched: bool)
    ensures matched <==>
      && rule.payload.ProjectConfig?
      && rule.payload.projectRule.Some?
      && rule.payload.projectRule.value in g.nodes
  {
    if !rule.payload.ProjectConfig? {
      return false;
    }
    var projectRule := rule.payload.projectRule;
    matched := projectRule.Some? && FindBuildRuleByTarget(g, projectRule.value) != None;
  }

  /** Some element of `ids` has a rule in `g`: the source's loop with early return. */
  method AnyFoundInGraph(ids: seq<Id>, g: TargetGraph) returns (found: bool)
    ensures found <==> exists x :: x in ids && x in g.nodes
  {
    for i := 0 to |ids|
      invariant forall j :: 0 <= j < i ==> ids[j] !in g.nodes
    {
      if FindBuildRuleByTarget(g, ids[i]) != None {
        return true;
      }
    }
    return false;
  }

  /** The Xcode association: a project config including at least one rule of the reference graph. */
  method MatchXcodeProjectConfig(rule: Rule, g: TargetGraph) returns (matched: bool)
    ensures matched <==> rule.payload.XcodeProjectConfig? && exists x :: x in rule.payload.rules && x in g.nodes
  {
    if !rule.payload.XcodeProjectConfig? {
      return false;
    }
    matched := AnyFoundInGraph(rule.payload.rules, g);
  }

  /** The test association: a test whose source under test meets the reference graph. */
  method MatchTest(rule: Rule, g: TargetGraph) returns (matched: bool)
    ensures matched <==> rule.payload.Test? && exists x :: x in rule.payload.sourceUnderTest && x in g.nodes
  {
    if !rule.payload.Test? {
      return false;
    }
    matched := AnyFoundInGraph(rule.payload.sourceUnderTest, g);
  }

  /** `AssociatedRulePredicate.isMatch`, dispatched on the variant. */
  method Match(a: AssociatedRulePredicate, rule: Rule, g: TargetGraph) returns (matched: bool)
    ensures matched == IsMatch(a, rule, g)
  {
    match a
    case IntellijProjectConfig => matched := MatchIntellijProjectConfig(rule, g);
    case XcodeProjectConfigRules => matched := MatchXcodeProjectConfig(rule, g);
    case TestsOfSourceUnderTest => matched := MatchTest(rule, g);
  }

  /** Adding targets to the reference graph never turns an association off. */
  lemma IsMatchIsMonotonic(a: AssociatedRulePredicate, rule: Rule, g1: TargetGraph, g2: TargetGraph)
    requires g1.Targets() <= g2.Targets() && IsMatch(a, rule, g1)
    ensures IsMatch(a, rule, g2)
  {
  }
}

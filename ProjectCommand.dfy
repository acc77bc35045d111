/**
 * The target-graph resolution of `buck project`: root selection, the associated
 * target graph resolver, the three-stage assembly of the main, test and project
 * graphs, and the rule that reads the answer to a yes/no prompt.
 */
module ProjectCommand {
  import opened Wrappers
  import opened TargetUniverse
  import opened ProjectPredicates

  // ---------------------------------------------------------------------------
  // Root selection
  // ---------------------------------------------------------------------------

  /** `filterTargetsFromGraph`: the targets of the graph's nodes that pass the predicate. */
  function FilterTargetsFromGraph(g: TargetGraph, p: NodePredicate): (r: set<Id>)
    ensures r <= g.Targets()
    ensures forall t :: t in r <==> t in g.nodes && Accepts(p, t, g.nodes[t])
  {
    set t | t in g.nodes && Accepts(p, t, g.nodes[t])
  }

  /** `getAllTargetsOfType`: a loop over the nodes collecting those of the given type. */
  method GetAllTargetsOfType(g: TargetGraph, kind: RuleType) returns (r: set<Id>)
    ensures forall t :: t in r <==> t in g.nodes && g.nodes[t].kind == kind
    ensures r == FilterTargetsFromGraph(g, OfType(kind))
  {
    r := {};
    var rest := g.nodes.Keys;
    while rest != {}
      invariant rest <= g.nodes.Keys
      invariant forall t :: t in r <==> t in g.nodes && t !in rest && g.nodes[t].kind == kind
      decreases rest
    {
      var t :| t in rest;
      if g.nodes[t].kind == kind {
        r := r + {t};
      }
      rest := rest - {t};
    }
  }

  /**
   * `getRootsFromOptionsWithPredicate`: the targets named on the command line if
   * there are any, otherwise every target of the project that the predicate accepts.
   */
  function GetRootsFromOptionsWithPredicate(project: TargetGraph, arguments: set<Id>, p: NodePredicate)
    : (roots: set<Id>)
    ensures arguments != {} ==> roots == arguments
    ensures arguments == {} ==> forall t :: t in roots <==> t in project.nodes && Accepts(p, t, project.nodes[t])
  {
    if arguments != {} then arguments else FilterTargetsFromGraph(project, p)
  }

  /** With explicit arguments the predicate plays no part in root selection. */
  lemma ArgumentsOverridePredicate(project: TargetGraph, arguments: set<Id>, p: NodePredicate, q: NodePredicate)
    requires arguments != {}
    ensures GetRootsFromOptionsWithPredicate(project, arguments, p)
         == GetRootsFromOptionsWithPredicate(project, arguments, q)
  {
  }

  // ---------------------------------------------------------------------------
  // The associated target graph resolver
  // ---------------------------------------------------------------------------

  /** A candidate is kept when its rule is found in the candidate graph and is associated with the reference. */
  predicate IsKept(t: Id, candidateGraph: TargetGraph, reference: TargetGraph, a: AssociatedRulePredicate)
    ensures IsKept(t, candidateGraph, reference, a) <==>
      t in candidateGraph.nodes && IsMatch(a, Rule(t, candidateGraph.nodes[t].payload), reference)
  {
    var rule := FindBuildRuleByTarget(candidateGraph, t);
    rule.Some? && IsMatch(a, rule.value, reference)
  }

  /** The candidates of `candidates` that are kept. */
  function KeptCandidates(candidates: set<Id>, candidateGraph: TargetGraph, reference: TargetGraph,
                          a: AssociatedRulePredicate): (kept: set<Id>)
    ensures kept <= candidates && kept <= candidateGraph.Targets()
    ensures forall t :: t in kept <==>
      && t in candidates && t in candidateGraph.nodes
      && IsMatch(a, Rule(t, candidateGraph.nodes[t].payload), reference)
  {
    set t | t in candidates && IsKept(t, candidateGraph, reference, a)
  }

  /**
   * The roots getAssociatedTargetGraph accumulates: the additional roots and every
   * kept candidate. Fails when the candidate graph cannot be built.
   */
  function AssociatedRoots(u: Universe, reference: TargetGraph, additionalRoots: set<Id>, full: TargetGraph,
                           p: NodePredicate, a: AssociatedRulePredicate): (r: Result<set<Id>, GraphError>)
    ensures r.Ok? <==> BuildGraph(u, FilterTargetsFromGraph(full, p)).Ok?
    ensures r.Err? ==> r.error == BuildGraph(u, FilterTargetsFromGraph(full, p)).error
    ensures r.Ok? ==> forall t :: t in r.value <==>
      || t in additionalRoots
      || (&& t in full.nodes && Accepts(p, t, full.nodes[t])
          && t in u && IsMatch(a, Rule(t, u[t].payload), reference))
  {
    var candidates := FilterTargetsFromGraph(full, p);
    var candidateGraph :- BuildGraph(u, candidates);
    Ok(additionalRoots + KeptCandidates(candidates, candidateGraph, reference, a))
  }

  /**
   * `getAssociatedTargetGraph` as a function: the graph of the accumulated roots.
   * It contains the whole graph of the additional roots and every kept candidate,
   * and is closed under dependencies.
   */
  function AssociatedTargetGraph(u: Universe, reference: TargetGraph, additionalRoots: set<Id>, full: TargetGraph,
                                 p: NodePredicate, a: AssociatedRulePredicate): (r: Result<TargetGraph, GraphError>)
    ensures r.Ok? <==>
      && AssociatedRoots(u, reference, additionalRoots, full, p, a).Ok?
      && BuildGraph(u, AssociatedRoots(u, reference, additionalRoots, full, p, a).value).Ok?
    ensures r.Ok? ==>
      && r.value.Targets() == Close(u, AssociatedRoots(u, reference, additionalRoots, full, p, a).value)
      && r.value.Closed()
      && AssociatedRoots(u, reference, additionalRoots, full, p, a).value <= r.value.Targets()
    ensures r.Ok? ==> additionalRoots <= r.value.Targets() && Close(u, additionalRoots) <= r.value.Targets()
  {
    var roots :- AssociatedRoots(u, reference, additionalRoots, full, p, a);
    CloseIsMonotonic(u, additionalRoots, roots);
    BuildGraph(u, roots)
  }

  /** The resolver as the source runs it: a loop over the candidates accumulating roots. */
  method GetAssociatedTargetGraph(u: Universe, reference: TargetGraph, additionalRoots: set<Id>, full: TargetGraph,
                                  p: NodePredicate, a: AssociatedRulePredicate)
    returns (r: Result<TargetGraph, GraphError>)
    ensures r == AssociatedTargetGraph(u, reference, additionalRoots, full, p, a)
  {
    var candidateTargets := FilterTargetsFromGraph(full, p);
    var candidateGraph :- BuildGraph(u, candidateTargets);
    var roots := additionalRoots;
    var rest := candidateTargets;
    while rest != {}
      invariant rest <= candidateTargets
      invariant roots == additionalRoots + KeptCandidates(candidateTargets - rest, candidateGraph, reference, a)
      decreases rest
    {
      var t :| t in rest;
      ghost var done := candidateTargets - rest;
      var rule := FindBuildRuleByTarget(candidateGraph, t);
      if rule.Some? {
        var matched := Match(a, rule.value, reference);
        if matched {
          roots := roots + {rule.value.target};
        }
      }
      rest := rest - {t};
      assert candidateTargets - rest == done + {t};
    }
    assert candidateTargets - rest == candidateTargets;
    r := BuildGraph(u, roots);
  }

  /** With no candidate accepted by the predicate the result is the graph of the additional roots alone. */
  lemma NoCandidatesGivesAdditionalRootsGraph(u: Universe, reference: TargetGraph, additionalRoots: set<Id>,
                                              full: TargetGraph, p: NodePredicate, a: AssociatedRulePredicate)
    requires forall t :: t in full.nodes ==> !Accepts(p, t, full.nodes[t])
    ensures AssociatedTargetGraph(u, reference, additionalRoots, full, p, a) == BuildGraph(u, additionalRoots)
  {
    var candidates := FilterTargetsFromGraph(full, p);
    assert candidates == {};
    CloseOfNothing(u);
    var roots := AssociatedRoots(u, reference, additionalRoots, full, p, a);
    assert roots.Ok?;
    assert roots.value == additionalRoots;
  }

  // ---------------------------------------------------------------------------
  // The three-stage assembly
  // ---------------------------------------------------------------------------

  datatype Ide = IntelliJ | Xcode

  /** The options createTargetGraphs reads. */
  datatype Options = Options(
    ide: Ide,
    arguments: set<Id>,
    withTests: bool,
    workspaceAndProjects: bool,
    defaultExcludePaths: seq<string>)

  /** The predicate that selects the main graph's roots when no target is named. */
  function ProjectRootsPredicate(o: Options): (p: NodePredicate)
    ensures o.ide == IntelliJ ==> forall t, n :: Accepts(p, t, n) <==> n.kind == ProjectConfigType
    ensures o.ide == Xcode ==> forall t, n :: Accepts(p, t, n) <==>
      && n.kind == XcodeRootType(o.workspaceAndProjects)
      && (t in o.arguments || !IsUnderExcludedPath(t, o.defaultExcludePaths))
  {
    match o.ide
    case IntelliJ => OfType(ProjectConfigType)
    case Xcode => XcodeRoots(o.workspaceAndProjects, o.defaultExcludePaths, o.arguments)
  }

  /** The predicate that selects the project graph's candidates. */
  function ProjectPredicate(o: Options): (p: NodePredicate)
    ensures o.ide == IntelliJ ==> forall t, n :: Accepts(p, t, n) <==> n.kind == ProjectConfigType
    ensures o.ide == Xcode ==> forall t, n :: Accepts(p, t, n) <==> n.kind == XcodeProjectConfigType
  {
    match o.ide
    case IntelliJ => OfType(ProjectConfigType)
    case Xcode => OfType(XcodeProjectConfigType)
  }

  /** The association that decides which project configs join the project graph. */
  function AssociatedProjectPredicate(o: Options): (a: AssociatedRulePredicate)
    ensures o.ide == IntelliJ ==> forall rule, g :: IsMatch(a, rule, g) <==>
      rule.payload.ProjectConfig? && rule.payload.projectRule.Some? && rule.payload.projectRule.value in g.nodes
    ensures o.ide == Xcode ==> forall rule, g :: IsMatch(a, rule, g) <==>
      rule.payload.XcodeProjectConfig? && AnyInGraph(rule.payload.rules, g)
  {
    match o.ide
    case IntelliJ => IntellijProjectConfig
    case Xcode => XcodeProjectConfigRules
  }

  datatype TargetGraphs = TargetGraphs(mainGraph: TargetGraph, testGraph: Option<TargetGraph>, projectGraph: TargetGraph)

  /** The full graph builds iff no declared target depends on an undeclared one. */
  lemma FullGraphBuildsIffUniverseClosed(u: Universe)
    ensures BuildGraph(u, u.Keys).Ok? <==> ClosedIn(u, u.Keys)
  {
    CloseContainsRoots(u, u.Keys);
    CloseIsClosed(u, u.Keys);
    if ClosedIn(u, u.Keys) {
      CloseIsLeast(u, u.Keys, u.Keys);
    }
  }

  /**
   * The graph of every target of the project: it builds iff no declared target
   * depends on an undeclared one, and then it holds every declared target.
   */
  function FullGraph(u: Universe): (r: Result<TargetGraph, GraphError>)
    ensures r.Ok? <==> ClosedIn(u, u.Keys)
    ensures r.Ok? ==> r.value.nodes == u
  {
    FullGraphBuildsIffUniverseClosed(u);
    var r := BuildGraph(u, u.Keys);
    assert r.Ok? ==> r.value.nodes.Keys == u.Keys;
    r
  }

  /** In a universe without undeclared dependencies every set of declared roots builds. */
  lemma DeclaredRootsBuild(u: Universe, roots: set<Id>)
    requires ClosedIn(u, u.Keys)
    ensures roots <= u.Keys ==> BuildGraph(u, roots).Ok?
  {
    if roots <= u.Keys {
      CloseIsLeast(u, roots, u.Keys);
    }
  }

  /** In a universe without undeclared dependencies the resolver fails only on undeclared additional roots. */
  lemma AssociatedGraphBuilds(u: Universe, reference: TargetGraph, additionalRoots: set<Id>, full: TargetGraph,
                              p: NodePredicate, a: AssociatedRulePredicate)
    requires ClosedIn(u, u.Keys) && full.Targets() <= u.Keys
    ensures additionalRoots <= u.Keys ==> AssociatedTargetGraph(u, reference, additionalRoots, full, p, a).Ok?
  {
    if additionalRoots <= u.Keys {
      DeclaredRootsBuild(u, FilterTargetsFromGraph(full, p));
      var roots := AssociatedRoots(u, reference, additionalRoots, full, p, a).value;
      assert roots <= u.Keys;
      DeclaredRootsBuild(u, roots);
    }
  }

  /** The roots of the main graph: the named targets, or else the targets the root predicate accepts. */
  function MainRoots(full: TargetGraph, o: Options): (roots: set<Id>)
    ensures o.arguments != {} ==> roots == o.arguments
    ensures o.arguments == {} ==> forall t :: t in roots <==> t in full.nodes && Accepts(ProjectRootsPredicate(o), t, full.nodes[t])
  {
    GetRootsFromOptionsWithPredicate(full, o.arguments, ProjectRootsPredicate(o))
  }

  /**
   * In the assembly the explicit-target override of the Xcode root predicate has no
   * effect: named targets bypass the predicate, and without names nothing is passed in.
   */
  lemma XcodeOverrideNeverChangesMainRoots(full: TargetGraph, o: Options)
    requires o.ide == Xcode
    ensures MainRoots(full, o)
         == GetRootsFromOptionsWithPredicate(full, o.arguments, XcodeRoots(o.workspaceAndProjects, o.defaultExcludePaths, {}))
  {
  }

  /** The optional test stage: tests associated with the main graph, plus the main roots. */
  function TestGraph(u: Universe, full: TargetGraph, mainGraph: TargetGraph, mainRoots: set<Id>, withTests: bool)
    : (r: Result<Option<TargetGraph>, GraphError>)
    ensures !withTests ==> r == Ok(None)
    ensures withTests ==>
      && (r.Ok? <==> AssociatedTargetGraph(u, mainGraph, mainRoots, full, IsTestRuleNode, TestsOfSourceUnderTest).Ok?)
      && (r.Ok? ==>
            && r.value.Some?
            && AssociatedTargetGraph(u, mainGraph, mainRoots, full, IsTestRuleNode, TestsOfSourceUnderTest)
               == Ok(r.value.value)
            && Close(u, mainRoots) <= r.value.value.Targets())
  {
    if withTests then
      var g :- AssociatedTargetGraph(u, mainGraph, mainRoots, full, IsTestRuleNode, TestsOfSourceUnderTest);
      Ok(Some(g))
    else Ok(None)
  }

  /**
   * `createTargetGraphs`: the main graph, then the optional test graph, then the
   * project graph, each stage stopping the whole assembly on a graph error.
   */
  function CreateTargetGraphs(u: Universe, o: Options): (r: Result<TargetGraphs, GraphError>)
    ensures FullGraph(u).Err? ==> r == Err(FullGraph(u).error)
    ensures FullGraph(u).Ok? ==> (r.Ok? <==> o.arguments <= u.Keys)
    ensures r.Ok? ==> r.value.testGraph.Some? == o.withTests
    ensures r.Ok? ==> BuildGraph(u, MainRoots(FullGraph(u).value, o)) == Ok(r.value.mainGraph)
    ensures r.Ok? && o.withTests ==>
      AssociatedTargetGraph(u, r.value.mainGraph, MainRoots(FullGraph(u).value, o), FullGraph(u).value,
                            IsTestRuleNode, TestsOfSourceUnderTest) == Ok(r.value.testGraph.value)
    ensures r.Ok? ==>
      && r.value.mainGraph.Closed()
      && r.value.projectGraph.Closed()
      && (r.value.testGraph.Some? ==> r.value.testGraph.value.Closed())
    ensures r.Ok? && r.value.testGraph.Some? ==>
      r.value.mainGraph.Targets() <= r.value.testGraph.value.Targets()
    ensures r.Ok? ==>
      AssociatedTargetGraph(u, r.value.testGraph.Or(r.value.mainGraph), {}, FullGraph(u).value,
                            ProjectPredicate(o), AssociatedProjectPredicate(o)) == Ok(r.value.projectGraph)
  {
    var full :- FullGraph(u);
    var mainRoots := MainRoots(full, o);
    DeclaredRootsBuild(u, mainRoots);
    var mainGraph :- BuildGraph(u, mainRoots);
    // Once the full graph and the main graph build, every later root is declared,
    // so the test and project stages cannot fail in this model.
    AssociatedGraphBuilds(u, mainGraph, mainRoots, full, IsTestRuleNode, TestsOfSourceUnderTest);
    var testGraph := TestGraph(u, full, mainGraph, mainRoots, o.withTests).value;
    AssociatedGraphBuilds(u, testGraph.Or(mainGraph), {}, full, ProjectPredicate(o), AssociatedProjectPredicate(o));
    var projectGraph := AssociatedTargetGraph(u, testGraph.Or(mainGraph), {}, full,
                                              ProjectPredicate(o), AssociatedProjectPredicate(o)).value;
    Ok(TargetGraphs(mainGraph, testGraph, projectGraph))
  }

  /** A test-typed target whose source under test meets the main graph is in the assembled test graph. */
  lemma TestCoveringMainGraphIsInTestGraph(u: Universe, o: Options, t: Id)
    ensures && CreateTargetGraphs(u, o).Ok? && o.withTests
            && t in u && u[t].kind.IsTestRule() && u[t].payload.Test?
            && AnyInGraph(u[t].payload.sourceUnderTest, CreateTargetGraphs(u, o).value.mainGraph)
            ==> t in CreateTargetGraphs(u, o).value.testGraph.value.Targets()
  {
    if && CreateTargetGraphs(u, o).Ok? && o.withTests
       && t in u && u[t].kind.IsTestRule() && u[t].payload.Test?
       && AnyInGraph(u[t].payload.sourceUnderTest, CreateTargetGraphs(u, o).value.mainGraph)
    {
      var r := CreateTargetGraphs(u, o).value;
      var full := FullGraph(u).value;
      var mainRoots := MainRoots(full, o);
      var roots := AssociatedRoots(u, r.mainGraph, mainRoots, full, IsTestRuleNode, TestsOfSourceUnderTest);
      assert Accepts(IsTestRuleNode, t, full.nodes[t]);
      assert IsMatch(TestsOfSourceUnderTest, Rule(t, u[t].payload), r.mainGraph);
      assert t in roots.value;
    }
  }

  /** Every target of the main graph is in the test graph: the test stage keeps the main roots. */
  lemma MainGraphIncludedInTestGraph(u: Universe, o: Options)
    requires CreateTargetGraphs(u, o).Ok? && o.withTests
    ensures CreateTargetGraphs(u, o).value.mainGraph.Targets()
         <= CreateTargetGraphs(u, o).value.testGraph.value.Targets()
  {
  }

  /**
   * A test whose source under test meets the main graph is in the test graph; a
   * target becomes a root of the test graph only as a main root or as such a test.
   */
  lemma TestGraphRoots(u: Universe, full: TargetGraph, mainGraph: TargetGraph, mainRoots: set<Id>, t: Id)
    requires AssociatedRoots(u, mainGraph, mainRoots, full, IsTestRuleNode, TestsOfSourceUnderTest).Ok?
    ensures t in AssociatedRoots(u, mainGraph, mainRoots, full, IsTestRuleNode, TestsOfSourceUnderTest).value
      <==> || t in mainRoots
           || (&& t in full.nodes && full.nodes[t].kind.IsTestRule()
               && t in u && u[t].payload.Test? && AnyInGraph(u[t].payload.sourceUnderTest, mainGraph))
  {
  }

  /** In IntelliJ mode a project config becomes a root of the project graph iff its project rule is in the reference. */
  lemma IntellijProjectRoots(u: Universe, reference: TargetGraph, o: Options, t: Id)
    requires o.ide == IntelliJ && FullGraph(u).Ok?
    requires AssociatedRoots(u, reference, {}, FullGraph(u).value, ProjectPredicate(o), AssociatedProjectPredicate(o)).Ok?
    ensures t in AssociatedRoots(u, reference, {}, FullGraph(u).value, ProjectPredicate(o), AssociatedProjectPredicate(o)).value
      <==> && t in u && u[t].kind == ProjectConfigType
           && u[t].payload.ProjectConfig? && u[t].payload.projectRule.Some?
           && u[t].payload.projectRule.value in reference.nodes
  {
  }

  /** In Xcode mode a project config becomes a root of the project graph iff it includes a rule of the reference. */
  lemma XcodeProjectRoots(u: Universe, reference: TargetGraph, o: Options, t: Id)
    requires o.ide == Xcode && FullGraph(u).Ok?
    requires AssociatedRoots(u, reference, {}, FullGraph(u).value, ProjectPredicate(o), AssociatedProjectPredicate(o)).Ok?
    ensures t in AssociatedRoots(u, reference, {}, FullGraph(u).value, ProjectPredicate(o), AssociatedProjectPredicate(o)).value
      <==> && t in u && u[t].kind == XcodeProjectConfigType
           && u[t].payload.XcodeProjectConfig? && AnyInGraph(u[t].payload.rules, reference)
  {
  }

  /**
   * The project stage passes no additional roots, so the project graph need not
   * contain the main graph: one library named on the command line, no project config.
   */
  lemma ProjectGraphNeedNotContainMainGraph()
    ensures exists u: Universe, o: Options ::
      && CreateTargetGraphs(u, o).Ok?
      && !(CreateTargetGraphs(u, o).value.mainGraph.Targets() <= CreateTargetGraphs(u, o).value.projectGraph.Targets())
  {
    var lib := "//app:lib";
    var u: Universe := map[lib := Node(OtherType("java_library", false), {}, Other)];
    var o := Options(IntelliJ, {lib}, false, false, []);
    assert DepsOf(u, {lib}) == {};
    assert DepsOf(u, u.Keys) == {};
    var full := FullGraph(u);
    assert full.Ok?;
    NoCandidatesGivesAdditionalRootsGraph(u, BuildGraph(u, {lib}).value, {}, full.value,
                                          ProjectPredicate(o), AssociatedProjectPredicate(o));
    CloseOfNothing(u);
    var r := CreateTargetGraphs(u, o);
    assert r.Ok?;
    assert lib in r.value.mainGraph.Targets();
    assert r.value.projectGraph.Targets() == {};
  }

  // ---------------------------------------------------------------------------
  // The answer to a yes/no prompt
  // ---------------------------------------------------------------------------

  /** Lower-cases an ASCII letter; every other character is left as it is. */
  function ToLowerChar(c: char): char {
    if 'A' <= c <= 'Z' then (c as int - 'A' as int + 'a' as int) as char else c
  }

  function ToLower(s: string): (r: string)
    ensures |r| == |s| && forall i :: 0 <= i < |s| ==> r[i] == ToLowerChar(s[i])
  {
    seq(|s|, i requires 0 <= i < |s| => ToLowerChar(s[i]))
  }

  /**
   * The rule `prompt` applies to the line read: yes iff a line was read and it is
   * empty or, lower-cased, starts with "y".
   */
  function IsYesAnswer(line: Option<string>): (yes: bool)
    ensures yes <==> line.Some? && (line.value == [] || line.value[0] == 'y' || line.value[0] == 'Y')
  {
    line.Some? && (line.value == [] || "y" <= ToLower(line.value))
  }
}

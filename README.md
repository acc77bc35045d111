# Target-graph resolution of `buck project`

This project models how `buck project` (the command that generates IntelliJ and
Xcode projects) works out which build targets go into the generated projects. It
covers `ProjectCommand.java` and proves properties of the model.

- **Target universe** (`TargetUniverse.dfy`). Every declared target maps from its
  fully-qualified name to a node. A node has a rule type, a set of dependency names
  and a small payload: project config, Xcode project config, test, Xcode workspace
  config, or other. The parser's `buildTargetGraphForBuildTargets` becomes
  `BuildGraph`. It returns the transitive closure of the roots under "depends on",
  or a `MissingTargets` error when the closure reaches a name that nothing declares.
  Realizing a graph into rules and `findBuildRuleByTarget` become a lookup
  (`FindBuildRuleByTarget`) that returns `None` where Java returns null. The closure
  `Close` is a fixpoint iteration. It is proved to contain its roots, to be closed
  under dependencies, to be the least such set, and to be monotone.
- **Predicates** (`ProjectPredicates.dfy`). Each predicate object built in
  `createTargetGraphs` becomes one variant of a closed datatype. `Accepts` says what
  a node predicate decides and `IsMatch` says what an associated-rule predicate
  decides. The node predicates are the type filters, the test-rule filter and the
  Xcode root predicate with excluded paths. The associated-rule predicates are the
  IntelliJ project config, the Xcode project config and tests by source under test.
  The source evaluates these with loops and early returns. Those loops are methods,
  each proved to decide exactly its stated condition.
- **Resolver and assembly** (`ProjectCommand.dfy`). It contains root selection
  (`GetRootsFromOptionsWithPredicate`, `GetAllTargetsOfType`,
  `FilterTargetsFromGraph`) and the associated-graph resolver. The resolver appears
  twice: as the function `AssociatedTargetGraph` and as the loop
  `GetAssociatedTargetGraph`, proved equal to it. The file also holds the
  straight-line three-stage assembly `CreateTargetGraphs` (main graph, then an
  optional test graph, then the project graph) and the yes/no answer rule of
  `prompt`.

Main results:

- Every graph the assembly produces is closed under dependencies.
- The main graph is contained in the test graph, because the test stage passes the
  main roots as additional roots.
- A candidate becomes an extra root exactly when all three hold:
  - the membership predicate accepts it;
  - its rule is found;
  - it is associated with the reference graph.
- With no accepted candidate, the result is the graph of the additional roots alone.
- A target named explicitly overrides the Xcode excluded paths. This holds for the
  predicate, but in `createTargetGraphs` the override never takes effect: named
  targets are the roots without consulting the predicate (`ProjectCommand.java:459-462`),
  and with no names nothing is passed in. `XcodeOverrideNeverChangesMainRoots`
  states this.

The project graph need not contain the main graph or the test graph, because the
project stage passes no additional roots (`ProjectCommand.java:634`);
`ProjectGraphNeedNotContainMainGraph` exhibits such a universe.

## Model

| member | source | states |
|---|---|---|
| TargetUniverse.BuildGraph | src/com/facebook/buck/cli/ProjectCommand.java:694-700 | building the graph of a root set succeeds iff every name the closure reaches is declared; the graph then holds exactly the closure, contains every root, is closed under dependencies and carries the declared nodes unchanged; otherwise the error lists exactly the undeclared names reached |
| TargetUniverse.CloseContainsRoots | src/com/facebook/buck/cli/ProjectCommand.java:694-700 | the closure of a root set contains every root |
| TargetUniverse.CloseIsClosed | src/com/facebook/buck/cli/ProjectCommand.java:694-700 | the closure of a root set is closed under the declared dependencies |
| TargetUniverse.CloseIsLeast | src/com/facebook/buck/cli/ProjectCommand.java:694-700 | the closure is contained in every dependency-closed superset of the roots |
| TargetUniverse.CloseIsMonotonic | src/com/facebook/buck/cli/ProjectCommand.java:681-682 | more roots give a closure at least as large |
| TargetUniverse.CloseOfNothing | src/com/facebook/buck/cli/ProjectCommand.java:694-700 | the closure of no roots is empty |
| TargetUniverse.BuildGraphIsLeast | src/com/facebook/buck/cli/ProjectCommand.java:694-700 | no dependency-closed superset of the roots is smaller than their graph |
| TargetUniverse.BuildGraphIsMonotonic | src/com/facebook/buck/cli/ProjectCommand.java:681-682 | when a larger root set builds, a smaller one builds too, into a graph that is no larger |
| TargetUniverse.FindBuildRuleByTarget | src/com/facebook/buck/cli/ProjectCommand.java:688 | a rule is found iff the target is in the graph, and the rule found carries that target and its payload |
| ProjectPredicates.ApplyXcodeRoots | src/com/facebook/buck/cli/ProjectCommand.java:510-532 | accepts iff the node has the filter type (workspace config when workspace-and-projects is set, else project config) and either the target was passed in or no excluded path written after "//" is a prefix of its name |
| ProjectPredicates.ExplicitTargetOverridesExclusion | src/com/facebook/buck/cli/ProjectCommand.java:521-523 | a passed-in target of the filter type is accepted whatever the excluded paths are |
| ProjectPredicates.ExcludedTargetIsRejected | src/com/facebook/buck/cli/ProjectCommand.java:521-529 | a target under an excluded path that was not passed in is rejected |
| ProjectPredicates.MatchIntellijProjectConfig | src/com/facebook/buck/cli/ProjectCommand.java:489-503 | matches iff the rule is a project config, its project rule is present, and that rule's target is in the reference graph |
| ProjectPredicates.AnyFoundInGraph | src/com/facebook/buck/cli/ProjectCommand.java:551-557 | the loop with early return answers true iff some listed target is in the graph |
| ProjectPredicates.MatchXcodeProjectConfig | src/com/facebook/buck/cli/ProjectCommand.java:540-559 | matches iff the rule is an Xcode project config with at least one included rule in the reference graph |
| ProjectPredicates.MatchTest | src/com/facebook/buck/cli/ProjectCommand.java:601-616 | false for a non-test rule, otherwise true iff some source-under-test target is in the reference graph |
| ProjectPredicates.Match | src/com/facebook/buck/cli/ProjectCommand.java:689 | dispatching `isMatch` on the predicate variant decides exactly `IsMatch` |
| ProjectPredicates.IsMatchIsMonotonic | src/com/facebook/buck/cli/ProjectCommand.java:632-633 | an association that holds against a reference graph still holds against any larger one, such as the test graph in place of the main graph |
| ProjectCommand.FilterTargetsFromGraph | src/com/facebook/buck/cli/ProjectCommand.java:646-654 | exactly the graph's targets whose nodes pass the predicate |
| ProjectCommand.GetAllTargetsOfType | src/com/facebook/buck/cli/ProjectCommand.java:443-453 | the loop returns exactly the targets of the nodes whose type equals the given type |
| ProjectCommand.GetRootsFromOptionsWithPredicate | src/com/facebook/buck/cli/ProjectCommand.java:455-471 | with explicit arguments exactly those targets; without, exactly the project's targets the predicate accepts |
| ProjectCommand.ArgumentsOverridePredicate | src/com/facebook/buck/cli/ProjectCommand.java:459-462 | with explicit arguments the predicate does not affect the roots |
| ProjectCommand.AssociatedRoots | src/com/facebook/buck/cli/ProjectCommand.java:672-692 | fails exactly when the candidate graph fails, with its error; otherwise a target is an accumulated root iff it is an additional root or it passes the predicate over the full graph and its declared rule is associated with the reference graph |
| ProjectCommand.AssociatedTargetGraph | src/com/facebook/buck/cli/ProjectCommand.java:664-701 | succeeds iff the candidate graph and the graph of the accumulated roots both build; the result is the closure of the accumulated roots, closed under dependencies, containing every root, in particular every additional root and its whole closure |
| ProjectCommand.GetAssociatedTargetGraph | src/com/facebook/buck/cli/ProjectCommand.java:664-701 | the loop over the candidates returns exactly the resolver's result, error included |
| ProjectCommand.NoCandidatesGivesAdditionalRootsGraph | src/com/facebook/buck/cli/ProjectCommand.java:672-700 | when the predicate accepts no node of the full graph, the result is the graph of the additional roots alone |
| ProjectCommand.CreateTargetGraphs | src/com/facebook/buck/cli/ProjectCommand.java:566-643 | a failing full graph fails the assembly with its error; once the full graph builds, the assembly succeeds iff every named target is declared; on success a test graph exists iff tests were requested; the main graph is the graph of the selected roots; the test graph is the associated graph of the main graph with the main roots as additional roots, test-rule candidates and the source-under-test association; every graph is closed; the main graph is contained in the test graph; the project graph is the associated graph of the test graph (or the main graph) with no additional roots |
| ProjectCommand.MainGraphIncludedInTestGraph | src/com/facebook/buck/cli/ProjectCommand.java:619-626 | every target of the main graph is in the test graph |
| ProjectCommand.TestGraphRoots | src/com/facebook/buck/cli/ProjectCommand.java:594-626 | a target is a root of the test graph iff it is a main root or a test-typed target whose test rule has a source under test in the main graph |
| ProjectCommand.IntellijProjectRoots | src/com/facebook/buck/cli/ProjectCommand.java:632-638 | in IntelliJ mode a target is a root of the project graph iff it is a project config whose project rule is in the reference graph |
| ProjectCommand.XcodeProjectRoots | src/com/facebook/buck/cli/ProjectCommand.java:632-638 | in Xcode mode a target is a root of the project graph iff it is an Xcode project config with an included rule in the reference graph |
| ProjectCommand.ProjectGraphNeedNotContainMainGraph | src/com/facebook/buck/cli/ProjectCommand.java:632-638 | there are a universe and options for which the assembly succeeds and the main graph is not contained in the project graph |
| ProjectPredicates.Accepts | src/com/facebook/buck/cli/ProjectCommand.java:480-599 | what each node predicate decides (type filters, the test-rule filter, the Xcode root predicate with excluded paths and passed-in targets); it is the specification `ApplyXcodeRoots`, `FilterTargetsFromGraph` and the lemmas refer to, with no contract of its own |
| ProjectPredicates.IsMatch | src/com/facebook/buck/cli/ProjectCommand.java:489-616 | what each associated-rule predicate decides against a reference graph; it is the specification `Match` and its helpers are proved against, with no contract of its own |
| ProjectCommand.IsKept | src/com/facebook/buck/cli/ProjectCommand.java:687-692 | a candidate is kept iff it is in the candidate graph and its rule is associated with the reference graph; a missing rule is never kept |
| ProjectCommand.KeptCandidates | src/com/facebook/buck/cli/ProjectCommand.java:687-692 | the kept candidates are exactly the candidates present in the candidate graph whose rules are associated with the reference graph |
| ProjectCommand.ProjectRootsPredicate | src/com/facebook/buck/cli/ProjectCommand.java:480-532 | in IntelliJ mode the main-root predicate accepts exactly project configs; in Xcode mode exactly nodes of the workspace-or-project filter type that were named or lie under no excluded path |
| ProjectCommand.ProjectPredicate | src/com/facebook/buck/cli/ProjectCommand.java:480-559 | the project-candidate predicate accepts exactly project configs (IntelliJ) or Xcode project configs (Xcode) |
| ProjectCommand.AssociatedProjectPredicate | src/com/facebook/buck/cli/ProjectCommand.java:480-559 | in IntelliJ mode a rule is associated iff it is a project config whose project rule is in the reference graph; in Xcode mode iff it is an Xcode project config with an included rule in the reference graph |
| ProjectCommand.FullGraphBuildsIffUniverseClosed | src/com/facebook/buck/cli/ProjectCommand.java:566-575 | the graph of every declared target builds iff no declared target depends on an undeclared one |
| ProjectCommand.FullGraph | src/com/facebook/buck/cli/ProjectCommand.java:566-575 | the full graph builds iff no declared target depends on an undeclared one, and then it holds exactly the declared targets and nodes |
| ProjectCommand.DeclaredRootsBuild | src/com/facebook/buck/cli/ProjectCommand.java:579-587 | in a universe without undeclared dependencies, a graph of declared roots always builds |
| ProjectCommand.AssociatedGraphBuilds | src/com/facebook/buck/cli/ProjectCommand.java:664-701 | in a universe without undeclared dependencies, the resolver succeeds whenever its additional roots are declared |
| ProjectCommand.MainRoots | src/com/facebook/buck/cli/ProjectCommand.java:577-581 | the main roots are the named targets if any; otherwise exactly the full graph's targets the root predicate accepts |
| ProjectCommand.XcodeOverrideNeverChangesMainRoots | src/com/facebook/buck/cli/ProjectCommand.java:455-471 | in Xcode mode the main roots are the same as with an empty passed-in set, so the explicit-target override of the root predicate never changes them |
| ProjectCommand.TestGraph | src/com/facebook/buck/cli/ProjectCommand.java:589-627 | without tests there is no test graph; with tests the stage succeeds iff the associated graph of the main graph (main roots as additional roots, test-rule candidates, source-under-test association) builds, yields that graph, and contains the closure of the main roots |
| ProjectCommand.TestCoveringMainGraphIsInTestGraph | src/com/facebook/buck/cli/ProjectCommand.java:594-626 | a declared test whose source under test meets the main graph is in the assembled test graph |
| ProjectCommand.ToLower | src/com/facebook/buck/cli/ProjectCommand.java:440 | helper for the prompt rule: lower-cases each character, keeping the length |
| ProjectCommand.IsYesAnswer | src/com/facebook/buck/cli/ProjectCommand.java:439-440 | the answer is yes iff a line was read and it is empty or starts with "y" or "Y" |

## Left out

- Ignore paths: the full graph is modelled as the graph of every declared target. The parser's ignore-path filtering (`ProjectCommand.java:566-575`) is part of the parser, which is not part of this model.
- The parser, build-file parsing and realization into an action graph are abstracted. Building a graph is the closure function. Realization is the identity on payloads. A failed realization can then never drop a candidate, and the "rule not found" branch of the resolver never fires, although it is modelled.
- Argument parsing: `getBuildTargets` turns command-line strings into build targets. Here the arguments are already target names.
- The event bus, console, profiling flags and logging are left out, because they do not affect the graphs.
- `runIntellijProjectGenerator`, `runXcodeProjectGenerator` and `getAnnotationProcessingTargets` (`ProjectCommand.java:150-385`) are left out. They drive temporary files, console output, a nested build command and external project generators, which are foreign back ends. This includes the `xcode_workspace_config` check on explicit workspace targets.
- `ANNOTATION_PREDICATE` is left out, because it inspects a Java library payload that is not part of this model.
- `checkForAndKillXcodeIfRunning`, `canPrompt` and the stdin reading in `prompt` are left out as process management and console I/O. Only the answer rule is modelled.
- Rule types are a closed datatype, and equality is structural rather than by object identity. The string names of `BuildRuleType` are not part of this model.
- ImmutableSet iteration order is not modelled. All results are sets, so order does not affect them.
- ToLower: lower-cases ASCII letters only, whereas Java's `toLowerCase(Locale.US)` maps all of Unicode. For a line starting with "y" the two agree, since only "Y" lower-cases to "y".
- `OcamlToolchainFactory.java` is a configuration builder with no graph logic and is not part of this model.

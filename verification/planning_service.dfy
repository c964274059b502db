/**
 * The planning service: which refactoring a file gets, the file operations
 * each action plans, the confidence and priority of the plan, the order of
 * the plans it returns, and the per-action summary of a list of plans.
 *
 * Plan identifiers come from a random UUID in the source; here they are
 * passed in, one per file.
 */
module PlanningService {
  import opened Wrappers
  import opened Text
  import opened Paths
  import opened ComplexityValue
  import opened TestFileEntity
  import opened RefactorPlanEntity

  // ---------------------------------------------------------------------
  // Rules
  // ---------------------------------------------------------------------

  /** `_determine_action`: categories, then test cases, then mocks, then the refactoring decision. */
  function DetermineAction(categoryCount: nat, testCount: nat, mockCount: nat, needed: bool): (a: RefactorAction)
    ensures a == SplitByCategory <==> categoryCount > 6
    ensures a == SplitByConcern <==> categoryCount <= 6 && (testCount > 20 || (mockCount <= 5 && needed))
    ensures a == ExtractShared <==> categoryCount <= 6 && testCount <= 20 && mockCount > 5
    ensures a == KeepAsIs <==> categoryCount <= 6 && testCount <= 20 && mockCount <= 5 && !needed
    ensures a != Consolidate
  {
    if categoryCount > 6 then SplitByCategory
    else if testCount > 20 then SplitByConcern
    else if mockCount > 5 then ExtractShared
    else if !needed then KeepAsIs
    else SplitByConcern
  }

  /** `_calculate_confidence`: 0.9, 0.85 or 0.8 for the three clear cases, in that order, else 0.5. */
  function PlanConfidence(action: RefactorAction, categoryCount: nat, mockCount: nat, c: Option<Complexity>): (conf: real)
    ensures conf == 0.9 || conf == 0.85 || conf == 0.8 || conf == 0.5
    ensures conf == 0.9 <==> action == SplitByCategory && categoryCount > 8
    ensures conf == 0.85 <==> action == ExtractShared && mockCount > 7
    ensures conf == 0.8 <==> !(action == SplitByCategory && categoryCount > 8)
                             && !(action == ExtractShared && mockCount > 7)
                             && c.Some? && c.value.score > 70
  {
    if action == SplitByCategory && categoryCount > 8 then 0.9
    else if action == ExtractShared && mockCount > 7 then 0.85
    else if c.Some? && c.value.score > 70 then 0.8
    else 0.5
  }

  /** `_calculate_priority`: 5 for a score above 80, 4 for a long file or many categories, else 3. */
  function PlanPriority(c: Option<Complexity>, totalLines: int, categoryCount: nat): (p: int)
    ensures 3 <= p <= 5
    ensures p == 5 <==> c.Some? && c.value.score > 80
    ensures p == 3 <==> !(c.Some? && c.value.score > 80) && totalLines <= 500 && categoryCount <= 10
  {
    if c.Some? && c.value.score > 80 then 5
    else if totalLines > 500 then 4
    else if categoryCount > 10 then 4
    else 3
  }

  /** `_generate_description` */
  function Description(action: RefactorAction, name: string, categoryCount: nat, mockCount: nat): string {
    match action
    case SplitByCategory => "Split " + name + " into " + NatToString(categoryCount) + " category-based files"
    case SplitByConcern => "Split " + name + " into separate test concerns"
    case ExtractShared => "Extract " + NatToString(mockCount) + " mock utilities from " + name
    case KeepAsIs => "Keep " + name + " as-is (well-organized)"
    case Consolidate => "Refactor test file"
  }

  // ---------------------------------------------------------------------
  // Planned operations
  // ---------------------------------------------------------------------

  /** The operation creating the file of one category beside the source. */
  function CategoryOperation(source: Path, category: string): FileOperation {
    FileOperation("create", Some(source),
                  Child(Parent(source), BaseName(source) + "." + Slug(category) + ".spec.ts"),
                  None, "Category: " + category)
  }

  /** The operations for the categories, in order. */
  function CategoryOperations(source: Path, categories: seq<string>): (ops: seq<FileOperation>)
    ensures |ops| == |categories|
  {
    if categories == [] then []
    else CategoryOperations(source, categories[..|categories| - 1])
         + [CategoryOperation(source, categories[|categories| - 1])]
  }

  /** The `i`-th operation is the one for the `i`-th category. */
  lemma {:induction false} CategoryOperationsAt(source: Path, categories: seq<string>, i: nat)
    requires i < |categories|
    ensures CategoryOperations(source, categories)[i] == CategoryOperation(source, categories[i])
    decreases |categories|
  {
    if i < |categories| - 1 {
      CategoryOperationsAt(source, categories[..|categories| - 1], i);
    }
  }

  /**
   * One `create` per category, in order, each named after its category; a
   * category without '/' gives a file in the source's directory.
   */
  lemma CategoryOperationsShape(source: Path, categories: seq<string>, i: nat)
    requires i < |categories|
    ensures var op := CategoryOperations(source, categories)[i];
      op.action == "create" && op.sourcePath == Some(source)
      && op.targetPath == Child(Parent(source), BaseName(source) + "." + Slug(categories[i]) + ".spec.ts")
      && op.reason == "Category: " + categories[i]
    ensures var op := CategoryOperations(source, categories)[i];
      '/' !in categories[i] ==>
        Parent(op.targetPath) == Parent(source)
        && Name(op.targetPath) == BaseName(source) + "." + Slug(categories[i]) + ".spec.ts"
  {
    CategoryOperationsAt(source, categories, i);
    if '/' !in categories[i] {
      BaseNamePlain(source);
      SlugKeepsSlashesAndDots(categories[i]);
      ChildInverse(Parent(source), BaseName(source) + "." + Slug(categories[i]) + ".spec.ts");
    }
  }

  /**
   * A category "a/b" (a nested describe named like "GET /users") makes
   * `pathlib` read two components: the file lands in a new directory named
   * by the base name and the slug of `a`, not in the source's directory.
   */
  lemma CategoryWithSlash(source: Path, categories: seq<string>, i: nat, a: string, b: string)
    requires i < |categories| && categories[i] == a + "/" + b
    requires a != [] && '/' !in a && '/' !in b
    ensures var op := CategoryOperations(source, categories)[i];
      Parent(op.targetPath) == Child(Parent(source), BaseName(source) + "." + Slug(a))
      && Parent(op.targetPath) != Parent(source)
      && Name(op.targetPath) == Slug(b) + ".spec.ts"
  {
    CategoryOperationsAt(source, categories, i);
    SlashedCategoryTarget(source, a, b);
  }

  /** The target of the operation for a category "a/b". */
  lemma SlashedCategoryTarget(source: Path, a: string, b: string)
    requires a != [] && '/' !in a && '/' !in b
    ensures var t := CategoryOperation(source, a + "/" + b).targetPath;
      Parent(t) == Child(Parent(source), BaseName(source) + "." + Slug(a))
      && Parent(t) != Parent(source)
      && Name(t) == Slug(b) + ".spec.ts"
  {
    SlugOfSlashed(a, b);
    var first := BaseName(source) + "." + Slug(a);
    var second := Slug(b) + ".spec.ts";
    SlashedCategoryName(BaseName(source), Slug(a), Slug(b));
    SlashedCategoryParts(source, a, b);
    ChildOfSlashed(Parent(source), first, second);
    ChildInverse(Parent(source), first);
  }

  /** The file name of a category "a/b" regrouped around its '/'. */
  lemma SlashedCategoryName(base: string, sa: string, sb: string)
    ensures base + "." + (sa + "/" + sb) + ".spec.ts" == (base + "." + sa) + "/" + (sb + ".spec.ts")
  {
  }

  /** Both halves of the file name of a category "a/b" are single components. */
  lemma SlashedCategoryParts(source: Path, a: string, b: string)
    requires a != [] && '/' !in a && '/' !in b
    ensures IsComponent(BaseName(source) + "." + Slug(a)) && IsComponent(Slug(b) + ".spec.ts")
  {
    BaseNamePlain(source);
    SlugKeepsSlashesAndDots(a);
    SlugKeepsSlashesAndDots(b);
  }

  /** The slugs of the two halves of "GET /users". */
  lemma GetUsersSlugs(a: string, b: string)
    requires a == "GET " && b == "users"
    ensures Slug(a) == "get-" && Slug(b) == b
  {
    SlugAt(a);
    SlugAt(b);
  }

  /**
   * The nested describe "GET /users" of a file `x.spec.ts` gives the target
   * `x.get-/users.spec.ts`: file "users.spec.ts" in a directory "x.get-".
   */
  lemma GetUsersCategory(source: Path, a: string, b: string)
    requires a == "GET " && b == "users"
    ensures var t := CategoryOperation(source, a + "/" + b).targetPath;
      Parent(t) == Child(Parent(source), BaseName(source) + "." + "get-") && Name(t) == b + ".spec.ts"
  {
    SlashedCategoryTarget(source, a, b);
    GetUsersSlugs(a, b);
  }

  /** How many parts a split by concern makes: a tenth of the tests, at least 2 and at most 3. */
  function ConcernParts(testCount: nat): (n: nat)
    ensures 2 <= n <= 3
    ensures n == 3 <==> testCount >= 30
  {
    var tenth := testCount / 10;
    var atLeastTwo := if tenth > 2 then tenth else 2;
    if atLeastTwo < 3 then atLeastTwo else 3
  }

  /** The operation creating part `i + 1` beside the source. */
  function ConcernOperation(source: Path, i: nat): FileOperation {
    FileOperation("create", Some(source),
                  Child(Parent(source), BaseName(source) + ".part" + NatToString(i + 1) + ".spec.ts"),
                  None, "Split part " + NatToString(i + 1))
  }

  /** The operations for parts 1 to `n`, in order. */
  function ConcernOperations(source: Path, n: nat): (ops: seq<FileOperation>)
    ensures |ops| == n
  {
    if n == 0 then [] else ConcernOperations(source, n - 1) + [ConcernOperation(source, n - 1)]
  }

  /** The `i`-th operation is the one for part `i + 1`. */
  lemma {:induction false} ConcernOperationsAt(source: Path, n: nat, i: nat)
    requires i < n
    ensures ConcernOperations(source, n)[i] == ConcernOperation(source, i)
  {
    if i < n - 1 {
      ConcernOperationsAt(source, n - 1, i);
    }
  }

  /** Each part is a `create` beside the source, numbered from 1. */
  lemma ConcernOperationsShape(source: Path, n: nat, i: nat)
    requires i < n
    ensures var op := ConcernOperations(source, n)[i];
      op.action == "create" && op.sourcePath == Some(source)
      && Parent(op.targetPath) == Parent(source)
      && Name(op.targetPath) == BaseName(source) + ".part" + NatToString(i + 1) + ".spec.ts"
  {
    ConcernOperationsAt(source, n, i);
    BaseNamePlain(source);
    ChildInverse(Parent(source), BaseName(source) + ".part" + NatToString(i + 1) + ".spec.ts");
  }

  /** `_plan_extract_shared`'s two operations: create the utilities file, then modify the source. */
  function SharedOperations(source: Path): (ops: seq<FileOperation>)
    ensures |ops| == 2
    ensures ops[0].action == "create" && ops[0].sourcePath == None
    ensures Parent(ops[0].targetPath) == Parent(source) && Name(ops[0].targetPath) == "test-utils.ts"
    ensures ops[1].action == "modify" && ops[1].sourcePath == Some(source) && ops[1].targetPath == source
  {
    assert IsComponent("test-utils.ts");
    ChildInverse(Parent(source), "test-utils.ts");
    [FileOperation("create", None, Child(Parent(source), "test-utils.ts"), None,
                   "Extract shared mock data and utilities"),
     FileOperation("modify", Some(source), source, None, "Update imports to use extracted utilities")]
  }

  /** The operations `_create_plan_for_file` adds for an action. */
  function OperationsFor(action: RefactorAction, source: Path, categories: seq<string>, testCount: nat): seq<FileOperation> {
    match action
    case SplitByCategory => CategoryOperations(source, categories)
    case SplitByConcern => ConcernOperations(source, ConcernParts(testCount))
    case ExtractShared => SharedOperations(source)
    case _ => []
  }

  /**
   * Every action `_determine_action` can choose, other than keeping the
   * file, plans at least one operation: split by category only fires with
   * more than six categories.
   */
  lemma OnlyKeepPlansNothing(categories: seq<string>, testCount: nat, mockCount: nat, needed: bool, source: Path)
    ensures var action := DetermineAction(|categories|, testCount, mockCount, needed);
      OperationsFor(action, source, categories, testCount) == [] <==> action == KeepAsIs
  {
    var action := DetermineAction(|categories|, testCount, mockCount, needed);
    if action == SplitByCategory {
      assert |CategoryOperations(source, categories)| > 6;
    }
  }

  /** The test's split by concern: 25 tests give 2 parts, 30 or more give 3. */
  lemma ConcernPartsExamples()
    ensures ConcernParts(25) == 2 && ConcernParts(0) == 2 && ConcernParts(35) == 3 && ConcernParts(300) == 3
  {
  }

  // ---------------------------------------------------------------------
  // Building one plan
  // ---------------------------------------------------------------------

  /** The plan `_create_plan_for_file` builds before readying it. */
  function DraftState(id: string, source: Path, totalLines: int, categories: seq<string>,
                      testCount: nat, mockCount: nat, c: Complexity): PlanState
  {
    var needed := RefactoringNeeded(c, totalLines, |categories|);
    var action := DetermineAction(|categories|, testCount, mockCount, needed);
    PlanState("plan_" + id, source, action,
              ReasonText(needed, totalLines, |categories|, testCount, Some(c)),
              Description(action, Name(source), |categories|, mockCount),
              OperationsFor(action, source, categories, testCount),
              map[],
              PlanConfidence(action, |categories|, mockCount, Some(c)),
              PlanPriority(Some(c), totalLines, |categories|),
              Draft, None, false, None, [], [], [])
  }

  /** The state `_create_plan_for_file` leaves a plan in: the draft, readied when it has operations. */
  function PlannedState(id: string, source: Path, totalLines: int, categories: seq<string>,
                        testCount: nat, mockCount: nat, c: Complexity): PlanState
  {
    var draft := DraftState(id, source, totalLines, categories, testCount, mockCount, c);
    draft.(estimatedImpact := if draft.operations == [] then map[] else Impact(draft.operations),
           status := if draft.operations == [] then Draft else Ready)
  }

  /** A plan made for a file that needs refactoring is ready, with confidence and priority in range. */
  lemma PlannedStateIsReady(id: string, source: Path, totalLines: int, categories: seq<string>,
                            testCount: nat, mockCount: nat, c: Complexity)
    requires RefactoringNeeded(c, totalLines, |categories|)
    ensures var s := PlannedState(id, source, totalLines, categories, testCount, mockCount, c);
      s.status == Ready && s.operations != [] && s.action != KeepAsIs
      && 0.5 <= s.confidence <= 0.9 && 3 <= s.priority <= 5
      && s.estimatedImpact["total_operations"] == |s.operations|
  {
    OnlyKeepPlansNothing(categories, testCount, mockCount, true, source);
  }

  /** What a plan is made from: its identifier, and the file's structure and complexity. */
  datatype FileFacts = FileFacts(id: string, structure: FileStructure, complexity: Complexity)

  /** The facts of `tf` as it stands, under identifier `id`. */
  function FactsOf(tf: TestFile, id: string): FileFacts
    reads tf
  {
    FileFacts(id, tf.Structure(), tf.EffectiveComplexity())
  }

  /** The plan made from a file's facts. */
  function PlanFromFacts(f: FileFacts): PlanState {
    var (path, totalLines, _, mockData, categories, testCases, _) := f.structure;
    PlannedState(f.id, path, totalLines, categories, |testCases|, |mockData|, f.complexity)
  }

  /** The plan made from `tf` as it stands, under identifier `id`. */
  function PlannedStateOf(tf: TestFile, id: string): PlanState
    reads tf
  {
    PlanFromFacts(FactsOf(tf, id))
  }

  /** `_plan_split_by_category`: one operation per category appended to the plan. */
  method PlanSplitByCategory(plan: RefactorPlan, tf: TestFile)
    modifies plan
    ensures plan.State() == old(plan.State()).(operations := old(plan.operations) + CategoryOperations(tf.path, tf.categories))
  {
    var categories := tf.categories;
    for i := 0 to |categories|
      invariant plan.State() == old(plan.State()).(operations := old(plan.operations) + CategoryOperations(tf.path, categories[..i]))
    {
      plan.AddOperation(CategoryOperation(tf.path, categories[i]));
      assert categories[..i + 1][..i] == categories[..i];
    }
    assert categories[..|categories|] == categories;
  }

  /** `_plan_split_by_concern`: two or three numbered parts appended to the plan. */
  method PlanSplitByConcern(plan: RefactorPlan, tf: TestFile)
    modifies plan
    ensures plan.State() == old(plan.State()).(operations := old(plan.operations)
                                                + ConcernOperations(tf.path, ConcernParts(|tf.testCases|)))
  {
    var numFiles := ConcernParts(|tf.testCases|);
    for i := 0 to numFiles
      invariant plan.State() == old(plan.State()).(operations := old(plan.operations) + ConcernOperations(tf.path, i))
    {
      plan.AddOperation(ConcernOperation(tf.path, i));
    }
  }

  /** `_plan_extract_shared`: the two operations appended to the plan. */
  method PlanExtractShared(plan: RefactorPlan, tf: TestFile)
    modifies plan
    ensures plan.State() == old(plan.State()).(operations := old(plan.operations) + SharedOperations(tf.path))
  {
    var ops := SharedOperations(tf.path);
    plan.AddOperation(ops[0]);
    plan.AddOperation(ops[1]);
    assert old(plan.operations) + ops == old(plan.operations) + [ops[0]] + [ops[1]];
  }

  /** The dispatch in `_create_plan_for_file`: the operations of the chosen action, none for the others. */
  method AddOperationsFor(plan: RefactorPlan, tf: TestFile, action: RefactorAction)
    modifies plan
    ensures plan.State() == old(plan.State()).(operations := old(plan.operations)
                                                + OperationsFor(action, tf.path, tf.categories, |tf.testCases|))
  {
    if action == SplitByCategory {
      PlanSplitByCategory(plan, tf);
    } else if action == SplitByConcern {
      PlanSplitByConcern(plan, tf);
    } else if action == ExtractShared {
      PlanExtractShared(plan, tf);
    } else {
      assert OperationsFor(action, tf.path, tf.categories, |tf.testCases|) == [];
      assert old(plan.operations) + [] == old(plan.operations);
    }
  }

  /** `_determine_action`, which asks the file for its refactoring decision only when the first three rules fail. */
  method DetermineActionFor(tf: TestFile) returns (action: RefactorAction)
    modifies tf
    ensures action == DetermineAction(|tf.categories|, |tf.testCases|, |tf.mockData|, old(tf.Needed()))
    ensures tf.Structure() == old(tf.Structure()) && tf.EffectiveComplexity() == old(tf.EffectiveComplexity())
    ensures old(tf.complexity).Some? ==> unchanged(tf)
  {
    if |tf.categories| > 6 {
      action := SplitByCategory;
    } else if |tf.testCases| > 20 {
      action := SplitByConcern;
    } else if |tf.mockData| > 5 {
      action := ExtractShared;
    } else {
      var needed := tf.NeedsRefactoring();
      action := if !needed then KeepAsIs else SplitByConcern;
    }
  }

  /** `_create_plan_for_file` up to readying: the draft plan with its operations, confidence and priority. */
  method DraftPlanForFile(tf: TestFile, id: string) returns (plan: RefactorPlan)
    modifies tf
    ensures fresh(plan)
    ensures tf.Structure() == old(tf.Structure()) && tf.complexity == Some(old(tf.EffectiveComplexity()))
    ensures old(tf.complexity).Some? ==> unchanged(tf)
    ensures plan.State() == DraftState(id, tf.path, tf.totalLines, tf.categories, |tf.testCases|,
                                       |tf.mockData|, tf.complexity.value)
  {
    var action, reason := DecideFor(tf);
    plan := NewDraft(tf, id, action, reason);
  }

  /** The file's part of `_create_plan_for_file`: the action chosen and the reason given, complexity stored. */
  method DecideFor(tf: TestFile) returns (action: RefactorAction, reason: string)
    modifies tf
    ensures tf.Structure() == old(tf.Structure()) && tf.complexity == Some(old(tf.EffectiveComplexity()))
    ensures old(tf.complexity).Some? ==> unchanged(tf)
    ensures var needed := RefactoringNeeded(tf.complexity.value, tf.totalLines, |tf.categories|);
      action == DetermineAction(|tf.categories|, |tf.testCases|, |tf.mockData|, needed)
      && reason == ReasonText(needed, tf.totalLines, |tf.categories|, |tf.testCases|, tf.complexity)
  {
    action := DetermineActionFor(tf);
    reason := tf.GetRefactoringReason();
  }

  /** The plan's part of `_create_plan_for_file`: a new plan with the operations, confidence and priority of `action`. */
  method NewDraft(tf: TestFile, id: string, action: RefactorAction, reason: string) returns (plan: RefactorPlan)
    requires tf.complexity.Some?
    requires var needed := RefactoringNeeded(tf.complexity.value, tf.totalLines, |tf.categories|);
      action == DetermineAction(|tf.categories|, |tf.testCases|, |tf.mockData|, needed)
      && reason == ReasonText(needed, tf.totalLines, |tf.categories|, |tf.testCases|, tf.complexity)
    ensures fresh(plan)
    ensures plan.State() == DraftState(id, tf.path, tf.totalLines, tf.categories, |tf.testCases|,
                                       |tf.mockData|, tf.complexity.value)
  {
    var description := Description(action, Name(tf.path), |tf.categories|, |tf.mockData|);
    plan := new RefactorPlan("plan_" + id, tf.path, action, reason, description);
    AddOperationsFor(plan, tf, action);
    plan.confidence := PlanConfidence(action, |tf.categories|, |tf.mockData|, tf.complexity);
    plan.priority := PlanPriority(tf.complexity, tf.totalLines, |tf.categories|);
  }

  /**
   * `_create_plan_for_file`: the plan in the state `PlannedState` gives.
   * Readying fails exactly for a file that is kept as it is, because that
   * plan has no operations.
   */
  method CreatePlanForFile(tf: TestFile, id: string) returns (plan: RefactorPlan, r: Result<(), string>)
    modifies tf
    ensures fresh(plan)
    ensures plan.State() == old(PlannedStateOf(tf, id))
    ensures r.Ok? <==> plan.action != KeepAsIs
    ensures old(tf.Needed()) ==> r.Ok? && plan.status == Ready
    ensures tf.Structure() == old(tf.Structure()) && tf.complexity == Some(old(tf.EffectiveComplexity()))
    ensures old(tf.complexity).Some? ==> unchanged(tf)
  {
    plan := DraftPlanForFile(tf, id);
    r := ReadyDraft(plan, id, tf.path, tf.totalLines, tf.categories, |tf.testCases|, |tf.mockData|, tf.complexity.value);
  }

  /** `plan.mark_ready()` on a fresh draft: it becomes the planned state, and fails only for a plan that keeps the file. */
  method ReadyDraft(plan: RefactorPlan, id: string, source: Path, totalLines: int, categories: seq<string>,
                    testCount: nat, mockCount: nat, c: Complexity) returns (r: Result<(), string>)
    requires plan.State() == DraftState(id, source, totalLines, categories, testCount, mockCount, c)
    modifies plan
    ensures plan.State() == PlannedState(id, source, totalLines, categories, testCount, mockCount, c)
    ensures r.Ok? <==> plan.action != KeepAsIs
    ensures RefactoringNeeded(c, totalLines, |categories|) ==> r.Ok? && plan.status == Ready
  {
    if RefactoringNeeded(c, totalLines, |categories|) {
      PlannedStateIsReady(id, source, totalLines, categories, testCount, mockCount, c);
    }
    OnlyKeepPlansNothing(categories, testCount, mockCount, RefactoringNeeded(c, totalLines, |categories|), source);
    r := plan.MarkReady();
  }

  // ---------------------------------------------------------------------
  // Ordering the plans
  // ---------------------------------------------------------------------

  /** The plans of priority `k`, in order. */
  function WithPriority(ps: seq<RefactorPlan>, k: int): (r: seq<RefactorPlan>)
    reads set p | p in ps
    ensures |r| <= |ps|
  {
    if ps == [] then []
    else (if ps[0].priority == k then [ps[0]] else []) + WithPriority(ps[1..], k)
  }

  /** Highest priority first. */
  predicate SortedByPriority(ps: seq<RefactorPlan>)
    reads set p | p in ps
  {
    forall i, j :: 0 <= i < j < |ps| ==> ps[i].priority >= ps[j].priority
  }

  lemma {:induction false} WithPriorityAppend(a: seq<RefactorPlan>, b: seq<RefactorPlan>, k: int)
    ensures WithPriority(a + b, k) == WithPriority(a, k) + WithPriority(b, k)
    decreases |a|
  {
    if a == [] {
      assert a + b == b;
    } else {
      assert (a + b)[1..] == a[1..] + b;
      WithPriorityAppend(a[1..], b, k);
    }
  }

  lemma {:induction false} WithPriorityNone(ps: seq<RefactorPlan>, k: int)
    requires forall i :: 0 <= i < |ps| ==> ps[i].priority < k
    ensures WithPriority(ps, k) == []
    decreases |ps|
  {
    if ps != [] {
      WithPriorityNone(ps[1..], k);
    }
  }

  lemma WithPrioritySingle(p: RefactorPlan, k: int)
    ensures WithPriority([p], k) == if p.priority == k then [p] else []
  {
    assert [p][1..] == [];
  }

  lemma WithPriorityThree(front: seq<RefactorPlan>, p: RefactorPlan, back: seq<RefactorPlan>, k: int)
    ensures WithPriority(front + [p] + back, k) == WithPriority(front, k) + WithPriority([p], k) + WithPriority(back, k)
  {
    WithPriorityAppend(front + [p], back, k);
    WithPriorityAppend(front, [p], k);
  }

  /** Inserting `p` after every plan of lower priority than its own: its own priority gains `p` last. */
  lemma InsertSamePriority(result: seq<RefactorPlan>, j: nat, p: RefactorPlan, before: seq<RefactorPlan>, k: int)
    requires j <= |result| && p.priority == k
    requires forall m :: j <= m < |result| ==> result[m].priority < k
    requires WithPriority(result, k) == WithPriority(before, k)
    ensures WithPriority(result[..j] + [p] + result[j..], k) == WithPriority(before + [p], k)
  {
    var front, back := result[..j], result[j..];
    assert result == front + back;
    WithPriorityThree(front, p, back, k);
    WithPriorityAppend(front, back, k);
    WithPriorityAppend(before, [p], k);
    WithPrioritySingle(p, k);
    WithPriorityNone(back, k);
  }

  /** Inserting `p` anywhere leaves the plans of every other priority as they were. */
  lemma InsertOtherPriority(result: seq<RefactorPlan>, j: nat, p: RefactorPlan, before: seq<RefactorPlan>, k: int)
    requires j <= |result| && p.priority != k
    requires WithPriority(result, k) == WithPriority(before, k)
    ensures WithPriority(result[..j] + [p] + result[j..], k) == WithPriority(before + [p], k)
  {
    var front, back := result[..j], result[j..];
    assert result == front + back;
    WithPriorityThree(front, p, back, k);
    WithPriorityAppend(front, back, k);
    WithPriorityAppend(before, [p], k);
    WithPrioritySingle(p, k);
  }

  /** Inserting `p` between the plans of its priority or above and those below keeps the order. */
  lemma InsertKeepsSorted(sorted: seq<RefactorPlan>, j: nat, p: RefactorPlan)
    requires j <= |sorted| && SortedByPriority(sorted)
    requires j == 0 || sorted[j - 1].priority >= p.priority
    requires forall m :: j <= m < |sorted| ==> sorted[m].priority < p.priority
    ensures SortedByPriority(sorted[..j] + [p] + sorted[j..])
  {
    var r := sorted[..j] + [p] + sorted[j..];
    forall a, b | 0 <= a < b < |r|
      ensures r[a].priority >= r[b].priority
    {
      if b < j {
        assert r[a] == sorted[a] && r[b] == sorted[b];
      } else if a < j && b == j {
        assert r[a] == sorted[a] && sorted[a].priority >= sorted[j - 1].priority;
      } else if a < j {
        assert r[a] == sorted[a] && r[b] == sorted[b - 1];
      } else if a == j {
        assert r[b] == sorted[b - 1];
      } else {
        assert r[a] == sorted[a - 1] && r[b] == sorted[b - 1];
      }
    }
  }

  /** One insertion step keeps every invariant of the sort. */
  lemma InsertStep(sorted: seq<RefactorPlan>, j: nat, p: RefactorPlan, before: seq<RefactorPlan>)
    requires j <= |sorted| && SortedByPriority(sorted)
    requires j == 0 || sorted[j - 1].priority >= p.priority
    requires forall m :: j <= m < |sorted| ==> sorted[m].priority < p.priority
    requires forall k :: WithPriority(sorted, k) == WithPriority(before, k)
    requires multiset(sorted) == multiset(before)
    ensures SortedByPriority(sorted[..j] + [p] + sorted[j..])
    ensures forall k :: WithPriority(sorted[..j] + [p] + sorted[j..], k) == WithPriority(before + [p], k)
    ensures multiset(sorted[..j] + [p] + sorted[j..]) == multiset(before + [p])
  {
    InsertKeepsSorted(sorted, j, p);
    forall k
      ensures WithPriority(sorted[..j] + [p] + sorted[j..], k) == WithPriority(before + [p], k)
    {
      if k == p.priority {
        InsertSamePriority(sorted, j, p, before, k);
      } else {
        InsertOtherPriority(sorted, j, p, before, k);
      }
    }
    assert sorted == sorted[..j] + sorted[j..];
  }

  /**
   * `plans.sort(key=priority, reverse=True)`: highest priority first, and
   * plans of equal priority in their original order (the sort is stable).
   */
  method SortByPriority(plans: seq<RefactorPlan>) returns (sorted: seq<RefactorPlan>)
    ensures SortedByPriority(sorted)
    ensures forall k :: WithPriority(sorted, k) == WithPriority(plans, k)
    ensures multiset(sorted) == multiset(plans)
  {
    sorted := [];
    for i := 0 to |plans|
      invariant SortedByPriority(sorted)
      invariant forall k :: WithPriority(sorted, k) == WithPriority(plans[..i], k)
      invariant multiset(sorted) == multiset(plans[..i])
    {
      var p := plans[i];
      var j := |sorted|;
      while j > 0 && sorted[j - 1].priority < p.priority
        invariant 0 <= j <= |sorted|
        invariant forall m :: j <= m < |sorted| ==> sorted[m].priority < p.priority
      {
        j := j - 1;
      }
      InsertStep(sorted, j, p, plans[..i]);
      assert plans[..i + 1] == plans[..i] + [p];
      sorted := sorted[..j] + [p] + sorted[j..];
    }
    assert plans[..|plans|] == plans;
  }

  // ---------------------------------------------------------------------
  // Which files get a plan
  // ---------------------------------------------------------------------

  /** The refactoring decision drawn from a file's facts. */
  predicate PlanNeeded(f: FileFacts) {
    NeededFrom(f.structure, f.complexity)
  }

  /** `make` applied to the elements that `keep` accepts, in order. */
  function Chosen<T, U>(xs: seq<T>, keep: T -> bool, make: T -> U): seq<U> {
    if xs == [] then []
    else
      var last := xs[|xs| - 1];
      Chosen(xs[..|xs| - 1], keep, make) + (if keep(last) then [make(last)] else [])
  }

  /** The positions of the elements that `keep` accepts, in order. */
  function Positions<T>(xs: seq<T>, keep: T -> bool): seq<nat> {
    if xs == [] then []
    else Positions(xs[..|xs| - 1], keep) + (if keep(xs[|xs| - 1]) then [|xs| - 1] else [])
  }

  lemma {:induction false} PositionsSpec<T>(xs: seq<T>, keep: T -> bool)
    ensures var ks := Positions(xs, keep);
      (forall m, n :: 0 <= m < n < |ks| ==> ks[m] < ks[n])
      && (forall m :: 0 <= m < |ks| ==> ks[m] < |xs|)
      && (forall j :: 0 <= j < |xs| ==> (j in ks <==> keep(xs[j])))
    decreases |xs|
  {
    if xs != [] {
      var init := xs[..|xs| - 1];
      PositionsSpec(init, keep);
      assert forall j :: 0 <= j < |init| ==> init[j] == xs[j];
    }
  }

  lemma {:induction false} ChosenSpec<T, U>(xs: seq<T>, keep: T -> bool, make: T -> U)
    ensures |Chosen(xs, keep, make)| == |Positions(xs, keep)|
    ensures forall m :: 0 <= m < |Positions(xs, keep)| ==>
              Positions(xs, keep)[m] < |xs| && Chosen(xs, keep, make)[m] == make(xs[Positions(xs, keep)[m]])
    decreases |xs|
  {
    if xs != [] {
      var init := xs[..|xs| - 1];
      ChosenSpec(init, keep, make);
      assert forall j :: 0 <= j < |init| ==> init[j] == xs[j];
    }
  }

  /** The plans `generate_plans` makes before sorting: one per file that needs refactoring, in file order. */
  function ExpectedPlans(facts: seq<FileFacts>): seq<PlanState> {
    Chosen(facts, PlanNeeded, PlanFromFacts)
  }

  /** The positions of the files that need refactoring, in order. */
  function NeededIndices(facts: seq<FileFacts>): seq<nat> {
    Positions(facts, PlanNeeded)
  }

  /** The positions are increasing, in range, and are exactly the files that need refactoring. */
  lemma NeededIndicesSpec(facts: seq<FileFacts>)
    ensures var ks := NeededIndices(facts);
      (forall m, n :: 0 <= m < n < |ks| ==> ks[m] < ks[n])
      && (forall m :: 0 <= m < |ks| ==> ks[m] < |facts|)
      && (forall j :: 0 <= j < |facts| ==> (j in ks <==> PlanNeeded(facts[j])))
  {
    PositionsSpec(facts, PlanNeeded);
  }

  /** The `m`-th plan is the one made from the `m`-th file that needs refactoring. */
  lemma ExpectedPlansSpec(facts: seq<FileFacts>)
    ensures |ExpectedPlans(facts)| == |NeededIndices(facts)|
    ensures forall m :: 0 <= m < |NeededIndices(facts)| ==>
              NeededIndices(facts)[m] < |facts| && ExpectedPlans(facts)[m] == PlanFromFacts(facts[NeededIndices(facts)[m]])
  {
    ChosenSpec(facts, PlanNeeded, PlanFromFacts);
  }

  /** Every plan made is ready, with operations, and its confidence and priority in range. */
  lemma {:induction false} ExpectedPlansReady(facts: seq<FileFacts>)
    ensures forall m :: 0 <= m < |ExpectedPlans(facts)| ==>
              var s := ExpectedPlans(facts)[m];
              s.status == Ready && s.operations != [] && s.action != KeepAsIs
              && 0.5 <= s.confidence <= 0.9 && 3 <= s.priority <= 5
    decreases |facts|
  {
    if facts != [] {
      var init := facts[..|facts| - 1];
      ExpectedPlansReady(init);
      var last := facts[|facts| - 1];
      assert ExpectedPlans(facts) == ExpectedPlans(init) + (if PlanNeeded(last) then [PlanFromFacts(last)] else []);
      if PlanNeeded(last) {
        var (path, totalLines, _, mockData, categories, testCases, _) := last.structure;
        PlannedStateIsReady(last.id, path, totalLines, categories, |testCases|, |mockData|, last.complexity);
      }
    }
  }

  /**
   * One turn of `generate_plans`' loop: ask the file whether it needs
   * refactoring and, if so, create its plan.
   */
  method PlanIfNeeded(f: TestFile, id: string) returns (plan: Option<RefactorPlan>)
    modifies f
    ensures plan.Some? <==> PlanNeeded(old(FactsOf(f, id)))
    ensures plan.Some? ==> fresh(plan.value) && plan.value.State() == PlanFromFacts(old(FactsOf(f, id)))
    ensures f.Structure() == old(f.Structure()) && f.complexity == Some(old(f.EffectiveComplexity()))
    ensures old(f.complexity).Some? ==> unchanged(f)
  {
    var needed := f.NeedsRefactoring();
    if needed {
      var p, _ := CreatePlanForFile(f, id);
      plan := Some(p);
    } else {
      plan := None;
    }
  }

  /**
   * `generate_plans` on a given list of files: the plans `ExpectedPlans`
   * gives for the files as they were, sorted highest priority first and
   * stable for ties. Each file is left with its complexity filled in.
   */
  method GeneratePlans(files: seq<TestFile>, ids: seq<string>)
    returns (plans: seq<RefactorPlan>, ghost created: seq<RefactorPlan>, ghost facts: seq<FileFacts>)
    requires |ids| == |files|
    modifies set f | f in files
    ensures SortedByPriority(plans) && multiset(plans) == multiset(created)
    ensures forall k :: WithPriority(plans, k) == WithPriority(created, k)
    ensures |facts| == |files| && forall j :: 0 <= j < |files| ==> facts[j] == old(FactsOf(files[j], ids[j]))
    ensures |created| == |ExpectedPlans(facts)|
    ensures forall m :: 0 <= m < |created| ==> fresh(created[m]) && created[m].State() == ExpectedPlans(facts)[m]
    ensures forall j :: 0 <= j < |files| ==>
              files[j].Structure() == old(files[j].Structure())
              && files[j].complexity == Some(old(files[j].EffectiveComplexity()))
  {
    var unsorted;
    unsorted, facts := CollectPlans(files, ids);
    created := unsorted;
    plans := SortByPriority(unsorted);
  }

  /** One more file: its plan, if it needs one, follows the plans of the files before it. */
  lemma ExpectedPlansStep(facts: seq<FileFacts>, i: nat)
    requires i < |facts|
    ensures ExpectedPlans(facts[..i + 1])
            == ExpectedPlans(facts[..i]) + (if PlanNeeded(facts[i]) then [PlanFromFacts(facts[i])] else [])
  {
    assert facts[..i + 1][..i] == facts[..i];
  }

  /** Every file still has the facts it started with, and the first `i` have their complexity stored. */
  predicate Settled(files: seq<TestFile>, ids: seq<string>, facts: seq<FileFacts>, i: nat)
    reads set f | f in files
  {
    |ids| == |files| && |facts| == |files| && i <= |files|
    && (forall j :: 0 <= j < |files| ==> FactsOf(files[j], ids[j]) == facts[j])
    && (forall j :: 0 <= j < i ==> files[j].complexity.Some?)
  }

  /** File `i` asked for its plan: one more file settled, and the plan made from its facts if it needs one. */
  method SettleFile(files: seq<TestFile>, ids: seq<string>, ghost facts: seq<FileFacts>, i: nat)
    returns (plan: Option<RefactorPlan>)
    requires i < |files| && Settled(files, ids, facts, i)
    modifies files[i]
    ensures Settled(files, ids, facts, i + 1)
    ensures plan.Some? <==> PlanNeeded(facts[i])
    ensures plan.Some? ==> fresh(plan.value) && plan.value.State() == PlanFromFacts(facts[i])
  {
    label Before:
    plan := PlanIfNeeded(files[i], ids[i]);
    forall j | 0 <= j <= i
      ensures files[j].complexity.Some?
    {
      if files[j] != files[i] {
        assert files[j].complexity == old@Before(files[j].complexity);
      }
    }
  }

  /**
   * The body of `generate_plans`' loop for file `i`: its plan, if it needs
   * one, appended to the plans made so far, and one more file settled.
   */
  method PlanFileAt(files: seq<TestFile>, ids: seq<string>, ghost facts: seq<FileFacts>, i: nat,
                    made: seq<RefactorPlan>) returns (made': seq<RefactorPlan>)
    requires i < |files| && Settled(files, ids, facts, i)
    requires States(made) == ExpectedPlans(facts[..i])
    modifies files[i]
    ensures Settled(files, ids, facts, i + 1)
    ensures forall p :: p in made' ==> p in made || fresh(p)
    ensures States(made') == ExpectedPlans(facts[..i + 1])
  {
    ghost var before := ExpectedPlans(facts[..i]);
    var plan := SettleFile(files, ids, facts, i);
    assert States(made) == before;
    ExpectedPlansStep(facts, i);
    if plan.Some? {
      StatesSnoc(made, plan.value);
      made' := made + [plan.value];
    } else {
      made' := made;
    }
  }

  /** The loop of `generate_plans`: a plan for each file that needs one, in file order. */
  method CollectPlans(files: seq<TestFile>, ids: seq<string>)
    returns (unsorted: seq<RefactorPlan>, ghost facts: seq<FileFacts>)
    requires |ids| == |files|
    modifies set f | f in files
    ensures |facts| == |files| && forall j :: 0 <= j < |files| ==> facts[j] == old(FactsOf(files[j], ids[j]))
    ensures |unsorted| == |ExpectedPlans(facts)|
    ensures forall m :: 0 <= m < |unsorted| ==> fresh(unsorted[m]) && unsorted[m].State() == ExpectedPlans(facts)[m]
    ensures forall j :: 0 <= j < |files| ==>
              files[j].Structure() == old(files[j].Structure())
              && files[j].complexity == Some(old(files[j].EffectiveComplexity()))
  {
    facts := seq(|files|, j reads files requires 0 <= j < |files| => FactsOf(files[j], ids[j]));
    unsorted := [];
    for i := 0 to |files|
      invariant Settled(files, ids, facts, i)
      invariant fresh(set p | p in unsorted)
      invariant States(unsorted) == ExpectedPlans(facts[..i])
    {
      unsorted := PlanFileAt(files, ids, facts, i, unsorted);
    }
    assert facts[..|files|] == facts;
  }

  // ---------------------------------------------------------------------
  // Summary
  // ---------------------------------------------------------------------

  datatype PlanSummary = PlanSummary(
    totalPlans: nat,
    splitByCategory: nat,
    splitByConcern: nat,
    extractShared: nat,
    keepAsIs: nat,
    avgConfidence: real)

  /** How many plans carry the action. */
  function CountPlans(ps: seq<RefactorPlan>, a: RefactorAction): (n: nat)
    reads set p | p in ps
    ensures n <= |ps|
  {
    if ps == [] then 0
    else CountPlans(ps[..|ps| - 1], a) + (if ps[|ps| - 1].action == a then 1 else 0)
  }

  /** The five action counts together are the number of plans. */
  lemma {:induction false} CountsPartition(ps: seq<RefactorPlan>)
    ensures CountPlans(ps, SplitByCategory) + CountPlans(ps, SplitByConcern) + CountPlans(ps, ExtractShared)
            + CountPlans(ps, KeepAsIs) + CountPlans(ps, Consolidate) == |ps|
    decreases |ps|
  {
    if ps != [] {
      CountsPartition(ps[..|ps| - 1]);
    }
  }

  function SumConfidence(ps: seq<RefactorPlan>): real
    reads set p | p in ps
  {
    if ps == [] then 0.0 else SumConfidence(ps[..|ps| - 1]) + ps[|ps| - 1].confidence
  }

  lemma {:induction false} SumConfidenceBounds(ps: seq<RefactorPlan>)
    requires forall i :: 0 <= i < |ps| ==> 0.0 <= ps[i].confidence <= 1.0
    ensures 0.0 <= SumConfidence(ps) <= |ps| as real
    decreases |ps|
  {
    if ps != [] {
      SumConfidenceBounds(ps[..|ps| - 1]);
    }
  }

  /** `avg_confidence`: the mean confidence, 0 for no plans. */
  function AverageConfidence(plans: seq<RefactorPlan>): real
    reads set p | p in plans
  {
    if plans == [] then 0.0 else SumConfidence(plans) / |plans| as real
  }

  /** The mean lies in [0, 1] when every confidence does. */
  lemma AverageConfidenceBounds(plans: seq<RefactorPlan>)
    requires forall i :: 0 <= i < |plans| ==> 0.0 <= plans[i].confidence <= 1.0
    ensures 0.0 <= AverageConfidence(plans) <= 1.0
  {
    SumConfidenceBounds(plans);
  }

  lemma CountPlansSnoc(plans: seq<RefactorPlan>, i: nat, a: RefactorAction)
    requires i < |plans|
    ensures CountPlans(plans[..i + 1], a) == CountPlans(plans[..i], a) + (if plans[i].action == a then 1 else 0)
  {
    assert plans[..i + 1][..i] == plans[..i];
  }

  /**
   * `generate_summary`: the number of plans, the count of each of the four
   * reported actions, and the mean confidence. The clock reading is left out.
   */
  method GenerateSummary(plans: seq<RefactorPlan>) returns (s: PlanSummary)
    ensures s.totalPlans == |plans|
    ensures s.splitByCategory == CountPlans(plans, SplitByCategory) && s.splitByConcern == CountPlans(plans, SplitByConcern)
    ensures s.extractShared == CountPlans(plans, ExtractShared) && s.keepAsIs == CountPlans(plans, KeepAsIs)
    ensures s.splitByCategory + s.splitByConcern + s.extractShared + s.keepAsIs <= s.totalPlans
    ensures s.avgConfidence == AverageConfidence(plans)
  {
    var counts: map<RefactorAction, nat> := map[];
    for i := 0 to |plans|
      invariant forall a :: CountPlans(plans[..i], a) == if a in counts then counts[a] else 0
    {
      var a := plans[i].action;
      forall b {
        CountPlansSnoc(plans, i, b);
      }
      counts := counts[a := (if a in counts then counts[a] else 0) + 1];
    }
    assert plans[..|plans|] == plans;
    CountsPartition(plans);
    s := PlanSummary(|plans|,
                     if SplitByCategory in counts then counts[SplitByCategory] else 0,
                     if SplitByConcern in counts then counts[SplitByConcern] else 0,
                     if ExtractShared in counts then counts[ExtractShared] else 0,
                     if KeepAsIs in counts then counts[KeepAsIs] else 0,
                     AverageConfidence(plans));
  }
}

# Test-file refactoring analyser, modelled in Dafny

This project models the core of a tool that reads TypeScript unit-test files
(`*.spec.ts`, `*.test.ts`), recovers their structure, scores them, and proposes
how to split or reorganise them. The model covers four layers.

- **Parsers** (`test_structure_parser.dfy`, `mock_parser.dfy`,
  `import_parser.dfy`, `typescript_parser.dfy`). A line cursor finds
  `describe` / `it` / hook blocks by brace balance, `const` mock declarations
  by bracket balance plus a `;`, and one-line `import ... from '...'`
  statements. The façade combines them into a parse result with cyclomatic
  complexity and nesting depth. The cursor loops are methods with loop
  invariants. They are proved in range, strictly advancing, ordered and
  non-overlapping, and each captured `content` is proved to be exactly its
  lines joined with newlines.
- **Value objects and entities** (`complexity.dfy`, `quality_score.dfy`,
  `test_file.dfy`, `refactor_plan.dfy`, `pattern.dfy`). The scores are step
  functions and clamped sums, proved to stay in 0..100 and to be monotone. The
  entities whose fields the source updates in place are classes: a test file
  caches its complexity, a plan moves through its statuses, and a pattern
  counts occurrences and keeps at most ten examples.
- **Services, analysers and the validator** (`planning_service.dfy`,
  `analysis_service.dfy`, `smell_detector.dfy`, `quality_analyzer.dfy`,
  `complexity_analyzer.dfy`, `plan_validator.dfy`). These cover:
  - the action, operations, confidence and priority of a plan;
  - the stable sort of plans by priority;
  - the line classification and aggregate statistics;
  - the six smell checks and the six quality tags;
  - the five ordered plan checks, the batch filter and the pairwise conflict report.
- **Generators and string utilities** (`import_optimizer.dfy`,
  `code_generator.dfy`, `file_structure_generator.dfy`, `string_utils.dfy`).
  These cover:
  - import grouping, sorting, pruning, merging and layout;
  - TypeScript scaffolding, read back line by line;
  - the planned file layouts;
  - case conversion, truncation, sanitising, indentation and wrapping.

Python's string primitives (`strip`, `split`, `join`, `in`, `count`,
`replace`, `lower`, `str(int)`) are defined in `text.dfy`. Python's string
order and stable `sorted` are in `string_order.dfy`, a small `pathlib` is in
`paths.dfy`, and `Option`/`Result` are in `wrappers.dfy`. Every regular
expression of the source is a fixed pattern. Each one is written out as a
matcher function that searches for the leftmost match and takes lazy groups
where the pattern has them.

Where the repository's own tests disagree with the code,
the model follows the code. A lemma states what the code does in each case:

- `test_typescript_parser.py:105-109` expects a `beforeEach` nested in a
  `describe` to be listed among the setup hooks. The façade lists top-level
  hooks only (`TypeScriptParser.SetupHooksAreTopLevelHooks`).
- `test_test_file.py:132-141` expects a 100-line file with one category and 25
  tests to be split by concern. Its complexity score is 12 and it has neither
  300 lines nor 6 categories, so the code keeps it as is
  (`TestFileEntity.RecommendationExamples`).
- `test_mock_parser.py:85-90` expects `{ findOne: jest.fn() }` to be a
  repository mock. The code tests for `jest.fn` first, so it is a function mock
  (`MockParser.RepositoryMockWithJestFnIsFunction`).
- A type import is recognised by a case-sensitive `type` in the import
  clause, so a name such as `DataType` does not make an import a type import.

## Model

| member | source | states |
|---|---|---|
| ComplexityValue.NewComplexity | src/domain/value_objects/complexity.py:26-28 | the constructor accepts exactly the scores in 0..100 and then holds the given fields |
| ComplexityValue.FromMetrics | src/domain/value_objects/complexity.py:31-98 | the score lies in 0..100, so the constructor never rejects it; the factor map has exactly the five keys and its values sum to the score |
| ComplexityValue.FactorsVanishBelowThresholds | src/domain/value_objects/complexity.py:37-88 | with every count at or below its lowest threshold the score is 0 and the level SIMPLE |
| ComplexityValue.FromMetricsMonotone | src/domain/value_objects/complexity.py:37-96 | raising any count never lowers the score nor the level |
| ComplexityValue.ComplexNeedsRefactoring | src/domain/value_objects/complexity.py:90-106 | a computed complexity is COMPLEX exactly when its score is 60 or more, and a complex one needs refactoring (score at least 50) |
| ComplexityValue.FromMetricsExamples | src/domain/value_objects/complexity.py:26-106 | the three sample files are SIMPLE, MEDIUM and COMPLEX with scores in the matching bands; 45 does not need refactoring and 65 does; a score of 150 is rejected |
| QualityValue.NewQualityScore | src/domain/value_objects/quality_score.py:25-27 | the constructor accepts exactly the scores in 0..100 |
| QualityValue.FromScore | src/domain/value_objects/quality_score.py:29-41 | accepted exactly for scores in 0..100, and the score is kept unchanged |
| QualityValue.QualityLevelMonotone | src/domain/value_objects/quality_score.py:32-39 | a higher score never has a lower level |
| QualityValue.Clamp | src/domain/value_objects/quality_score.py:73 | the result lies in 0..100 and equals the input when that is already in range |
| QualityValue.Calculate | src/domain/value_objects/quality_score.py:43-74 | always accepted, with a score in 0..100 whose level is the level of that score |
| QualityValue.CalculateAntitone | src/domain/value_objects/quality_score.py:50-71 | more smells or a higher cyclomatic complexity never raise the score |
| QualityValue.QualityExamples | src/domain/value_objects/quality_score.py:25-74 | 90, 70, 50 and 30 map to EXCELLENT, GOOD, FAIR and POOR; the good-metrics file scores at least 60 and the poor one below 60; 150 and -10 are rejected |
| TestFileEntity.Reasons | src/domain/entities/test_file.py:83-95 | at most four reasons, one per trigger |
| TestFileEntity.Recommendation | src/domain/entities/test_file.py:99-109 | the action is one of the four action names |
| TestFileEntity.ScoreOnlyReasonIsEmpty | src/domain/entities/test_file.py:67-97 | a file that needs refactoring only because its score lies in 50..59 gets the empty reason |
| TestFileEntity.LongFileReasonFirst | src/domain/entities/test_file.py:83-97 | a file over 300 lines has a reason starting with the line-count message |
| TestFileEntity.RecommendationOrder | src/domain/entities/test_file.py:99-109 | first match: keep exactly when not needed, split by category exactly when needed with more than 6 categories, split by concern exactly when needed with at most 6 categories and more than 20 tests |
| TestFileEntity.RecommendationExamples | src/domain/entities/test_file.py:67-109 | the unit tests' files: one category and two tests needs nothing; 500 lines, ten categories and thirty tests need refactoring; ten categories split by category; one category with twenty-five tests scores 12 and is kept as is |
| TestFileEntity.TestFile.constructor | src/domain/entities/test_file.py:16-35 | the structure fields are the given ones and neither complexity nor quality is set |
| TestFileEntity.TestFile.AssertionRatio | src/domain/entities/test_file.py:111-117 | 0 exactly when there are no test cases, 1 otherwise |
| TestFileEntity.TestFile.CalculateComplexity | src/domain/entities/test_file.py:40-49 | returns and stores the complexity from the line count and the four list lengths; nothing else changes |
| TestFileEntity.TestFile.CalculateQuality | src/domain/entities/test_file.py:51-65 | returns and stores the quality computed with structure = some category and setup = some hook; the score is in 0..100; nothing else changes |
| TestFileEntity.TestFile.NeedsRefactoring | src/domain/entities/test_file.py:67-76 | a stored complexity is kept, a missing one is computed and stored; the answer is score at least 50, or more than 300 lines, or more than 6 categories |
| TestFileEntity.TestFile.GetRefactoringReason | src/domain/entities/test_file.py:78-97 | fills in the complexity as above; the text is "No refactoring needed" when not needed, else the applicable reasons joined with "; " |
| TestFileEntity.TestFile.RecommendAction | src/domain/entities/test_file.py:99-109 | fills in the complexity as above; the action is the first-match recommendation |
| PatternEntity.BandMonotone | src/domain/entities/pattern.py:69-78 | a higher percentage never falls in a lower frequency band |
| PatternEntity.BandBoundsAreStrict | src/domain/entities/pattern.py:69-78 | exactly at 80, 60, 30 and 10 percent the lower band applies |
| PatternEntity.Pattern.constructor | src/domain/entities/pattern.py:30-53 | a new pattern has no examples, no occurrences, no files, no frequency and confidence 0 |
| PatternEntity.Pattern.CalculateFrequency | src/domain/entities/pattern.py:62-80 | with no files the answer is RARE and nothing is stored; otherwise the band of occurrences / files × 100 is returned and stored, and nothing else changes |
| PatternEntity.Pattern.CalculateConfidence | src/domain/entities/pattern.py:82-97 | 0 with no files, else 0.7 × occurrences / files + 0.3 × min(examples / 10, 1); the value is stored and nothing else changes |
| PatternEntity.Pattern.AddOccurrence | src/domain/entities/pattern.py:99-106 | one more occurrence; the example is appended only while fewer than ten are held, so the list never grows past ten and earlier examples stay |
| PatternEntity.EmptyPatternIsInsignificant | src/domain/entities/pattern.py:82-114 | with no files the confidence becomes 0 and the pattern is not significant |
| RefactorPlanEntity.CountAction | src/domain/entities/refactor_plan.py:84-86 | the count of operations with one action never exceeds the number of operations |
| RefactorPlanEntity.ActionCountsBounded | src/domain/entities/refactor_plan.py:84-87 | the create, modify and delete counts together are at most the number of operations |
| RefactorPlanEntity.CountActionSnoc | src/domain/entities/refactor_plan.py:77-86 | appending an operation raises exactly the count of its own action, by one |
| RefactorPlanEntity.Impact | src/domain/entities/refactor_plan.py:81-88 | the record has exactly the four keys, total_operations is the number of operations, and the three counts sum to at most it |
| RefactorPlanEntity.RefactorPlan.constructor | src/domain/entities/refactor_plan.py:42-75 | a new plan is a draft with no operations, no impact, confidence 0, priority 1, no success and no file lists |
| RefactorPlanEntity.RefactorPlan.AddOperation | src/domain/entities/refactor_plan.py:77-79 | the operation is appended at the end and no other field changes |
| RefactorPlanEntity.RefactorPlan.CalculateEstimatedImpact | src/domain/entities/refactor_plan.py:81-88 | only the impact record is replaced, by the record of the current operations |
| RefactorPlanEntity.RefactorPlan.MarkReady | src/domain/entities/refactor_plan.py:90-96 | refused exactly when there are no operations, and then nothing changes; otherwise the impact is recomputed, the status becomes READY, and the plan is executable exactly when its confidence is at least 0.5 |
| RefactorPlanEntity.RefactorPlan.MarkExecuting | src/domain/entities/refactor_plan.py:98-101 | status EXECUTING and the execution time set; nothing else changes |
| RefactorPlanEntity.RefactorPlan.MarkCompleted | src/domain/entities/refactor_plan.py:103-111 | status COMPLETED, success set and the three file lists replaced; nothing else changes |
| RefactorPlanEntity.RefactorPlan.MarkFailed | src/domain/entities/refactor_plan.py:113-117 | status FAILED, success cleared and the message stored; nothing else changes |
| RefactorPlanEntity.RefactorPlan.MarkSkipped | src/domain/entities/refactor_plan.py:119-122 | status SKIPPED and the message stored, success left as it was; nothing else changes |
| RefactorPlanEntity.States | src/domain/entities/refactor_plan.py:42-75 | one state per plan, in order |
| RefactorPlanEntity.StatesSnoc | src/domain/entities/refactor_plan.py:42-75 | one more plan adds its state at the end |
| RefactorPlanEntity.TransitionsIgnoreStatus | src/domain/entities/refactor_plan.py:90-122 | no transition checks the current status: after failing, completing and skipping, a plan with an operation can still be readied |
| RefactorPlanEntity.ReadyingEnablesExecution | src/domain/entities/refactor_plan.py:90-130 | a draft plan is not executable; once given an operation and readied with confidence at least 0.5 it is |
| SmellDetector.CheckFileLength | src/infrastructure/analyzers/smell_detector.py:45-66 | a long-file smell is reported exactly above 300 lines, at high severity exactly above 500 and medium otherwise, located at the file's path |
| SmellDetector.CheckCategories | src/infrastructure/analyzers/smell_detector.py:68-97 | a smell exactly when there are more than 6 categories, or none in a file of more than 10 tests; it is the no-categories smell exactly when there are none, high exactly above 10 categories |
| SmellDetector.CheckTestCount | src/infrastructure/analyzers/smell_detector.py:99-120 | a test-count smell exactly above 20 tests, high exactly above 30 |
| SmellDetector.CheckMockOverload | src/infrastructure/analyzers/smell_detector.py:122-142 | a mock-overload smell exactly above 5 mocks, high exactly above 10 |
| SmellDetector.CheckNoSetup | src/infrastructure/analyzers/smell_detector.py:144-151 | a low smell exactly when there are mocks and no setup hooks |
| SmellDetector.CheckMocks | src/infrastructure/analyzers/smell_detector.py:122-153 | at most the two mock smells |
| SmellDetector.CheckStructure | src/infrastructure/analyzers/smell_detector.py:155-168 | a low flat-structure smell exactly when there are no categories and more than 5 tests |
| SmellDetector.CheckSetupHooks | src/infrastructure/analyzers/smell_detector.py:170-183 | a medium smell exactly when there are more than 3 hooks |
| SmellDetector.DetectIn | src/infrastructure/analyzers/smell_detector.py:32-43 | at most seven smells, one check after the other |
| SmellDetector.Detect | src/infrastructure/analyzers/smell_detector.py:32-43 | at most seven smells for any test file |
| SmellDetector.RanksIncreaseAppend | src/infrastructure/analyzers/smell_detector.py:32-43 | appending one check's output after earlier checks keeps the kinds in check order |
| SmellDetector.RankedConcat | src/infrastructure/analyzers/smell_detector.py:32-43 | seven check outputs concatenated in order have strictly increasing kind ranks |
| SmellDetector.DetectOrder | src/infrastructure/analyzers/smell_detector.py:32-43 | the smells come in the order of the checks, and no kind is reported twice |
| SmellDetector.HasAppend | src/infrastructure/analyzers/smell_detector.py:32-43 | a kind (with a severity) is in a concatenation exactly when it is in one of the two parts |
| SmellDetector.HasInRankedConcat | src/infrastructure/analyzers/smell_detector.py:32-43 | in the concatenated checks a kind can only come from the check of its own rank |
| SmellDetector.DetectHas | src/infrastructure/analyzers/smell_detector.py:32-43 | whether `detect` reports a kind, and at which severity, is decided by that kind's own check alone |
| SmellDetector.DetectConditions | src/infrastructure/analyzers/smell_detector.py:25-183 | for every kind, both directions: `detect` reports it exactly when its threshold is strictly exceeded (or its structural condition holds), and at high severity exactly above the high threshold |
| SmellDetector.LengthCondition | src/infrastructure/analyzers/smell_detector.py:45-66 | `detect` reports a long file exactly above 300 lines, high exactly above 500 |
| SmellDetector.CategoriesCondition | src/infrastructure/analyzers/smell_detector.py:68-97 | `detect` reports too many categories exactly above 6 (high above 10) and no categories exactly for none with more than 10 tests |
| SmellDetector.TestsCondition | src/infrastructure/analyzers/smell_detector.py:99-120 | `detect` reports too many tests exactly above 20, high above 30 |
| SmellDetector.MocksCondition | src/infrastructure/analyzers/smell_detector.py:122-153 | `detect` reports mock overload exactly above 5 (high above 10) and missing setup exactly for mocks without hooks |
| SmellDetector.CountSeverity | src/infrastructure/analyzers/smell_detector.py:189-191 | a severity count never exceeds the number of smells |
| SmellDetector.GetSummary | src/infrastructure/analyzers/smell_detector.py:185-192 | the total is the number of smells and equals the sum of the three severity counts |
| SmellDetector.SeveritiesPartition | src/infrastructure/analyzers/smell_detector.py:185-192 | every smell falls under exactly one of high, medium and low |
| QualityAnalyzer.When | src/infrastructure/analyzers/quality_analyzer.py:17-39 | a tag is appended exactly when its condition holds |
| QualityAnalyzer.DetectSmellsIn | src/infrastructure/analyzers/quality_analyzer.py:13-41 | at most the six tags |
| QualityAnalyzer.DetectSmells | src/infrastructure/analyzers/quality_analyzer.py:13-41 | at most the six tags for any test file |
| QualityAnalyzer.InTestOrderAppend | src/infrastructure/analyzers/quality_analyzer.py:13-41 | appending the next test's tag keeps the tags in test order |
| QualityAnalyzer.TagsInTestOrder | src/infrastructure/analyzers/quality_analyzer.py:13-41 | the six tests' outputs, concatenated in order, are in test order |
| QualityAnalyzer.DetectSmellsOrder | src/infrastructure/analyzers/quality_analyzer.py:13-41 | the tags come in the order of the tests and none is returned twice |
| QualityAnalyzer.DetectSmellsConditions | src/infrastructure/analyzers/quality_analyzer.py:17-39 | each tag is returned exactly when its strict threshold (500 lines, 10 categories, 30 tests, 10 mocks) or its structural condition holds |
| QualityAnalyzer.SizeTagConditions | src/infrastructure/analyzers/quality_analyzer.py:17-27 | the three size tags, both directions |
| QualityAnalyzer.ShapeTagConditions | src/infrastructure/analyzers/quality_analyzer.py:29-39 | the no-categories and the two mock tags, both directions |
| QualityAnalyzer.AgreesWithDetector | src/infrastructure/analyzers/quality_analyzer.py:13-41 | each tag agrees with the smell detector: the size and overload tags with its high-severity smells, the two structural tags with its smells of the same kind |
| ComplexityAnalyzer.AnalyzeIn | src/infrastructure/analyzers/complexity_analyzer.py:14-22 | the complexity built from the file's five metrics: a score in 0..100 that the value object's own constructor accepts |
| ComplexityAnalyzer.Analyze | src/infrastructure/analyzers/complexity_analyzer.py:14-22 | the score lies in 0..100 |
| ComplexityAnalyzer.AnalyzeAgreesWithEntity | src/infrastructure/analyzers/complexity_analyzer.py:14-22 | the analyzer computes the same complexity as the test file entity does for itself |
| ComplexityAnalyzer.CyclomaticComplexity | src/infrastructure/analyzers/complexity_analyzer.py:24-35 | at least 1 |
| ComplexityAnalyzer.NoTokensInEmpty | src/infrastructure/analyzers/complexity_analyzer.py:26-33 | no token occurs in the empty text |
| ComplexityAnalyzer.EmptyIsOne | src/infrastructure/analyzers/complexity_analyzer.py:24-35 | the empty text has complexity exactly 1 |
| ComplexityAnalyzer.AgreesWithParser | src/infrastructure/analyzers/complexity_analyzer.py:24-35 | the analyzer and the TypeScript parser give every text the same cyclomatic complexity |
| PlanValidator.CheckEachOperationSpec | src/shared/validators/plan_validator.py:94-106 | the operation loop passes exactly when every action is create, modify or delete; otherwise it reports the first faulty operation, as missing exactly when its action is empty and as invalid (with that action) otherwise |
| PlanValidator.OperationViolations | src/shared/validators/plan_validator.py:94-106 | an operation violation always points at an existing operation whose action is unknown |
| PlanValidator.BasicInfoMeets | src/shared/validators/plan_validator.py:40-56 | the basic check reports the first of an empty id, description and reason, and passes exactly when none is empty |
| PlanValidator.SourceFileMeets | src/shared/validators/plan_validator.py:58-77 | the source check fails exactly for a source file that does not exist |
| PlanValidator.OperationsMeet | src/shared/validators/plan_validator.py:79-112 | the operations check reports no operations, then more than 50, then the first faulty operation, and passes exactly when none of these holds |
| PlanValidator.ConfidenceMeets | src/shared/validators/plan_validator.py:114-127 | the confidence check reports a confidence outside [0, 1] before one below 0.3 |
| PlanValidator.StatusMeets | src/shared/validators/plan_validator.py:129-136 | the status check fails exactly for a status other than DRAFT and READY |
| PlanValidator.StagesCovered | src/shared/validators/plan_validator.py:18-38 | every violation belongs to one of the ten stages of the checks |
| PlanValidator.ValidatePlanSpec | src/shared/validators/plan_validator.py:18-136 | a plan passes exactly when it is valid, exactly when it has no violation; a failure reports a violation the plan has, and no violation the plan has would have been met earlier |
| PlanValidator.LowConfidenceRefused | src/shared/validators/plan_validator.py:114-127 | a plan that is fine except for a confidence in [0, 0.3) is refused for its confidence alone |
| PlanValidator.KeptPlansSpec | src/shared/validators/plan_validator.py:138-158 | the kept plans are exactly the plans that pass validation, in their original order |
| PlanValidator.ValidateBatch | src/shared/validators/plan_validator.py:138-158 | the loop returns exactly the plans that pass, in order |
| PlanValidator.PairConflicts | src/shared/validators/plan_validator.py:172-190 | at most two entries for one pair |
| PlanValidator.PairConflictsSpec | src/shared/validators/plan_validator.py:172-190 | a pair gets the same-source entry exactly when both plans have the same source file, and the overlap entry (with the shared targets) exactly when their target sets meet |
| PlanValidator.RowsUpToStep | src/shared/validators/plan_validator.py:170-171 | the report grows by one row per outer iteration |
| PlanValidator.RowOfSpec | src/shared/validators/plan_validator.py:171-190 | a row holds exactly the entries of its pairs |
| PlanValidator.RowOfBound | src/shared/validators/plan_validator.py:171-190 | a row holds at most two entries per later plan |
| PlanValidator.RowsUpToSpec | src/shared/validators/plan_validator.py:170-190 | the rows hold exactly the entries of pairs whose earlier plan is among the rows |
| PlanValidator.RowsUpToBound | src/shared/validators/plan_validator.py:170-190 | the rows hold at most two entries per pair |
| PlanValidator.ConflictsSpec | src/shared/validators/plan_validator.py:160-192 | an entry is reported exactly when it belongs to some pair of an earlier and a later plan, and the report has at most 2·n² entries |
| PlanValidator.SameSourceReported | src/shared/validators/plan_validator.py:172-178 | any two plans on the same source file are reported, the earlier one first |
| PlanValidator.CheckConflicts | src/shared/validators/plan_validator.py:160-192 | the nested loops return exactly the conflict report of the plans' states |
| PlanValidator.CheckRow | src/shared/validators/plan_validator.py:171-190 | the inner loop appends exactly the row of plan i |
| PlanValidator.CheckPair | src/shared/validators/plan_validator.py:172-190 | one pair's entries appended to the report |
| PlanningService.DetermineAction | src/application/services/planning_service.py:91-103 | split by category exactly above 6 categories; otherwise split by concern exactly above 20 tests or, with at most 5 mocks, when the file needs refactoring; extract shared exactly above 5 mocks; keep exactly when none of these; never consolidate |
| PlanningService.PlanConfidence | src/application/services/planning_service.py:178-192 | 0.9 exactly for a category split above 8 categories, 0.85 exactly for an extraction above 7 mocks, 0.8 exactly when neither holds and the complexity score is above 70, else 0.5 |
| PlanningService.PlanPriority | src/application/services/planning_service.py:194-206 | 5 exactly for a complexity score above 80; 3 exactly when that fails and the file has at most 500 lines and at most 10 categories; else 4 |
| PlanningService.CategoryOperations | src/application/services/planning_service.py:122-137 | one operation per category |
| PlanningService.CategoryOperationsAt | src/application/services/planning_service.py:128-137 | the i-th operation is the one for the i-th category |
| PlanningService.CategoryOperationsShape | src/application/services/planning_service.py:122-137 | each is a create from the source to the source's directory joined with base.slug.spec.ts, the slug being the category lower-cased with spaces as dashes, and with reason "Category: " and the category; for a category without "/" the target lies in the source's directory under that name |
| PlanningService.CategoryWithSlash | src/application/services/planning_service.py:128-130 | a category "a/b" puts its file one directory deeper, in base.slug(a) inside the source's directory, under the name slug(b).spec.ts |
| PlanningService.SlashedCategoryTarget | src/application/services/planning_service.py:129-130 | the target of the operation for a category "a/b" lies in base.slug(a) beside the source, not in the source's directory, and is named slug(b).spec.ts |
| PlanningService.GetUsersCategory | src/application/services/planning_service.py:128-130 | a category "GET /users" targets users.spec.ts in a directory base.get- beside the source |
| PlanningService.ConcernParts | src/application/services/planning_service.py:146 | between 2 and 3 parts, 3 exactly from 30 tests on |
| PlanningService.ConcernOperations | src/application/services/planning_service.py:148-156 | one operation per part |
| PlanningService.ConcernOperationsAt | src/application/services/planning_service.py:148-156 | the i-th operation is the one for part i + 1 |
| PlanningService.ConcernOperationsShape | src/application/services/planning_service.py:139-156 | each is a create from the source into the source's directory, named base.partN.spec.ts with N counted from 1 |
| PlanningService.SharedOperations | src/application/services/planning_service.py:158-176 | two operations: a create with no source of test-utils.ts in the source's directory, then a modify of the source file in place |
| PlanningService.OnlyKeepPlansNothing | src/application/services/planning_service.py:76-103 | the chosen action adds no operation exactly when it is keep-as-is |
| PlanningService.ConcernPartsExamples | src/application/services/planning_service.py:146 | 0 and 25 tests give 2 parts, 35 and 300 give 3 |
| PlanningService.PlannedStateIsReady | src/application/services/planning_service.py:62-89 | a plan made for a file that needs refactoring is READY with operations, an action other than keep, confidence in [0.5, 0.9], priority in 3..5 and an impact counting its operations |
| PlanningService.PlanSplitByCategory | src/application/services/planning_service.py:122-137 | the loop appends exactly the category operations; nothing else in the plan changes |
| PlanningService.PlanSplitByConcern | src/application/services/planning_service.py:139-156 | the loop appends exactly the 2 or 3 part operations; nothing else changes |
| PlanningService.PlanExtractShared | src/application/services/planning_service.py:158-176 | the two operations are appended; nothing else changes |
| PlanningService.AddOperationsFor | src/application/services/planning_service.py:76-82 | the operations of the chosen action are appended, none for keep-as-is |
| PlanningService.DetermineActionFor | src/application/services/planning_service.py:91-103 | the action of the decision rules; the file's structure and effective complexity are unchanged, and nothing changes when the complexity was already stored |
| PlanningService.DraftPlanForFile | src/application/services/planning_service.py:62-86 | a fresh plan in the draft state of the file's facts; the file only gains its stored complexity |
| PlanningService.DecideFor | src/application/services/planning_service.py:62-73 | the action and the reason of the file, with its complexity stored |
| PlanningService.NewDraft | src/application/services/planning_service.py:68-86 | a fresh plan with the source, action, reason, description, operations, confidence and priority of the draft state |
| PlanningService.CreatePlanForFile | src/application/services/planning_service.py:62-89 | a fresh plan in the planned state of the file as it was; readying succeeds exactly when the action is not keep-as-is, and always for a file that needs refactoring, which leaves the plan READY |
| PlanningService.ReadyDraft | src/application/services/planning_service.py:87 | readying a draft gives the planned state, and fails exactly for a plan that keeps the file |
| PlanningService.WithPriority | src/application/services/planning_service.py:38 | the plans of one priority are among the plans |
| PlanningService.WithPriorityAppend | src/application/services/planning_service.py:38 | the plans of one priority in a concatenation are those of each part, in order |
| PlanningService.WithPriorityNone | src/application/services/planning_service.py:38 | no plan of priority k among plans all below k |
| PlanningService.WithPriorityThree | src/application/services/planning_service.py:38 | the plans of one priority around an inserted plan |
| PlanningService.InsertSamePriority | src/application/services/planning_service.py:38 | inserting a plan after the plans of its priority keeps it last among them |
| PlanningService.InsertOtherPriority | src/application/services/planning_service.py:38 | inserting a plan leaves every other priority's plans as they were |
| PlanningService.InsertKeepsSorted | src/application/services/planning_service.py:38 | inserting at the boundary keeps highest priority first |
| PlanningService.InsertStep | src/application/services/planning_service.py:38 | one insertion keeps the order, the stable order within each priority, and the multiset |
| PlanningService.SortByPriority | src/application/services/planning_service.py:37-38 | the result is highest priority first, a permutation of the input, and plans of equal priority keep their order (the sort is stable) |
| PlanningService.PositionsSpec | src/application/services/planning_service.py:32-35 | the positions are increasing, in range, and exactly those accepted |
| PlanningService.ChosenSpec | src/application/services/planning_service.py:32-35 | the m-th result is made from the element at the m-th position |
| PlanningService.NeededIndicesSpec | src/application/services/planning_service.py:32-33 | the positions are increasing and are exactly the files that need refactoring |
| PlanningService.ExpectedPlansSpec | src/application/services/planning_service.py:31-35 | the m-th plan is the one made from the m-th file that needs refactoring |
| PlanningService.ExpectedPlansReady | src/application/services/planning_service.py:32-89 | every plan made is READY, with operations, confidence in [0.5, 0.9] and priority in 3..5 |
| PlanningService.PlanIfNeeded | src/application/services/planning_service.py:33-35 | a plan exactly for a file that needs refactoring, made from its facts |
| PlanningService.GeneratePlans | src/application/services/planning_service.py:25-40 | one fresh plan per file that needs refactoring, made from its facts; returned highest priority first, as a stable permutation of the plans made in file order |
| PlanningService.ExpectedPlansStep | src/application/services/planning_service.py:32-35 | one more file adds its plan, if it needs one, after the earlier plans |
| PlanningService.SettleFile | src/application/services/planning_service.py:33-35 | the file asked for its plan; a plan exactly when it needs one |
| PlanningService.PlanFileAt | src/application/services/planning_service.py:32-35 | the plans so far are exactly those expected of the files so far |
| PlanningService.CollectPlans | src/application/services/planning_service.py:31-35 | the loop makes exactly the expected plans, in file order |
| PlanningService.CountPlans | src/application/services/planning_service.py:45-48 | an action count never exceeds the number of plans |
| PlanningService.CountsPartition | src/application/services/planning_service.py:45-48 | the five action counts add up to the number of plans |
| PlanningService.SumConfidenceBounds | src/application/services/planning_service.py:50 | the sum of confidences in [0, 1] lies in [0, n] |
| PlanningService.AverageConfidenceBounds | src/application/services/planning_service.py:50 | the average confidence lies in [0, 1] when every confidence does |
| PlanningService.CountPlansSnoc | src/application/services/planning_service.py:46-48 | one more plan raises only its own action's count, by one |
| PlanningService.GenerateSummary | src/application/services/planning_service.py:42-60 | the total is the number of plans, each count is that action's count, the four counts sum to at most the total, and the average is the mean confidence |
| AnalysisService.CountKind | src/application/services/analysis_service.py:114-130 | a count of one kind never exceeds the number of lines |
| AnalysisService.TotalLines | src/application/services/analysis_service.py:87 | the recorded line count is at least 1, even for empty content |
| AnalysisService.KindCountsPartition | src/application/services/analysis_service.py:114-130 | every line is of exactly one kind, so the three counts over any lines add up to their number |
| AnalysisService.LineCountsSumToTotal | src/application/services/analysis_service.py:87-130 | code, comment and blank lines together are exactly the recorded total_lines |
| AnalysisService.BlankIffAllSpace | src/application/services/analysis_service.py:127-130 | a line is blank exactly when all its characters are whitespace |
| AnalysisService.CommentIffSlashesAfterIndent | src/application/services/analysis_service.py:122-125 | a line is a comment exactly when "//" follows its leading whitespace |
| AnalysisService.SlashesSurviveRStrip | src/application/services/analysis_service.py:119-125 | stripping trailing whitespace neither makes nor removes a leading "//" |
| AnalysisService.KindOfTrimmed | src/application/services/analysis_service.py:114-125 | a line without surrounding whitespace is a comment exactly when it starts with "//" and code otherwise |
| AnalysisService.CountKindSnoc | src/application/services/analysis_service.py:114-130 | one more line adds one to exactly its own kind's count |
| AnalysisService.CountFive | src/application/services/analysis_service.py:114-130 | five lines are counted one by one |
| AnalysisExamples.CommentCountExample | tests/unit/application/services/test_analysis_service.py:183-191 | the comment-counter test's text has exactly 2 comment lines |
| AnalysisExamples.CommentExampleKinds | tests/unit/application/services/test_analysis_service.py:183-191 | of that text's six lines, exactly two are comments |
| AnalysisExamples.CommentExampleTallies | tests/unit/application/services/test_analysis_service.py:183-191 | the kind of each of its lines |
| AnalysisExamples.BlankCountExample | tests/unit/application/services/test_analysis_service.py:193-202 | the blank-counter test's text has exactly 2 blank lines |
| AnalysisExamples.BlankExampleKinds | tests/unit/application/services/test_analysis_service.py:193-202 | of that text's five lines, exactly two are blank |
| AnalysisService.FiguresOf | src/application/services/analysis_service.py:137-151 | one figure record per file |
| AnalysisService.FiguresOfAt | src/application/services/analysis_service.py:137-151 | the i-th record holds the i-th file's line count, test count, complexity and quality |
| AnalysisService.CountLevel | src/application/services/analysis_service.py:140-144 | a level count never exceeds the number of files |
| AnalysisService.CountQuality | src/application/services/analysis_service.py:146-151 | a quality band count never exceeds the number of files |
| AnalysisService.CountWithQuality | src/application/services/analysis_service.py:146-151 | the files with a quality are among the files |
| AnalysisService.LevelCountsPartition | src/application/services/analysis_service.py:140-144 | when every file has a complexity, the three level counts add up to the number of files |
| AnalysisService.QualityCountsPartition | src/application/services/analysis_service.py:146-151 | the four bands (at least 80, 60 to 80, 40 to 60, below 40) are disjoint and together count exactly the files that have a quality |
| AnalysisService.FloorDivBounds | src/application/services/analysis_service.py:157-158 | floor division lies between the neighbouring multiples |
| AnalysisService.StatisticsOf | src/application/services/analysis_service.py:132-161 | nothing exactly for no files; otherwise the file count, the line and test totals, floor-divided averages, level counts that add up to the file count and quality counts that add up to at most it |
| AnalysisService.CalculateStatistics | src/application/services/analysis_service.py:132-161 | the same on the files themselves: nothing exactly for no files, and a level distribution covering every file |
| AnalysisService.StatisticsExample | tests/unit/application/services/test_analysis_service.py:135-165 | the test's three files of 100, 150 and 200 lines with five tests each give 3 files, 450 lines, 150 lines and 5 tests on average |
| TestStructureParser.FindBlockEnd | src/infrastructure/parsers/test_structure_parser.py:185-203 | the scan returns the block's end: the first line from the start at which a brace has been opened and the braces balance, or the last line of the file when there is none |
| TestStructureParser.BlockEndUnique | src/infrastructure/parsers/test_structure_parser.py:185-203 | the block end of a start line is unique |
| TestStructureParser.NeverOpened | src/infrastructure/parsers/test_structure_parser.py:193-196 | lines without a "{" never start a block |
| TestStructureParser.NoBraceBlockRunsToEnd | src/infrastructure/parsers/test_structure_parser.py:200-203 | a block none of whose lines opens a brace runs to the last line of the file |
| TestStructureParser.OneLineBlock | src/infrastructure/parsers/test_structure_parser.py:193-201 | a start line that opens braces and balances them is a whole block |
| TestStructureParser.LazyName | src/infrastructure/parsers/test_structure_parser.py:37-38 | the lazy group stops at the first quote followed by optional whitespace and a comma, and never crosses a newline |
| TestStructureParser.CallAt | src/infrastructure/parsers/test_structure_parser.py:37-38 | a match at a position starts with the keyword and "(" there and captures a non-empty name without a newline |
| TestStructureParser.SearchCallLeftmost | src/infrastructure/parsers/test_structure_parser.py:85-121 | the search returns the match at the leftmost position where the pattern matches |
| TestStructureParser.CallNameSound | src/infrastructure/parsers/test_structure_parser.py:85-126 | a line whose pattern matches contains the keyword and "(", and the captured name is non-empty and on one line |
| TestStructureParser.HookAt | src/infrastructure/parsers/test_structure_parser.py:39 | a hook match names one of the four hooks followed by "(" at that position |
| TestStructureParser.SearchHook | src/infrastructure/parsers/test_structure_parser.py:149-154 | the hook search only ever yields a hook kind |
| TestStructureParser.Openers | src/infrastructure/parsers/test_structure_parser.py:42-183 | one header (or none) per line |
| TestStructureParser.CoveredSnoc | src/infrastructure/parsers/test_structure_parser.py:42-80 | a line is inside the blocks plus one more exactly when it is inside the old blocks or the new one |
| TestStructureParser.ParseStructure | src/infrastructure/parsers/test_structure_parser.py:42-80 | the top-level blocks are collected: they start in order without overlapping, each on a line that opens it, every line no block covers opens nothing, and each block is well formed (its brace end, content, metadata and children as the parser builds them) |
| TestStructureParser.TopStep | src/infrastructure/parsers/test_structure_parser.py:47-78 | one turn of the cursor either captures the block at the line and jumps past it or steps one line, keeping the invariant and moving forward |
| TestStructureParser.ParseTopBlock | src/infrastructure/parsers/test_structure_parser.py:48-76 | blank and comment lines open nothing; otherwise describe, then it, then hooks are tried, a failing pattern falling through; a captured block starts at the line and is well formed |
| TestStructureParser.ParseDescribeBlock | src/infrastructure/parsers/test_structure_parser.py:82-116 | nothing exactly when the describe pattern fails; otherwise a well-formed describe named by the captured group, starting at the line |
| TestStructureParser.CollectChildren | src/infrastructure/parsers/test_structure_parser.py:106-114 | the sub-cursor collects, between the describe's first and last lines, exactly the children the lines open, each well formed |
| TestStructureParser.ChildStep | src/infrastructure/parsers/test_structure_parser.py:108-114 | one turn of the sub-cursor keeps its invariant and moves forward |
| TestStructureParser.DescribeWellFormed | src/infrastructure/parsers/test_structure_parser.py:91-116 | a describe built from its brace end, joined content, indentation metadata and collected children is well formed |
| TestStructureParser.ParseItBlock | src/infrastructure/parsers/test_structure_parser.py:118-144 | nothing exactly when the it pattern fails; otherwise a well-formed test block with the expect( count, async flag and line count |
| TestStructureParser.ParseHook | src/infrastructure/parsers/test_structure_parser.py:146-170 | nothing exactly when no hook call is found; otherwise a well-formed block of that hook, named after it |
| TestStructureParser.ParseChildBlock | src/infrastructure/parsers/test_structure_parser.py:172-183 | the first of describe(, it( and a hook name the stripped line contains decides, with no fall-through; a captured block is well formed |
| TestStructureParser.ScanStep | src/infrastructure/parsers/test_structure_parser.py:56-114 | either outcome of parsing the line at the cursor keeps the cursor invariant and moves the cursor forward |
| TestStructureParser.ScanCapture | src/infrastructure/parsers/test_structure_parser.py:57-112 | capturing a well-formed block at the cursor keeps the invariant, with the cursor past its end |
| TestStructureParser.AddToScan | src/infrastructure/parsers/test_structure_parser.py:57-112 | capturing a block keeps the blocks collected |
| TestStructureParser.SkipInScan | src/infrastructure/parsers/test_structure_parser.py:50-114 | stepping over a line that opens nothing keeps the invariant |
| TestStructureParser.ItNamesAppend | src/infrastructure/parsers/test_structure_parser.py:220-230 | the it names of a concatenation are those of each part |
| TestStructureParser.NestedDescribeNamesAppend | src/infrastructure/parsers/test_structure_parser.py:205-218 | the nested describe names of a concatenation are those of each part |
| TestStructureParser.WellFormedNests | src/infrastructure/parsers/test_structure_parser.py:82-183 | in a parsed forest only describes have children, at every level |
| TestStructureParser.OnlyDescribesNestParts | src/infrastructure/parsers/test_structure_parser.py:82-183 | the first block's children and the remaining blocks of such a forest are such forests too |
| TestStructureParser.TestCasesArePreorderIts | src/infrastructure/parsers/test_structure_parser.py:220-230 | for a parsed forest the test cases are exactly the it blocks' names in depth-first source order |
| TestStructureParser.CategoriesArePreorderNestedDescribes | src/infrastructure/parsers/test_structure_parser.py:205-218 | for a parsed forest the categories are exactly the names of the indented describes in depth-first source order |
| MockParser.ConstName | src/infrastructure/parsers/mock_parser.py:25-38 | a match has "const" after the leading whitespace and captures a non-empty name of word characters |
| MockParser.LetAndVarNeverMatch | src/infrastructure/parsers/mock_parser.py:25 | a let or var declaration never matches, so only const declarations can be mocks |
| MockParser.FirstCharBlocks | src/infrastructure/parsers/mock_parser.py:25 | a keyword cannot occur where its first character does not |
| MockParser.MockNamesFromTheTests | tests/unit/infrastructure/test_mock_parser.py:121-130 | mockUser, mockRepository, mockData, testData and testUser are mock names |
| MockParser.NotAffixed | src/infrastructure/parsers/mock_parser.py:60-66 | a lower-case name that neither starts nor ends with a prefix is not a mock name |
| MockParser.PlainNamesFromTheTests | tests/unit/infrastructure/test_mock_parser.py:132-136 | service, controller and result are not mock names |
| MockParser.ServiceIsPlain | tests/unit/infrastructure/test_mock_parser.py:134 | service is not a mock name |
| MockParser.ControllerIsPlain | tests/unit/infrastructure/test_mock_parser.py:135 | controller is not a mock name |
| MockParser.ResultIsPlain | tests/unit/infrastructure/test_mock_parser.py:136 | result is not a mock name |
| MockParser.FindDeclarationEnd | src/infrastructure/parsers/mock_parser.py:68-89 | the scan returns the first line at whose end the braces, parentheses and brackets all balance and which holds a ";", or the last line of the file |
| MockParser.DeclarationEndHasSemicolon | src/infrastructure/parsers/mock_parser.py:85-89 | a declaration that ends before the last line ends on a line holding ";" |
| MockParser.ObjectMockFromTheTests | tests/unit/infrastructure/test_mock_parser.py:71-76 | the object test's text is typed as an object mock |
| MockParser.ObjectExampleIsNoFunction | tests/unit/infrastructure/test_mock_parser.py:71-76 | that text does not contain jest.fn |
| MockParser.ObjectExampleIsNoRepository | tests/unit/infrastructure/test_mock_parser.py:71-76 | that text does not contain repository |
| MockParser.FunctionMockFromTheTests | tests/unit/infrastructure/test_mock_parser.py:78-83 | the function test's text is typed as a function mock |
| MockParser.RepositoryMockWithJestFnIsFunction | src/infrastructure/parsers/mock_parser.py:95-100 | the repository test's text, which also calls jest.fn, is typed as a function mock because that rule comes first |
| MockParser.InferMockType | src/infrastructure/parsers/mock_parser.py:91-104 | function exactly when the lower-cased text contains jest.fn; otherwise repository or object exactly when it holds both braces, repository exactly when it also contains repository; otherwise array exactly when it holds both brackets; primitive exactly when none of these applies |
| MockParser.KeyCountIsKeys | src/infrastructure/parsers/mock_parser.py:111 | the key scan counts exactly the colons that directly follow a word character |
| MockParser.KeysInWord | src/infrastructure/parsers/mock_parser.py:111 | a run of word characters ending at a colon holds exactly one key |
| MockParser.KeysAtMostColons | src/infrastructure/parsers/mock_parser.py:111 | there are no more keys than colons |
| MockParser.FlatMockComplexity | src/infrastructure/parsers/mock_parser.py:106-113 | a text with one brace and one key colon and no bracket, other colon or arrow scores at most two |
| MockParser.FlatMockFromTheTests | tests/unit/infrastructure/test_mock_parser.py:101 | the flat mock of the complexity test scores at most two |
| MockParser.ThreeBraces | src/infrastructure/parsers/mock_parser.py:109 | texts holding three opening braces score at least three |
| MockParser.ComplexityFromTheTests | tests/unit/infrastructure/test_mock_parser.py:99-119 | the nested mock of the complexity test scores higher than the flat one |
| MockParser.ArrayMockFromTheTests | tests/unit/infrastructure/test_mock_parser.py:92-97 | the array test's text is typed as an array mock |
| MockParser.MockStarts | src/infrastructure/parsers/mock_parser.py:33-40 | one flag per line |
| MockParser.ParseMocks | src/infrastructure/parsers/mock_parser.py:28-58 | the mocks are in order without overlapping lines, every line outside them starts no mock, and each is captured from its start line: the declared name, a mock name, its declaration end, its joined lines as content, and the type and complexity inferred from that content |
| MockParser.CaptureMock | src/infrastructure/parsers/mock_parser.py:38-51 | the record built for the declaration on a line is captured there |
| MockParser.CaptureLoopStep | src/infrastructure/parsers/mock_parser.py:44-54 | capturing a mock at the cursor keeps all three invariants of the scan |
| MockParser.SkipStep | src/infrastructure/parsers/mock_parser.py:56 | stepping over a line that starts no mock keeps the scan invariant |
| MockParser.CaptureStep | src/infrastructure/parsers/mock_parser.py:44-54 | capturing a mock keeps the mocks in order and every uncovered line mock-free |
| MockParser.InsideSomeSnoc | src/infrastructure/parsers/mock_parser.py:44-54 | a line is inside the mocks plus one more exactly when it is inside the old ones or the new one |
| ImportParser.QuotedTo | src/infrastructure/parsers/import_parser.py:25 | the lazy source group stops at the first quote |
| ImportParser.SourceAt | src/infrastructure/parsers/import_parser.py:25 | the tail (whitespace, from, whitespace, quoted source) captures a non-empty source |
| ImportParser.SourceAtNeedsFrom | src/infrastructure/parsers/import_parser.py:25 | the tail matches only where "from" follows |
| ImportParser.ClauseEnd | src/infrastructure/parsers/import_parser.py:25 | the lazy clause ends at the first position where the tail matches |
| ImportParser.ClauseFrom | src/infrastructure/parsers/import_parser.py:25 | the clause starts after "import" and whitespace and ends where the tail matches |
| ImportParser.ImportMatch | src/infrastructure/parsers/import_parser.py:24-35 | a match starts with "import" and captures a non-empty clause and source; ImportLineMatches is the converse |
| ImportParser.MatchNeedsFrom | src/infrastructure/parsers/import_parser.py:25-35 | a line is recognised only if it holds "from" itself, so an import split over lines is never seen |
| ImportParser.StatementAt | src/infrastructure/parsers/import_parser.py:35-43 | a statement records its line number and stripped line, and is a type import exactly when its clause contains "type" |
| ImportParser.ListedSnoc | src/infrastructure/parsers/import_parser.py:34-43 | a line has a statement in the list plus one more exactly when it had one before or the new one is from it |
| ImportParser.Statements | src/infrastructure/parsers/import_parser.py:32-35 | one entry per line |
| ImportParser.NothingFoundNothingPresent | src/infrastructure/parsers/import_parser.py:34-45 | no matching line, no statement |
| ImportParser.NoKeywordNoImports | src/infrastructure/parsers/import_parser.py:25-35 | content none of whose stripped lines begins with "import" yields no statements |
| ImportParser.ParseStep | src/infrastructure/parsers/import_parser.py:34-43 | one line keeps the statements listed in line order |
| ImportParser.ParseLoopStep | src/infrastructure/parsers/import_parser.py:34-43 | one iteration of the loop keeps both invariants |
| ImportParser.PresentSnoc | src/infrastructure/parsers/import_parser.py:34-43 | one more line adds its statement, if any, at the end |
| ImportParser.ParseImports | src/infrastructure/parsers/import_parser.py:29-45 | exactly one statement per matching line, in line order |
| ImportParser.QuotedToEnd | src/infrastructure/parsers/import_parser.py:25 | the lazy source group closes at a quote when no quote or newline comes before it |
| ImportParser.ClauseEndAt | src/infrastructure/parsers/import_parser.py:25 | the lazy clause ends at the first position where the tail matches, when it fails everywhere before and no newline intervenes |
| ImportParser.NoFromInClause | src/infrastructure/parsers/import_parser.py:25 | "from" cannot start inside a clause that lacks it and is followed by a space |
| ImportParser.NoTailInClause | src/infrastructure/parsers/import_parser.py:25 | inside a clause with no "from" that ends in a non-space, the tail never matches |
| ImportParser.SourceAfterClause | src/infrastructure/parsers/import_parser.py:25 | one space, "from", one space and a quoted one-line source make the tail match with that source |
| ImportParser.ClauseOfLine | src/infrastructure/parsers/import_parser.py:25 | the lazy clause begun after "import " ends exactly at the end of a plain clause |
| ImportParser.ImportLineMatches | src/infrastructure/parsers/import_parser.py:24-27 | every line "import <clause> from '<source>'..." whose clause is one line with no surrounding whitespace and no "from", and whose source is one line with no quote, is matched with exactly that clause and source |
| ImportParser.ImportLineOneLine | src/infrastructure/parsers/import_parser.py:32 | an import line of a one-line clause and source holds no newline |
| ImportParser.ImportLineStatement | src/infrastructure/parsers/import_parser.py:34-43 | such a line, ended by ";", gives the statement of that clause and source, with its line number and a type flag set exactly when the clause contains "type" |
| ImportParser.LineThen | src/infrastructure/parsers/import_parser.py:32 | a line without a newline, then a newline, is the first line of the text |
| ImportParser.FourLines | src/infrastructure/parsers/import_parser.py:32 | four lines each closed by a newline split into those lines and a final empty one |
| ImportParser.FourStatements | src/infrastructure/parsers/import_parser.py:34-45 | four lines with statements and a final empty line give those statements, in line order |
| ImportParser.FourImportsParsed | src/infrastructure/parsers/import_parser.py:29-45 | four import lines, each closed by a newline, parse into their four statements with line numbers 0 to 3 |
| ImportParser.PlainClauseOf | src/infrastructure/parsers/import_parser.py:25 | a one-line clause with no surrounding whitespace that lacks a letter of "from" is captured whole |
| ImportParser.SampleParsed | tests/unit/infrastructure/test_import_parser.py:17-30 | the unit tests' four-line sample parses into exactly its four statements, in line order, with only the third a type import |
| ImportParser.CloseBrace | src/infrastructure/parsers/import_parser.py:56 | the lazy group ends at the first "}" |
| ImportParser.ExtractImportedNames | src/infrastructure/parsers/import_parser.py:47-61 | a clause without "{" gives the stripped clause alone; with "{", no closed group on the line gives no names, and otherwise name k is comma-separated piece k of the first group, stripped, cut before " as " and stripped again |
| ImportParser.BeforeAsOfWord | src/infrastructure/parsers/import_parser.py:59 | a piece without a space is not cut |
| ImportParser.PaddedWordName | src/infrastructure/parsers/import_parser.py:59 | a word padded with spaces names that word |
| ImportParser.CloseBraceAt | src/infrastructure/parsers/import_parser.py:56 | the lazy group closes at the first "}" when no newline comes before it |
| ImportParser.BracedGroup | src/infrastructure/parsers/import_parser.py:56-58 | a clause that is one braced group on one line yields that group |
| ImportParser.TwoPieces | src/infrastructure/parsers/import_parser.py:58 | two comma-free pieces joined by a comma split back into those two |
| ImportParser.TwoNamedImports | src/infrastructure/parsers/import_parser.py:55-59 | "{ a, b }" with two plain words names exactly a and b, in order |
| ImportParser.NamedImportsExample | tests/unit/infrastructure/test_import_parser.py:32-46 | the clause "{ Test, Module }" gives the names Test and Module |
| ImportParser.NamedImportsHaveNoComma | src/infrastructure/parsers/import_parser.py:55-59 | named imports give one name per comma-separated piece of the braces, and no name contains a comma |
| ImportParser.PickSnoc | src/infrastructure/parsers/import_parser.py:72-80 | one more element joins exactly its own bucket |
| ImportParser.InBucketSnoc | src/infrastructure/parsers/import_parser.py:72-80 | one more statement joins exactly its own bucket, at the end |
| ImportParser.CategorizeImports | src/infrastructure/parsers/import_parser.py:63-82 | each bucket holds exactly the statements of that bucket, in input order |
| ImportParser.BucketsPartition | src/infrastructure/parsers/import_parser.py:63-82 | the four buckets together hold every statement exactly once |
| ImportParser.PickPartition | src/infrastructure/parsers/import_parser.py:72-80 | any bucket assignment partitions the elements |
| ImportParser.AddToOneBucket | src/infrastructure/parsers/import_parser.py:72-80 | adding an element to exactly one bucket keeps the partition |
| ImportParser.RelativeTestHelpersAreInternal | src/infrastructure/parsers/import_parser.py:75-77 | a relative path is internal even when it names test helpers |
| ImportParser.SamplePackagesAreTestUtils | src/infrastructure/parsers/import_parser.py:77-78 | a package name containing "test" (@nestjs/testing, supertest) is a test utility, not external |
| ImportParser.BucketsOfSample | src/infrastructure/parsers/import_parser.py:72-80 | statements with the sample's sources and type flags fall one internal, one type, two test utilities and no external |
| ImportParser.SampleBuckets | tests/unit/infrastructure/test_import_parser.py:48-60 | the parsed sample holds four statements and buckets into one internal, one type import, two test utilities and no external |
| ImportParser.CountOfFour | src/infrastructure/parsers/import_parser.py:72-80 | the size of a bucket of four elements counts those sent to it |
| TypeScriptParser.AcceptedPathsAreTypeScriptTests | src/infrastructure/parsers/typescript_parser.py:21-23 | a path is accepted exactly when it is a .ts or .tsx file whose stem ends in .spec or .test |
| TypeScriptParser.EndsWithBoth | src/infrastructure/parsers/typescript_parser.py:23 | ending with a two-part suffix is ending with the second part after a stem ending with the first |
| TypeScriptParser.RejectedExamples | tests/unit/infrastructure/test_typescript_parser.py:63-67 | service.ts, component.tsx and index.js are rejected |
| TypeScriptParser.AcceptedSuffixes | tests/unit/infrastructure/test_typescript_parser.py:52-61 | any stem followed by .spec.ts, .test.ts, .spec.tsx or .test.tsx is accepted, which covers every accepted path of the tests |
| TypeScriptParser.EndsWithAppended | src/infrastructure/parsers/typescript_parser.py:23 | a concatenation ends with its second part |
| TypeScriptParser.NotEndingWith | src/infrastructure/parsers/typescript_parser.py:23 | a string lacking a suffix's first character at the right distance from its end does not end with it |
| TypeScriptParser.Rejected | src/infrastructure/parsers/typescript_parser.py:23 | a path without a dot eight or nine characters from its end is rejected |
| TypeScriptParser.CyclomaticBaseline | src/infrastructure/parsers/typescript_parser.py:83-94 | the cyclomatic complexity is at least 1, and exactly 1 when none of the seven tokens occurs |
| TypeScriptParser.SeqMaxIsMaximum | src/infrastructure/parsers/typescript_parser.py:101-106 | the maximum bounds every element and is one of them |
| TypeScriptParser.ChainsAreBounded | src/infrastructure/parsers/typescript_parser.py:98-101 | no chain of child links below a block is longer than get_depth counts |
| TypeScriptParser.GetDepthAtLeast | src/infrastructure/parsers/typescript_parser.py:98-101 | get_depth never goes below the depth it starts from |
| TypeScriptParser.DeepestChainExists | src/infrastructure/parsers/typescript_parser.py:98-101 | some chain of child links is exactly as long as get_depth counts |
| TypeScriptParser.NestingDepthIsLongestChain | src/infrastructure/parsers/typescript_parser.py:96-106 | the nesting depth is 0 without blocks and otherwise the length of the longest chain of child links from a top-level block |
| TypeScriptParser.CalculateComplexity | src/infrastructure/parsers/typescript_parser.py:75-81 | the cyclomatic value is at least 1, total_blocks counts the top-level blocks, and the depth is 0 without blocks |
| TypeScriptParser.SetupHooks | src/infrastructure/parsers/typescript_parser.py:53-56 | at most one hook per top-level block |
| TypeScriptParser.SetupHooksAreTopLevelHooks | src/infrastructure/parsers/typescript_parser.py:53-56 | a name is reported exactly when some top-level block is a hook of that name; hooks inside a describe are not reported |
| TypeScriptParser.EmptyFileHasNoBlocks | tests/unit/infrastructure/test_typescript_parser.py:118-125 | a parsed empty file holds no blocks |
| TypeScriptParser.NothingOpensOnBlankLine | src/infrastructure/parsers/typescript_parser.py:48 | the single blank line of an empty file opens nothing |
| TypeScriptParser.NoOpenersNoBlocks | src/infrastructure/parsers/typescript_parser.py:42-80 | where no line opens a block, none is collected |
| TypeScriptParser.FirstBlockOpens | src/infrastructure/parsers/typescript_parser.py:42-80 | the first block collected starts at a line in range that opens it |
| TypeScriptParser.EmptyFileHasNoMocks | tests/unit/infrastructure/test_typescript_parser.py:118-125 | a parsed empty file holds no mocks |
| TypeScriptParser.EmptyFileHasNoImports | tests/unit/infrastructure/test_typescript_parser.py:118-125 | a parsed empty file holds no imports |
| TypeScriptParser.EmptyContentIsOneBlankLine | src/infrastructure/parsers/typescript_parser.py:27 | empty content is one blank line |
| TypeScriptParser.Assemble | src/infrastructure/parsers/typescript_parser.py:30-73 | one import string per statement, one mock record per mock, and the raw data are the sub-parsers' outputs |
| TypeScriptParser.ImportsAreStrippedLines | src/infrastructure/parsers/typescript_parser.py:30-31 | each reported import is the stripped text of the line it was found on |
| TypeScriptParser.EmptyFileParse | tests/unit/infrastructure/test_typescript_parser.py:118-125 | the empty file gives no imports, mocks, categories, test cases or hooks, cyclomatic complexity 1 and depth 0 |
| TypeScriptParser.Parse | src/infrastructure/parsers/typescript_parser.py:25-73 | the three sub-parsers' outputs meet their specifications on the content's lines, the record is assembled from them, each import is its stripped line, and empty content gives the empty result |
| ImportOptimizer.GroupsOf | src/infrastructure/generators/import_optimizer.py:36-44 | one group per import, in order |
| ImportOptimizer.GroupsOfAt | src/infrastructure/generators/import_optimizer.py:36-44 | entry i is the group the first matching test (type, test/mock/stub, external package, otherwise internal) gives import i |
| ImportOptimizer.SelectIsSubseq | src/infrastructure/generators/import_optimizer.py:36-44 | appending to a group keeps the input order |
| ImportOptimizer.SelectMembers | src/infrastructure/generators/import_optimizer.py:36-44 | an import is appended to a group exactly when some position holds it with that group |
| ImportOptimizer.InGroupMembers | src/infrastructure/generators/import_optimizer.py:36-44 | an import is in its own group and in no other |
| ImportOptimizer.SelectPartition | src/infrastructure/generators/import_optimizer.py:36-44 | the four appended lists together hold every import exactly as often as the input |
| ImportOptimizer.GroupsPartition | src/infrastructure/generators/import_optimizer.py:36-44 | the four groups are a partition of the input, as multisets |
| ImportOptimizer.OptimizedMembers | src/infrastructure/generators/import_optimizer.py:36-51 | "type" (any case) wins first, then test/mock/stub, then an external package name, otherwise internal; each direction of each membership |
| ImportOptimizer.OptimizedPartition | src/infrastructure/generators/import_optimizer.py:46-59 | every import in exactly one group, each of the four groups sorted by its lower-cased text, and in each group imports with equal lower-cased text in input order |
| ImportOptimizer.Optimize | src/infrastructure/generators/import_optimizer.py:28-51 | the one-pass loop returns the partitioned, sorted groups |
| ImportOptimizer.IndexFrom | src/infrastructure/generators/import_optimizer.py:80 | the first occurrence of a character at or after an index, or the end when there is none |
| ImportOptimizer.QuoteFrom | src/infrastructure/generators/import_optimizer.py:120 | the first quote at or after an index, or the end when there is none |
| ImportOptimizer.FirstBracesLeftmost | src/infrastructure/generators/import_optimizer.py:80 | the brace search finds the leftmost match, and nothing only when no index matches |
| ImportOptimizer.FirstBracesChars | src/infrastructure/generators/import_optimizer.py:80-82 | the captured brace group holds no closing brace |
| ImportOptimizer.NamesInChars | src/infrastructure/generators/import_optimizer.py:83 | no name holds a comma or a closing brace |
| ImportOptimizer.DefaultImportChars | src/infrastructure/generators/import_optimizer.py:86-88 | the default import name is a non-empty run of word characters |
| ImportOptimizer.ExtractNamesSpec | src/infrastructure/generators/import_optimizer.py:75-90 | names from the first brace group when there is one, else the default import word, else none |
| ImportOptimizer.FirstFromLeftmost | src/infrastructure/generators/import_optimizer.py:120 | the source search finds the leftmost match, and nothing only when no index matches |
| ImportOptimizer.FirstFromNone | src/infrastructure/generators/import_optimizer.py:120 | the source search fails exactly when no index matches |
| ImportOptimizer.FirstFromFound | src/infrastructure/generators/import_optimizer.py:120 | a successful source search returns the match at some index with no match at any earlier index |
| ImportOptimizer.FromAtCapture | src/infrastructure/generators/import_optimizer.py:120 | a match captures a non-empty text without quotes |
| ImportOptimizer.ExtractSourceSpec | src/infrastructure/generators/import_optimizer.py:116-124 | the source is the leftmost capture, or "" exactly when nothing matches; it holds no quote |
| ImportOptimizer.UsedFlags | src/infrastructure/generators/import_optimizer.py:65-71 | one flag per import |
| ImportOptimizer.UsedFlagsAt | src/infrastructure/generators/import_optimizer.py:65-71 | flag i says whether one of import i's names occurs in the content |
| ImportOptimizer.KeptSpec | src/infrastructure/generators/import_optimizer.py:61-73 | the kept imports are a subsequence holding exactly the flagged imports |
| ImportOptimizer.UsedImportsSpec | src/infrastructure/generators/import_optimizer.py:61-73 | the result keeps the input order and holds exactly the imports one of whose names occurs in the content |
| ImportOptimizer.RemoveUnused | src/infrastructure/generators/import_optimizer.py:61-73 | the loop returns the used imports, a subsequence of the input |
| ImportOptimizer.EmptyNameAlwaysUsed | src/infrastructure/generators/import_optimizer.py:70-83 | an import whose names include "" (a trailing comma in the braces) is always kept |
| ImportOptimizer.AddNamesSpec | src/infrastructure/generators/import_optimizer.py:103 | updating the name set gives the union without repeats |
| ImportOptimizer.CollectSources | src/infrastructure/generators/import_optimizer.py:94-103 | the map's keys are the distinct sources of the imports |
| ImportOptimizer.CollectNames | src/infrastructure/generators/import_optimizer.py:94-103 | a source's names are, without repeats, the names of every import from it |
| ImportOptimizer.First | src/infrastructure/generators/import_optimizer.py:107 | the first index holding an element, or the length when there is none |
| ImportOptimizer.FirstAppend | src/infrastructure/generators/import_optimizer.py:100-101 | adding keys later leaves an existing key's first position alone |
| ImportOptimizer.FirstAtEnd | src/infrastructure/generators/import_optimizer.py:100-101 | a new key goes last |
| ImportOptimizer.OrderExtend | src/infrastructure/generators/import_optimizer.py:100-101 | appending a new key keeps the keys in first-appearance order |
| ImportOptimizer.CollectOrder | src/infrastructure/generators/import_optimizer.py:96-107 | the keys come in the order of their first appearance among the imports |
| ImportOptimizer.SourcesOf | src/infrastructure/generators/import_optimizer.py:97 | one source per import |
| ImportOptimizer.NamesOf | src/infrastructure/generators/import_optimizer.py:98 | one name list per import |
| ImportOptimizer.OfAt | src/infrastructure/generators/import_optimizer.py:96-98 | entry i of the sources and of the names belongs to import i |
| ImportOptimizer.MergedLines | src/infrastructure/generators/import_optimizer.py:106-112 | one line per source |
| ImportOptimizer.MergedLinesAt | src/infrastructure/generators/import_optimizer.py:106-112 | line k is the line written for source k |
| ImportOptimizer.MergeLinesSpec | src/infrastructure/generators/import_optimizer.py:92-114 | one line per distinct source, in first-appearance order, each built from that source's names |
| ImportOptimizer.MergeSourcesSpec | src/infrastructure/generators/import_optimizer.py:92-114 | a source gets a line exactly when some import comes from it |
| ImportOptimizer.MergeNamesSpec | src/infrastructure/generators/import_optimizer.py:94-103 | the names of a source's line are, without repeats, the names of all imports from it |
| ImportOptimizer.MergedLineSpec | src/infrastructure/generators/import_optimizer.py:108-112 | one name gives a bare default import; any other number gives the names strictly sorted, a permutation of the set, between braces |
| ImportOptimizer.StrictlySorted | src/infrastructure/generators/import_optimizer.py:111 | sorting distinct names orders them strictly |
| ImportOptimizer.MergeImports | src/infrastructure/generators/import_optimizer.py:92-114 | the two loops return the merged lines |
| ImportOptimizer.NoFromNoSource | src/infrastructure/generators/import_optimizer.py:120-124 | a text without an f has the empty source |
| ImportOptimizer.NoBraceNoGroup | src/infrastructure/generators/import_optimizer.py:80 | a text without an opening brace has no brace group |
| ImportOptimizer.MergeOne | src/infrastructure/generators/import_optimizer.py:92-114 | a single import merges into the line for its own source and names |
| ImportOptimizer.NamelessImportMerged | src/infrastructure/generators/import_optimizer.py:108-112 | an import with no names and no source becomes "import {  } from '';" |
| ImportOptimizer.SideEffectImportParts | src/infrastructure/generators/import_optimizer.py:75-124 | "import './setup';" has no names and the empty source |
| ImportOptimizer.SideEffectImportMerged | src/infrastructure/generators/import_optimizer.py:92-114 | merging "import './setup';" gives "import {  } from '';" |
| ImportOptimizer.Present | src/infrastructure/generators/import_optimizer.py:130-140 | only non-empty groups are kept |
| ImportOptimizer.PresentEmpty | src/infrastructure/generators/import_optimizer.py:130-140 | no block exactly when every group is empty |
| ImportOptimizer.Blocks | src/infrastructure/generators/import_optimizer.py:131-140 | each block is its group's lines joined by newlines |
| ImportOptimizer.BlocksLines | src/infrastructure/generators/import_optimizer.py:142 | the lines of the joined blocks are the groups' lines with one blank line between groups |
| ImportOptimizer.ImportBlockLayout | src/infrastructure/generators/import_optimizer.py:126-142 | "" exactly when every group is empty; otherwise external, types, internal, test utilities, the present groups separated by one blank line |
| CodeGenerator.Indent | src/infrastructure/generators/code_generator.py:14-56 | the indentation of a level is exactly two spaces per level |
| CodeGenerator.MockLines | src/infrastructure/generators/code_generator.py:46-50 | one declaration per mock |
| CodeGenerator.MockLinesAt | src/infrastructure/generators/code_generator.py:46-50 | declaration k is "const name = content;" for mock k, name defaulting to mockData and content to {} |
| CodeGenerator.GenerateMocks | src/infrastructure/generators/code_generator.py:42-52 | the loop returns the declarations joined by newlines |
| CodeGenerator.MocksSectionLines | src/infrastructure/generators/code_generator.py:42-52 | the mock section reads back as one declaration line per mock, in order |
| CodeGenerator.Prefixed | src/infrastructure/generators/code_generator.py:97-98 | one prefixed line per body line |
| CodeGenerator.PrefixedAt | src/infrastructure/generators/code_generator.py:97-98 | line k is the prefix followed by body line k |
| CodeGenerator.GenerateTestCase | src/infrastructure/generators/code_generator.py:82-106 | the loop returns the it-block text |
| CodeGenerator.TestCaseLine | src/infrastructure/generators/code_generator.py:90-104 | each it-block line is one line starting with the block's indentation |
| CodeGenerator.TestCaseSplits | src/infrastructure/generators/code_generator.py:82-106 | the it-block text splits back into its lines, all at the block's level |
| CodeGenerator.TestCaseShape | src/infrastructure/generators/code_generator.py:82-106 | body lines plus two (three with the default assertion when the body is empty), "async () => {" exactly when async, each body line one level deeper, closed by "});" at the level; a string body is one line |
| CodeGenerator.TestEntriesStep | src/infrastructure/generators/code_generator.py:69-71 | one more test case adds its text and an empty line |
| CodeGenerator.NestedEntriesStep | src/infrastructure/generators/code_generator.py:74-76 | one more nested describe adds its block and an empty line |
| CodeGenerator.DescribeFinish | src/infrastructure/generators/code_generator.py:59-80 | opening line, hook, test entries, nested entries, closing line, in that order |
| CodeGenerator.AppendTests | src/infrastructure/generators/code_generator.py:69-71 | the test loop appends each test case one level deeper, then an empty line |
| CodeGenerator.AppendNested | src/infrastructure/generators/code_generator.py:74-76 | the nested loop appends each nested block one level deeper, then an empty line |
| CodeGenerator.GenerateDescribeBlock | src/infrastructure/generators/code_generator.py:54-80 | the recursive method returns the describe-block text |
| CodeGenerator.AllAtDeeper | src/infrastructure/generators/code_generator.py:56-63 | a line indented one level deeper is indented at least as deep |
| CodeGenerator.ConcatAllAt | src/infrastructure/generators/code_generator.py:80 | joined line lists keep each list's indentation |
| CodeGenerator.HooksAt | src/infrastructure/generators/code_generator.py:62-66 | the beforeEach hook lines sit one level deeper than the block |
| CodeGenerator.TestEntriesAt | src/infrastructure/generators/code_generator.py:69-71 | the test entries sit at the level they were written at |
| CodeGenerator.NestedEntriesAt | src/infrastructure/generators/code_generator.py:74-76 | the nested entries sit at the level they were written at |
| CodeGenerator.DescribeMiddleAt | src/infrastructure/generators/code_generator.py:61-76 | everything between the opening and the closing line sits one level deeper |
| CodeGenerator.FramedJoin | src/infrastructure/generators/code_generator.py:59-80 | pieces one level deeper between an opening and a closing line at the level give a well-indented block |
| CodeGenerator.DescribeShape | src/infrastructure/generators/code_generator.py:54-80 | a describe block opens with "describe('name', () => {" and closes with "});" at its level, every line in between nested at least one level deeper |
| CodeGenerator.DescribeTexts | src/infrastructure/generators/code_generator.py:33-34 | one block per describe |
| CodeGenerator.DescribeTextsAt | src/infrastructure/generators/code_generator.py:33-34 | block k is describe k at level 0 |
| CodeGenerator.GenerateTestFile | src/infrastructure/generators/code_generator.py:16-36 | the method returns the sections joined by blank lines plus a final newline |
| CodeGenerator.SectionsAsGroups | src/infrastructure/generators/code_generator.py:22-34 | each section reads back as its group of lines |
| CodeGenerator.TestFileLayout | src/infrastructure/generators/code_generator.py:16-36 | imports if any, mocks if any, then each describe block, one blank line between sections and a final newline; "\n" when everything is empty |
| CodeGenerator.GenerateSplitFile | src/infrastructure/generators/code_generator.py:108-120 | a split file is a test file with one describe named after the category, holding the tests, no hook and nothing nested |
| CodeGenerator.SplitFileDescribe | src/infrastructure/generators/code_generator.py:115-120 | the split file's block is "describe('category', () => {", the test entries one level deep, "});" |
| CodeGenerator.ExportLines | src/infrastructure/generators/code_generator.py:131-134 | one exported declaration per mock |
| CodeGenerator.ExportLinesAt | src/infrastructure/generators/code_generator.py:131-134 | declaration k is "export " followed by the test file's declaration of mock k |
| CodeGenerator.HelperTexts | src/infrastructure/generators/code_generator.py:139-140 | one helper text per helper |
| CodeGenerator.GenerateUtilsFile | src/infrastructure/generators/code_generator.py:122-142 | the method returns the utilities-file text |
| CodeGenerator.JoinOneLine | src/infrastructure/generators/code_generator.py:150 | joined one-line parameters stay on one line |
| CodeGenerator.HelperLines | src/infrastructure/generators/code_generator.py:144-154 | a helper reads back as signature, body indented by two spaces, closing brace; defaults helperFunction, no parameters, return null; |
| CodeGenerator.UtilsFileLines | src/infrastructure/generators/code_generator.py:122-142 | the utilities file is its sections separated by blank lines, with a final newline |
| CodeGenerator.MockPartSingles | src/infrastructure/generators/code_generator.py:129-134 | the mock part is the heading and one exported line per mock, each a single line |
| CodeGenerator.UtilsFileMocks | src/infrastructure/generators/code_generator.py:122-142 | a utilities file with mocks opens with "// Mock Data" and then each mock's exported declaration after an empty line |
| FileStructureGenerator.SplitFiles | src/infrastructure/generators/file_structure_generator.py:40-50 | one split file per number |
| FileStructureGenerator.SplitFilesAt | src/infrastructure/generators/file_structure_generator.py:41-50 | split file k is the one numbered k + 1 |
| FileStructureGenerator.GenerateSplitStructure | src/infrastructure/generators/file_structure_generator.py:26-57 | the loop returns the split layout |
| FileStructureGenerator.NatToStringInjective | src/infrastructure/generators/file_structure_generator.py:43-47 | different file numbers are written differently |
| FileStructureGenerator.SplitSuffixInjective | src/infrastructure/generators/file_structure_generator.py:42-47 | two suffixes of one strategy agree only for the same number |
| FileStructureGenerator.SplitFileFacts | src/infrastructure/generators/file_structure_generator.py:37-50 | each split file lies beside the original, is named by the base name (.spec and .test removed) and its suffix, and ends in .spec.ts |
| FileStructureGenerator.SplitNamesDistinct | src/infrastructure/generators/file_structure_generator.py:41-50 | split files with different numbers have different names |
| FileStructureGenerator.SplitStructureSpec | src/infrastructure/generators/file_structure_generator.py:26-57 | as many files as the split count (none for a count below one), category/part/split numbered from 1, all distinct and beside the original; the base and only directory is the original's parent |
| FileStructureGenerator.ExtractSharedSpec | src/infrastructure/generators/file_structure_generator.py:59-72 | three files beside the original: test-utils.ts, test-fixtures.ts, test-mocks.ts; the parent is the base and only directory |
| FileStructureGenerator.ModuleFiles | src/infrastructure/generators/file_structure_generator.py:83-87 | one test file per module |
| FileStructureGenerator.ModuleFilesAt | src/infrastructure/generators/file_structure_generator.py:84-87 | file k is the module directory joined with the lower-cased, hyphenated name of module k and .spec.ts |
| FileStructureGenerator.ModuleFileFacts | src/infrastructure/generators/file_structure_generator.py:84-87 | file k is the module directory joined with the safe name of module k and .spec.ts; for a module name without "/" it lies in the module directory under that name |
| FileStructureGenerator.GenerateModularStructure | src/infrastructure/generators/file_structure_generator.py:74-98 | the loop returns the modular layout |
| FileStructureGenerator.ModularStructureSpec | src/infrastructure/generators/file_structure_generator.py:74-98 | the base and only directory is "<base>.tests" beside the original; file k is that directory joined with the safe name of module k (no spaces or capitals, same length) and .spec.ts, directly inside it when the module name has no "/"; index.ts and shared.ts follow inside it |
| FileStructureGenerator.ModuleWithSlash | src/infrastructure/generators/file_structure_generator.py:85-86 | a module "a/b" puts its file in a sub-directory slug(a) of the module directory, under the name slug(b).spec.ts |
| FileStructureGenerator.RootedModule | src/infrastructure/generators/file_structure_generator.py:85-86 | a module "/b" gives the absolute path /slug(b).spec.ts, outside the module directory |
| FileStructureGenerator.SplitNamePlain | src/infrastructure/generators/file_structure_generator.py:37-49 | a split file's name is a single component |
| FileStructureGenerator.RenderAll | src/infrastructure/generators/file_structure_generator.py:138-139 | one rendered path per path |
| FileStructureGenerator.RenderAllAt | src/infrastructure/generators/file_structure_generator.py:138-139 | entry k is path k rendered |
| FileStructureGenerator.MigrationMapSpec | src/infrastructure/generators/file_structure_generator.py:131-140 | the map records the original, the description as strategy, the base path and every file and directory, rendered in order |
| FileStructureGenerator.SplitFileRendered | src/infrastructure/generators/file_structure_generator.py:49 | a split file renders as its directory, a slash and its name |
| FileStructureGenerator.MigrationMapOfSplit | src/infrastructure/generators/file_structure_generator.py:131-140 | the migration map of a split layout lists "<dir>/<base><suffix>" for each split number |
| StringUtils.Keep | src/shared/utils/string_utils.py:81 | removing characters leaves none of them and never lengthens the text |
| StringUtils.KeepAppend | src/shared/utils/string_utils.py:81 | removing characters from a concatenation removes them from each part |
| StringUtils.KeepNothing | src/shared/utils/string_utils.py:81 | a text with nothing to remove is unchanged |
| StringUtils.KeepMembers | src/shared/utils/string_utils.py:81 | only characters of the input survive |
| StringUtils.SplitGlued | src/shared/utils/string_utils.py:26 | the pieces of a split, glued, are the text without its separators |
| StringUtils.LowerTwice | src/shared/utils/string_utils.py:21 | lower-casing is idempotent |
| StringUtils.LowerNoUpper | src/shared/utils/string_utils.py:21 | a text without capitals is its own lower case |
| StringUtils.LowerCapitalize | src/shared/utils/string_utils.py:30-36 | capitalising changes only case |
| StringUtils.BreakCaseErased | src/shared/utils/string_utils.py:19 | the camel-case substitution inserts nothing but the separator |
| StringUtils.BreakCaseHead | src/shared/utils/string_utils.py:19 | the substitution keeps the first character |
| StringUtils.BreakCaseBroken | src/shared/utils/string_utils.py:19 | after the substitution no lower-case letter is directly followed by a capital |
| StringUtils.BreakCaseNone | src/shared/utils/string_utils.py:19 | where no lower-case letter precedes a capital the substitution changes nothing |
| StringUtils.ReplaceChar | src/shared/utils/string_utils.py:17 | replacing one character by another changes exactly its occurrences |
| StringUtils.SeparatedCaseClean | src/shared/utils/string_utils.py:14-46 | the three steps leave no space, no other separator and no capital |
| StringUtils.SeparatedCaseIdempotent | src/shared/utils/string_utils.py:14-46 | a text already in separated form passes the three steps unchanged |
| StringUtils.SnakeCaseSpec | src/shared/utils/string_utils.py:14-21 | snake case has no space, hyphen or capital, and is idempotent |
| StringUtils.KebabCaseSpec | src/shared/utils/string_utils.py:38-46 | kebab case has no space, underscore or capital, and is idempotent |
| StringUtils.CaseWords | src/shared/utils/string_utils.py:26 | the split on hyphens, underscores and whitespace is never empty |
| StringUtils.CapitalizedFolds | src/shared/utils/string_utils.py:36 | ignoring case, the capitalised words glued are the words glued |
| StringUtils.CamelFolds | src/shared/utils/string_utils.py:30 | ignoring case, the camel-case word list glued is the words glued |
| StringUtils.CamelPascalSpec | src/shared/utils/string_utils.py:23-36 | camel case lower-cases the first word and capitalises the rest, pascal case capitalises all; both have the same length, are the input without separators ignoring case, and hold no separator |
| StringUtils.NoSeparatorLeft | src/shared/utils/string_utils.py:26-36 | case changes never make a separator |
| StringUtils.SlicePrefix | src/shared/utils/string_utils.py:54 | a prefix slice, a negative bound counting from the end |
| StringUtils.TruncateSpec | src/shared/utils/string_utils.py:48-54 | text within the limit unchanged; otherwise exactly the limit long and ending in the suffix when the suffix fits; the prefix before the suffix sliced from the end when it does not |
| StringUtils.TruncateBelowSuffix | src/shared/utils/string_utils.py:48-54 | "abcdef" truncated at 1 with "..." is "abcd...", longer than the limit |
| StringUtils.NonEmptyGlued | src/shared/utils/string_utils.py:68 | dropping empty pieces changes nothing glued |
| StringUtils.WordsHaveNoSpace | src/shared/utils/string_utils.py:68 | each word is a run of non-whitespace |
| StringUtils.NonEmptyMembers | src/shared/utils/string_utils.py:68 | the non-empty pieces are pieces |
| StringUtils.CountWordsSpec | src/shared/utils/string_utils.py:65-68 | the count is the number of whitespace-free words, which glued are the text without whitespace; 0 exactly for an all-whitespace text |
| StringUtils.Squeeze | src/shared/utils/string_utils.py:85 | squeezing keeps the ends and never lengthens |
| StringUtils.SqueezeNoDouble | src/shared/utils/string_utils.py:85 | no two underscores touch after squeezing |
| StringUtils.SqueezeKeep | src/shared/utils/string_utils.py:85 | squeezing removes only underscores |
| StringUtils.SqueezeAll | src/shared/utils/string_utils.py:85 | squeezing only removes characters |
| StringUtils.SqueezeNone | src/shared/utils/string_utils.py:85 | squeezing a text without touching underscores changes nothing |
| StringUtils.LStripUnderscores | src/shared/utils/string_utils.py:86 | the left strip is a suffix removing only underscores, not starting with one |
| StringUtils.RStripUnderscores | src/shared/utils/string_utils.py:86 | the right strip is a prefix removing only underscores, not ending with one |
| StringUtils.StripUnderscores | src/shared/utils/string_utils.py:86 | the stripped text neither starts nor ends with an underscore |
| StringUtils.StripUnderscoresSlice | src/shared/utils/string_utils.py:86 | stripping takes a slice with only underscores outside it |
| StringUtils.StripUnderscoresNone | src/shared/utils/string_utils.py:86 | a text with no underscore at either end is its own strip |
| StringUtils.StripUnderscoresKeep | src/shared/utils/string_utils.py:86 | stripping removes only underscores |
| StringUtils.KeepAfterReplace | src/shared/utils/string_utils.py:83 | spaces turned into underscores then removed with the underscores removes both |
| StringUtils.KeepUnsafe | src/shared/utils/string_utils.py:81-83 | removing forbidden characters, then spaces and underscores, removes all three |
| StringUtils.ReplacedSafe | src/shared/utils/string_utils.py:81-83 | once forbidden characters are gone, turning spaces into underscores leaves only safe characters |
| StringUtils.SanitizeFilenameChars | src/shared/utils/string_utils.py:77-86 | a sanitised name holds no forbidden character, no space and no two touching underscores |
| StringUtils.SanitizeFilenameKeeps | src/shared/utils/string_utils.py:77-86 | apart from underscores, a sanitised name is the input without forbidden characters and spaces |
| StringUtils.SanitizeFilenameSpec | src/shared/utils/string_utils.py:77-86 | the sanitised name is safe, squeezed, stripped of underscores at both ends, and loses nothing else |
| StringUtils.SanitizeFilenameFixed | src/shared/utils/string_utils.py:77-86 | a safe name without underscores at its ends passes unchanged |
| StringUtils.SanitizeFilenameIdempotent | src/shared/utils/string_utils.py:77-86 | sanitising is idempotent |
| StringUtils.Spaces | src/shared/utils/string_utils.py:91 | n spaces, none for a non-positive n |
| StringUtils.LinesNoNewline | src/shared/utils/string_utils.py:93 | the pieces of a newline split hold no newline |
| StringUtils.PadLinesPadded | src/shared/utils/string_utils.py:92-93 | each padded line starts with the padding unless it is blank |
| StringUtils.PadNothing | src/shared/utils/string_utils.py:92-93 | padding with nothing changes no line |
| StringUtils.IndentSpec | src/shared/utils/string_utils.py:88-93 | the result's lines are the input's lines, each non-blank one behind the spaces; a non-positive count changes nothing |
| StringUtils.NonBlankSubseq | src/shared/utils/string_utils.py:98 | the kept lines keep their order |
| StringUtils.NonBlankMembers | src/shared/utils/string_utils.py:98 | the kept lines are exactly the non-blank ones |
| StringUtils.NonBlankTwice | src/shared/utils/string_utils.py:98 | filtering twice is filtering once |
| StringUtils.RemoveEmptyLinesSpec | src/shared/utils/string_utils.py:95-99 | the result's lines are the non-blank lines in order, and removing again changes nothing |
| StringUtils.WrapText | src/shared/utils/string_utils.py:101-126 | the loop returns the wrapped text |
| StringUtils.WrapFlush | src/shared/utils/string_utils.py:112-116 | a word that overflows a non-empty line closes it and starts the next |
| StringUtils.WrapAlone | src/shared/utils/string_utils.py:117-118 | a word that overflows an empty line becomes a line by itself |
| StringUtils.WrapAppend | src/shared/utils/string_utils.py:119-121 | a word that fits joins the line being filled |
| StringUtils.WrapRunInv | src/shared/utils/string_utils.py:109-121 | the loop keeps the wrapping invariant from the first word to the last |
| StringUtils.JoinSpaceLength | src/shared/utils/string_utils.py:114 | a line of words joined by single spaces is the words' length plus the gaps |
| StringUtils.WrapGroupsSpec | src/shared/utils/string_utils.py:101-126 | the lines hold every word in order, none is empty, a line of several words fits the width, and each line is full: the next line's first word would overflow it |
| StringUtils.WrappedSpec | src/shared/utils/string_utils.py:101-126 | the result's lines are the word lines joined by spaces, and it is empty exactly when the text has no words |
| Text.Lower | src/infrastructure/generators/import_optimizer.py:37 | lower-casing keeps the length and maps each character |
| Text.Capitalize | src/shared/utils/string_utils.py:30-36 | the first character upper-cased, the rest lower-cased |
| Text.StripEmptyIffAllSpace | src/shared/utils/string_utils.py:92-98 | a line strips to nothing exactly when all of it is whitespace |
| Text.LStripSpaces | src/infrastructure/parsers/import_parser.py:59 | leading whitespace before a text that starts otherwise is all removed |
| Text.RStripSpaces | src/infrastructure/parsers/import_parser.py:59 | trailing whitespace after a text that ends otherwise is all removed |
| Text.RemoveAllFrom | src/application/services/planning_service.py:126 | replacing with nothing only removes characters |
| Text.StripUntrimmed | src/infrastructure/generators/import_optimizer.py:83 | a text with no whitespace at either end is its own strip |
| Text.SkipSpacesIsLStrip | src/infrastructure/generators/import_optimizer.py:86 | skipping whitespace lands where the left strip of the rest begins |
| Text.ContainsAt | src/infrastructure/generators/import_optimizer.py:37-41 | the substring test holds exactly when the text occurs at some index |
| Text.ContainsInfix | src/infrastructure/generators/import_optimizer.py:39-55 | a substring of a substring is a substring |
| Text.MissingCharNotContained | src/infrastructure/generators/import_optimizer.py:39-55 | a text lacking one of the characters of t does not contain t |
| Text.CountCharAppend | src/infrastructure/parsers/mock_parser.py:109 | occurrences of one character add up over a concatenation |
| Text.CountCharMissing | src/infrastructure/parsers/mock_parser.py:109 | a character that does not occur is counted zero times |
| Text.CountCharPresent | src/infrastructure/parsers/mock_parser.py:109 | a character that occurs is counted at least once |
| Text.CountPositiveIffContains | src/infrastructure/parsers/typescript_parser.py:86-92 | the occurrence count is positive exactly when the substring occurs |
| Text.ReplaceCharPointwise | src/shared/utils/string_utils.py:17 | replacing one character by another maps the text character by character |
| Text.SplitPiecesHaveNoSeparator | src/infrastructure/parsers/typescript_parser.py:27 | no piece of a split holds a separator |
| Text.JoinSplit | src/shared/utils/string_utils.py:92-93 | joining the pieces of a split with the separator gives back the text |
| Text.SplitJoin | src/shared/utils/string_utils.py:98-99 | splitting lines joined with a separator they lack gives back the lines |
| Text.SplitAppend | src/infrastructure/parsers/typescript_parser.py:27 | splitting at a separator cuts the text into the pieces before and after it |
| Text.LinesJoin | src/infrastructure/generators/code_generator.py:80 | the lines of texts joined by newlines are each text's lines in turn |
| Text.LinesJoinSpaced | src/infrastructure/generators/code_generator.py:36 | the lines of texts joined by blank lines are each text's lines with an empty line between neighbours |
| Text.TrailingNewline | src/infrastructure/generators/code_generator.py:36 | a final newline adds one empty line |
| Text.JoinEmpty | src/infrastructure/generators/import_optimizer.py:142 | the joined text is empty only for no pieces or one empty piece |
| Text.BeforeFirst | src/infrastructure/generators/import_optimizer.py:83 | the part before the first separator is a prefix |
| Text.Words | src/shared/utils/string_utils.py:68 | the whitespace split gives only non-empty words |
| Text.NatToString | src/infrastructure/generators/file_structure_generator.py:43-47 | a number is written as a non-empty run of digits |
| StringOrder.BelowIrreflexive | src/infrastructure/generators/import_optimizer.py:59 | no string sorts below itself |
| StringOrder.BelowTransitive | src/infrastructure/generators/import_optimizer.py:59 | the string order is transitive |
| StringOrder.BelowTotal | src/infrastructure/generators/import_optimizer.py:59 | any two different strings are ordered one way or the other |
| StringOrder.InsertMultiset | src/infrastructure/generators/import_optimizer.py:59 | inserting adds exactly the element |
| StringOrder.InsertSorted | src/infrastructure/generators/import_optimizer.py:59 | inserting into a sorted list keeps it sorted |
| StringOrder.InsertWithKey | src/infrastructure/generators/import_optimizer.py:59 | an inserted element goes after every element with the same key |
| StringOrder.SortBySpec | src/infrastructure/generators/import_optimizer.py:59 | sorting by a key is a permutation, sorted by the key, with elements of equal key in input order |
| Paths.ChildByComponents | src/infrastructure/generators/file_structure_generator.py:49 | joining a name reads its components between the slashes, dropping empty ones and "."; a name starting with "/" replaces the path with an absolute one |
| Paths.ComponentsOfComponent | src/infrastructure/generators/file_structure_generator.py:49 | a name without "/" (not empty, not ".") reads as that one component |
| Paths.ComponentsOfSlashed | src/infrastructure/generators/file_structure_generator.py:85-86 | the components of "a/b" are those of a followed by those of b |
| Paths.ChildInverse | src/infrastructure/generators/file_structure_generator.py:49 | for a single component, a child's parent is the directory it was put in and its name the component it was given |
| Paths.ChildOfSlashed | src/infrastructure/generators/file_structure_generator.py:85-86 | joining "a/b" is joining a and then b: the result lies in the directory p / a, not in p, and is named b |
| Paths.ChildOfRooted | src/infrastructure/generators/file_structure_generator.py:85-86 | joining "/b" below any path gives the absolute path /b |
| Paths.ParentChild | src/infrastructure/generators/file_structure_generator.py:38-49 | a path with a component is its parent's child by its name |
| Paths.Render | src/infrastructure/generators/file_structure_generator.py:135-139 | a rendered path is never empty |
| Paths.RenderChild | src/infrastructure/generators/file_structure_generator.py:135-139 | rendering the child by a single component appends a slash and the name, except directly below "." or the root |
| Paths.Suffix | src/infrastructure/generators/file_structure_generator.py:37 | a suffix is empty or a dot followed by at least one character and no further dot |
| Paths.StemSuffix | src/infrastructure/generators/file_structure_generator.py:37 | stem and suffix split the name |
| Paths.Slug | src/infrastructure/generators/file_structure_generator.py:85 | a module name made safe keeps its length and has no space or capital |
| Paths.BaseNamePlain | src/infrastructure/generators/file_structure_generator.py:37 | a base name never holds "/" |
| Paths.SlugAt | src/infrastructure/generators/file_structure_generator.py:85 | each character of the safe name is the lower-cased character at the same place, a space turned into "-" |
| Paths.SlugAppend | src/infrastructure/generators/file_structure_generator.py:85 | the safe name of a concatenation is the concatenation of the safe names |
| Paths.SlugOfSlashed | src/application/services/planning_service.py:129 | the safe name of "a/b" is the safe name of a, "/", and the safe name of b |
| Paths.SlugKeepsSlashesAndDots | src/infrastructure/generators/file_structure_generator.py:85 | a safe name holds "/" or "." exactly where the name does |
| Paths.SlugOfComponent | src/infrastructure/generators/file_structure_generator.py:85 | the safe name of a single component is a single component |
| Paths.BaseNameExample | src/infrastructure/generators/file_structure_generator.py:37 | the base of src/test.spec.ts is test |
| Subsequences.SubseqMembers | src/infrastructure/generators/import_optimizer.py:61-73 | a filter's result holds only elements of its input |

## Left out

- File system and I/O. The following read or write files, print, or time the run: `AnalysisService.analyze_directory` and `_analyze_file`, `FileStructureGenerator.create_structure` and `cleanup_structure` (including the dry-run printing), and the report and presentation code. The parsers take the file's text as a parameter instead.
- Whether a source file exists (`plan_validator.py:73`) is a set of existing paths passed to the validator. The validator does not touch the file system.
- Clock and randomness. Timestamps (`created_at`, `executed_at`, `last_seen`) are uninterpreted naturals passed in by the caller. Plan identifiers, which come from `uuid.uuid4()`, are passed in one per file. `CodeGenerator.generate_file_header` and `_get_timestamp` only format the current time and are not modelled.
- Floating point.
  - Complexity and quality scores, which only ever hold whole numbers, are integers. The out-of-range message therefore shows the score as a whole number (`got 150`); a score passed in as a float would print with its decimal part (`got 150.0`).
  - Plan confidences, the assertion ratio, the pattern percentage and confidence, and the mean confidence of `generate_summary` are exact reals, so IEEE rounding (at a band boundary, say) is not reproduced.
  - `QualityAnalyzer.calculate_maintainability_index` uses a logarithm and is not modelled.
- `to_dict`, `RefactorPlan.get_summary` and `FileMetadata.size_kb`/`code_density` are presentation and serialisation only and are not modelled.
- `StringUtils.strip_comments` and `extract_quoted_strings` rely on multi-line and DOTALL regular-expression semantics and are not modelled.
- Regular expressions are written as matcher functions. Character classes are ASCII: `\s` is ASCII whitespace (including `\x1c`-`\x1f`), `\w` is ASCII letters, digits and `_`, and `lower`/`upper`/`capitalize` change ASCII letters only. Unicode case mapping and whitespace are not modelled.
- Dictionaries with arbitrary keys (the describe, test, mock and helper dictionaries of the code generator) are datatypes with one field per key the code reads. A missing key is `None` where the code supplies a default. Other keys are not modelled.
- Paths.Child: `pathlib` keeps a root of exactly two slashes (`//x`) apart from `/`; the model joins such a name as the ordinary absolute path `/x`.
- Paths.ChildInverse, Paths.RenderChild and the "lies in the directory" halves of PlanningService.CategoryOperationsShape and FileStructureGenerator.ModularStructureSpec: stated for names that are single components. A category or module name holding "/" adds directory levels, and one starting with "/" leaves the planned directory; PlanningService.CategoryWithSlash, FileStructureGenerator.ModuleWithSlash and FileStructureGenerator.RootedModule state those cases.
- CodeGenerator.GenerateSplitFile: takes no `original_file` parameter, because the source never reads it.
- StringUtils.CamelCase: the source's `if not words` guard is not modelled, because `re.split` never returns an empty list (`StringUtils.CaseWords` has at least one piece).
- ImportParser.ImportLineMatches: the converse of `ImportMatch` is stated for lines with single spaces around "from" and a single-quoted source. Lines that the pattern also accepts, with wider whitespace or double quotes, are covered only by the one-way contract of `ImportMatch`.
- SmellDetector.CheckMocks, SmellDetector.DetectIn and SmellDetector.Detect: their own contracts state only how many smells they yield. The conditions under which each smell appears are stated by `SmellDetector.DetectConditions`.
- SmellDetector.GetSummary: the source keeps the severity as a free string. The model uses a three-valued type, so every smell is counted under exactly one of high, medium and low.
- AnalysisService.CalculateStatistics: requires every file to have its complexity computed. The source raises an `AttributeError` for a file without one, and that error path is not modelled.
- PlanValidator.Conflicts: the overlapping-targets entry carries the set of shared paths. The source formats that set into its message in Python's set iteration order, which is not modelled.
- TypeScriptParser.AcceptedSuffixes: states the accepted file-name examples of the unit tests for any stem, rather than for the literal paths of the tests.
- AnalysisExamples.CommentCountExample and AnalysisExamples.BlankCountExample: the test texts are written as their lines joined with newlines, not as one string literal.
- Loop bodies that are separate methods. These are `CodeGenerator.AppendTests`, `AppendNested`, `MockParser.CaptureMock`, `PlanValidator.CheckRow`, `CheckPair`, `PlanningService.PlanFileAt`, `SettleFile`, `DecideFor`, `NewDraft`, `ReadyDraft`, `TestStructureParser.TopStep` and `ChildStep`. Each is called from the loop it belongs to, where the source writes the body inline.
- Concurrency, configuration loading, caching, persistence and the command-line interface are outside the modelled core. In particular, `PlanningService.generate_plans` called without a file list fetches the files from the repository (`find_needing_refactoring()`, `planning_service.py:28-29`); the model always takes the list as a parameter.

/**
 * The plan validator: five checks a refactoring plan must pass before it
 * is executed, run in a fixed order with the first failure reported; the
 * batch filter that keeps the plans that pass; and the pairwise conflict
 * report. Whether a source file exists is read from a given set of
 * existing paths.
 */
module PlanValidator {
  import opened Wrappers
  import opened Text
  import opened Paths
  import opened RefactorPlanEntity

  const MinConfidence: real := 0.3
  const MaxOperations: nat := 50

  /** The actions an operation may carry. */
  predicate KnownAction(action: string) {
    action == "create" || action == "modify" || action == "delete"
  }

  /** Each way a plan can fail validation; the exception's message is `Message`. */
  datatype Violation =
    | EmptyId
    | EmptyDescription
    | EmptyReason
    | MissingSource
    | NoOperations
    | TooManyOperations(count: nat)
    | MissingAction(index: nat)
    | InvalidAction(index: nat, action: string)
    | ConfidenceOutOfRange
    | ConfidenceTooLow
    | WrongStatus(status: PlanStatus)

  function Message(v: Violation): string {
    match v
    case EmptyId => "Plan ID cannot be empty"
    case EmptyDescription => "Plan description cannot be empty"
    case EmptyReason => "Plan reason cannot be empty"
    case MissingSource => "Source file does not exist"
    case NoOperations => "Plan must have at least one operation"
    case TooManyOperations(_) => "Plan has too many operations (max: 50)"
    case MissingAction(i) => "Operation " + NatToString(i) + " missing action"
    case InvalidAction(_, a) => "Invalid operation action: " + a
    case ConfidenceOutOfRange => "Confidence must be between 0 and 1"
    case ConfidenceTooLow => "Confidence too low (min: 0.3)"
    case WrongStatus(_) => "Plan must be in DRAFT or READY status for validation"
  }

  /** What each violation says about the plan, independently of the order the checks run in. */
  predicate Violates(p: PlanState, existing: set<Path>, v: Violation) {
    match v
    case EmptyId => p.id == []
    case EmptyDescription => p.description == []
    case EmptyReason => p.reason == []
    case MissingSource => p.sourceFile !in existing
    case NoOperations => p.operations == []
    case TooManyOperations(n) => n == |p.operations| && n > MaxOperations
    case MissingAction(i) => i < |p.operations| && p.operations[i].action == []
    case InvalidAction(i, a) => i < |p.operations| && p.operations[i].action == a && !KnownAction(a)
    case ConfidenceOutOfRange => !(0.0 <= p.confidence <= 1.0)
    case ConfidenceTooLow => p.confidence < MinConfidence
    case WrongStatus(s) => s == p.status && s != Draft && s != Ready
  }

  /** A plan with every required field, an existing source, 1 to 50 known operations, enough confidence and an open status. */
  predicate Valid(p: PlanState, existing: set<Path>) {
    && p.id != [] && p.description != [] && p.reason != []
    && p.sourceFile in existing
    && 1 <= |p.operations| <= MaxOperations
    && (forall i :: 0 <= i < |p.operations| ==> KnownAction(p.operations[i].action))
    && MinConfidence <= p.confidence <= 1.0
    && (p.status == Draft || p.status == Ready)
  }

  /** The check a violation belongs to, in the order the checks run; the operation checks share one stage. */
  function Stage(v: Violation): nat {
    match v
    case EmptyId => 0
    case EmptyDescription => 1
    case EmptyReason => 2
    case MissingSource => 3
    case NoOperations => 4
    case TooManyOperations(_) => 5
    case MissingAction(_) => 6
    case InvalidAction(_, _) => 6
    case ConfidenceOutOfRange => 7
    case ConfidenceTooLow => 8
    case WrongStatus(_) => 9
  }

  /** Whether the checks would meet `v` before `w`: by stage, then by operation index, missing before invalid. */
  predicate Precedes(v: Violation, w: Violation) {
    Stage(v) < Stage(w)
    || (Stage(v) == 6 && Stage(w) == 6
        && (v.index < w.index || (v.index == w.index && v.MissingAction? && w.InvalidAction?)))
  }

  /** `_validate_basic_info` */
  function CheckBasicInfo(p: PlanState): Result<(), Violation> {
    if p.id == [] then Err(EmptyId)
    else if p.description == [] then Err(EmptyDescription)
    else if p.reason == [] then Err(EmptyReason)
    else Ok(())
  }

  /** `_validate_source_file`: a path object is never empty, so only existence can fail. */
  function CheckSourceFile(p: PlanState, existing: set<Path>): Result<(), Violation> {
    if p.sourceFile !in existing then Err(MissingSource) else Ok(())
  }

  /** The per-operation loop of `_validate_operations`, from operation `i` on. */
  function CheckEachOperation(ops: seq<FileOperation>, i: nat): (r: Result<(), Violation>)
    decreases |ops| - i
  {
    if i >= |ops| then Ok(())
    else if ops[i].action == [] then Err(MissingAction(i))
    else if !KnownAction(ops[i].action) then Err(InvalidAction(i, ops[i].action))
    else CheckEachOperation(ops, i + 1)
  }

  /** `_validate_operations`; a target path is never empty, so it is not checked. */
  function CheckOperations(p: PlanState): Result<(), Violation> {
    if p.operations == [] then Err(NoOperations)
    else if |p.operations| > MaxOperations then Err(TooManyOperations(|p.operations|))
    else CheckEachOperation(p.operations, 0)
  }

  /** `_validate_confidence` */
  function CheckConfidence(p: PlanState): Result<(), Violation> {
    if !(0.0 <= p.confidence <= 1.0) then Err(ConfidenceOutOfRange)
    else if p.confidence < MinConfidence then Err(ConfidenceTooLow)
    else Ok(())
  }

  /** `_validate_status` */
  function CheckStatus(p: PlanState): Result<(), Violation> {
    if p.status != Draft && p.status != Ready then Err(WrongStatus(p.status)) else Ok(())
  }

  /** `validate_plan`: the five checks in order, the first failure reported. */
  function ValidatePlan(p: PlanState, existing: set<Path>): Result<(), Violation> {
    var basic := CheckBasicInfo(p);
    if basic.Err? then basic
    else
      var source := CheckSourceFile(p, existing);
      if source.Err? then source
      else
        var operations := CheckOperations(p);
        if operations.Err? then operations
        else
          var confidence := CheckConfidence(p);
          if confidence.Err? then confidence
          else CheckStatus(p)
  }

  /** `validate_plan` on a plan object. */
  function Validate(plan: RefactorPlan, existing: set<Path>): Result<(), Violation>
    reads plan
  {
    ValidatePlan(plan.State(), existing)
  }

  /**
   * The operation loop passes exactly when every operation from `i` on has
   * a known action; otherwise it reports the first faulty operation, as a
   * missing action when the action is empty.
   */
  lemma {:induction false} CheckEachOperationSpec(ops: seq<FileOperation>, i: nat)
    ensures CheckEachOperation(ops, i).Ok? <==> forall k :: i <= k < |ops| ==> KnownAction(ops[k].action)
    ensures CheckEachOperation(ops, i).Err? ==>
              var v := CheckEachOperation(ops, i).error;
              && (v.MissingAction? || v.InvalidAction?)
              && i <= v.index < |ops|
              && (forall k :: i <= k < v.index ==> KnownAction(ops[k].action))
              && (v.MissingAction? <==> ops[v.index].action == [])
              && (v.InvalidAction? ==> v.action == ops[v.index].action && !KnownAction(v.action))
    decreases |ops| - i
  {
    if i < |ops| && ops[i].action != [] && KnownAction(ops[i].action) {
      CheckEachOperationSpec(ops, i + 1);
    }
  }

  /** The operation violations `p` has are exactly the faulty operations. */
  lemma OperationViolations(p: PlanState, existing: set<Path>, w: Violation)
    requires Stage(w) == 6 && Violates(p, existing, w)
    ensures w.index < |p.operations| && !KnownAction(p.operations[w.index].action)
  {
  }

  /** The result of one check, against the violations of its stages `lo` to `hi`. */
  ghost predicate CheckMeets(r: Result<(), Violation>, p: PlanState, existing: set<Path>, lo: nat, hi: nat) {
    && (r.Ok? <==> forall w :: lo <= Stage(w) <= hi ==> !Violates(p, existing, w))
    && (r.Err? ==>
          && lo <= Stage(r.error) <= hi && Violates(p, existing, r.error)
          && forall w :: lo <= Stage(w) <= hi && Violates(p, existing, w) ==> !Precedes(w, r.error))
  }

  /** `_validate_basic_info` reports the first of the three empty fields. */
  lemma BasicInfoMeets(p: PlanState, existing: set<Path>)
    ensures CheckMeets(CheckBasicInfo(p), p, existing, 0, 2)
  {
  }

  /** `_validate_source_file` fails exactly for a source that does not exist. */
  lemma SourceFileMeets(p: PlanState, existing: set<Path>)
    ensures CheckMeets(CheckSourceFile(p, existing), p, existing, 3, 3)
  {
  }

  /** `_validate_operations` reports no operations, then too many, then the first faulty operation. */
  lemma OperationsMeet(p: PlanState, existing: set<Path>)
    ensures CheckMeets(CheckOperations(p), p, existing, 4, 6)
  {
    CheckEachOperationSpec(p.operations, 0);
    var r := CheckOperations(p);
    if r.Ok? {
      forall w | 4 <= Stage(w) <= 6 && Violates(p, existing, w)
        ensures false
      {
        if Stage(w) == 6 {
          OperationViolations(p, existing, w);
        }
      }
    } else if p.operations != [] && |p.operations| <= MaxOperations {
      var v := r.error;
      forall w | 4 <= Stage(w) <= 6 && Violates(p, existing, w)
        ensures !Precedes(w, v)
      {
        if Stage(w) == 6 {
          OperationViolations(p, existing, w);
        }
      }
    }
  }

  /** `_validate_confidence` reports a confidence outside [0, 1] before one below the minimum. */
  lemma ConfidenceMeets(p: PlanState, existing: set<Path>)
    ensures CheckMeets(CheckConfidence(p), p, existing, 7, 8)
  {
  }

  /** `_validate_status` fails exactly for a status other than draft and ready. */
  lemma StatusMeets(p: PlanState, existing: set<Path>)
    ensures CheckMeets(CheckStatus(p), p, existing, 9, 9)
  {
    if CheckStatus(p).Ok? {
      forall w | Stage(w) == 9
        ensures !Violates(p, existing, w)
      {
        assert w.WrongStatus?;
      }
    } else {
      assert Stage(WrongStatus(p.status)) == 9 && Violates(p, existing, WrongStatus(p.status));
    }
  }

  /** Every violation belongs to one of the stages 0 to 9. */
  lemma StagesCovered(w: Violation)
    ensures Stage(w) <= 9
  {
  }

  /**
   * `validate_plan` passes exactly when the plan is valid, that is when it
   * has no violation at all. When it fails, it reports a violation the plan
   * has, and none of the plan's other violations would have been met
   * earlier.
   */
  lemma ValidatePlanSpec(p: PlanState, existing: set<Path>)
    ensures ValidatePlan(p, existing).Ok? <==> Valid(p, existing)
    ensures Valid(p, existing) <==> forall w :: !Violates(p, existing, w)
    ensures ValidatePlan(p, existing).Err? ==>
              var v := ValidatePlan(p, existing).error;
              Violates(p, existing, v) && forall w :: Violates(p, existing, w) ==> !Precedes(w, v)
  {
    BasicInfoMeets(p, existing);
    SourceFileMeets(p, existing);
    OperationsMeet(p, existing);
    ConfidenceMeets(p, existing);
    StatusMeets(p, existing);
    CheckEachOperationSpec(p.operations, 0);
    var r := ValidatePlan(p, existing);
    assert r.Ok? <==> forall w :: !Violates(p, existing, w) by {
      if r.Ok? {
        forall w
          ensures !Violates(p, existing, w)
        {
          StagesCovered(w);
        }
      }
    }
  }

  /** A plan that is fine apart from a confidence below 0.3 is refused for its confidence alone. */
  lemma LowConfidenceRefused(p: PlanState, existing: set<Path>)
    requires Valid(p.(confidence := 0.5), existing)
    requires 0.0 <= p.confidence < MinConfidence
    ensures ValidatePlan(p, existing) == Err(ConfidenceTooLow)
  {
    ValidatePlanSpec(p.(confidence := 0.5), existing);
    CheckEachOperationSpec(p.operations, 0);
  }

  // ---------------------------------------------------------------------
  // Batches
  // ---------------------------------------------------------------------

  /** The plans that pass validation, in their order. */
  function KeptPlans(plans: seq<RefactorPlan>, existing: set<Path>): seq<RefactorPlan>
    reads set p | p in plans
  {
    if plans == [] then []
    else
      var last := plans[|plans| - 1];
      KeptPlans(plans[..|plans| - 1], existing) + (if Validate(last, existing).Ok? then [last] else [])
  }

  /** The positions of the plans that pass, in order. */
  function KeptIndices(plans: seq<RefactorPlan>, existing: set<Path>): seq<nat>
    reads set p | p in plans
  {
    if plans == [] then []
    else
      KeptIndices(plans[..|plans| - 1], existing)
      + (if Validate(plans[|plans| - 1], existing).Ok? then [|plans| - 1] else [])
  }

  /**
   * The kept plans are an order-preserving subsequence of the input: the
   * `m`-th kept plan is the input plan at the `m`-th kept position, the
   * positions increase, and a position is kept exactly when its plan passes.
   */
  lemma {:induction false} KeptPlansSpec(plans: seq<RefactorPlan>, existing: set<Path>)
    ensures var ks := KeptIndices(plans, existing);
      && |KeptPlans(plans, existing)| == |ks|
      && (forall m, n :: 0 <= m < n < |ks| ==> ks[m] < ks[n])
      && (forall m :: 0 <= m < |ks| ==> ks[m] < |plans| && KeptPlans(plans, existing)[m] == plans[ks[m]])
      && (forall j :: 0 <= j < |plans| ==> (j in ks <==> Validate(plans[j], existing).Ok?))
    decreases |plans|
  {
    if plans != [] {
      var init := plans[..|plans| - 1];
      KeptPlansSpec(init, existing);
      assert forall j :: 0 <= j < |init| ==> init[j] == plans[j];
    }
  }

  /** `validate_batch`: the plans that pass validation, in their order. */
  method ValidateBatch(plans: seq<RefactorPlan>, existing: set<Path>) returns (valid: seq<RefactorPlan>)
    ensures valid == KeptPlans(plans, existing)
  {
    valid := [];
    for i := 0 to |plans|
      invariant valid == KeptPlans(plans[..i], existing)
    {
      assert plans[..i + 1][..i] == plans[..i];
      if Validate(plans[i], existing).Ok? {
        valid := valid + [plans[i]];
      }
    }
    assert plans[..|plans|] == plans;
  }

  // ---------------------------------------------------------------------
  // Conflicts
  // ---------------------------------------------------------------------

  /** Why two plans conflict: the same source file (by name), or the target paths they share. */
  datatype ConflictReason = SameSource(name: string) | OverlappingTargets(shared: set<Path>)

  /** One entry of the conflict report: the two plans' ids and the reason. */
  datatype Conflict = Conflict(first: string, second: string, reason: ConflictReason)

  /** The target paths of a plan's operations. */
  function Targets(ops: seq<FileOperation>): set<Path> {
    set i | 0 <= i < |ops| :: ops[i].targetPath
  }

  /** The entries for one pair of plans, the earlier one first. */
  function PairConflicts(p: PlanState, q: PlanState): (r: seq<Conflict>)
    ensures |r| <= 2
  {
    var shared := Targets(p.operations) * Targets(q.operations);
    (if p.sourceFile == q.sourceFile then [Conflict(p.id, q.id, SameSource(Name(p.sourceFile)))] else [])
    + (if shared != {} then [Conflict(p.id, q.id, OverlappingTargets(shared))] else [])
  }

  /**
   * A pair of plans conflicts on its source when both have the same source
   * file, and on its targets when their operations share target paths;
   * each entry names the earlier plan first.
   */
  lemma PairConflictsSpec(p: PlanState, q: PlanState)
    ensures Conflict(p.id, q.id, SameSource(Name(p.sourceFile))) in PairConflicts(p, q) <==> p.sourceFile == q.sourceFile
    ensures Conflict(p.id, q.id, OverlappingTargets(Targets(p.operations) * Targets(q.operations))) in PairConflicts(p, q)
            <==> Targets(p.operations) * Targets(q.operations) != {}
    ensures forall c :: c in PairConflicts(p, q) ==>
              && c.first == p.id && c.second == q.id
              && (c.reason.SameSource? ==> p.sourceFile == q.sourceFile && c.reason.name == Name(p.sourceFile))
              && (c.reason.OverlappingTargets? ==>
                    c.reason.shared == Targets(p.operations) * Targets(q.operations) && c.reason.shared != {})
  {
  }

  /** `pair` applied to element `i` with each element from `i + 1` up to (not including) `j`, in order. */
  function RowOf<T, U>(xs: seq<T>, pair: (T, T) -> seq<U>, i: nat, j: nat): seq<U>
    requires i < |xs| && j <= |xs|
    decreases j
  {
    if j <= i + 1 then [] else RowOf(xs, pair, i, j - 1) + pair(xs[i], xs[j - 1])
  }

  /** The rows of the first `n` elements, each paired with every later element. */
  function RowsUpTo<T, U>(xs: seq<T>, pair: (T, T) -> seq<U>, n: nat): seq<U>
    requires n <= |xs|
  {
    if n == 0 then [] else RowsUpTo(xs, pair, n - 1) + RowOf(xs, pair, n - 1, |xs|)
  }

  lemma RowsUpToStep<T, U>(xs: seq<T>, pair: (T, T) -> seq<U>, n: nat)
    requires n < |xs|
    ensures RowsUpTo(xs, pair, n + 1) == RowsUpTo(xs, pair, n) + RowOf(xs, pair, n, |xs|)
  {
  }

  /** The conflict report for a list of plans: each plan paired with every later one. */
  function Conflicts(ps: seq<PlanState>): seq<Conflict> {
    RowsUpTo(ps, PairConflicts, |ps|)
  }

  /** A row holds exactly the entries of its pairs. */
  lemma {:induction false} RowOfSpec<T, U>(xs: seq<T>, pair: (T, T) -> seq<U>, i: nat, j: nat, c: U)
    requires i < |xs| && j <= |xs|
    ensures c in RowOf(xs, pair, i, j) <==> exists k :: i < k < j && c in pair(xs[i], xs[k])
    decreases j
  {
    if j > i + 1 {
      RowOfSpec(xs, pair, i, j - 1, c);
      var last := pair(xs[i], xs[j - 1]);
      assert RowOf(xs, pair, i, j) == RowOf(xs, pair, i, j - 1) + last;
      if c in last {
        assert i < j - 1 < j && c in pair(xs[i], xs[j - 1]);
      }
      if exists k :: i < k < j && c in pair(xs[i], xs[k]) {
        var k :| i < k < j && c in pair(xs[i], xs[k]);
        if k < j - 1 {
          assert c in RowOf(xs, pair, i, j - 1);
        }
      }
    }
  }

  /** A row holds at most two entries per pair when no pair gives more. */
  lemma {:induction false} RowOfBound<T, U>(xs: seq<T>, pair: (T, T) -> seq<U>, i: nat, j: nat)
    requires i < |xs| && j <= |xs|
    requires forall x, y :: |pair(x, y)| <= 2
    ensures |RowOf(xs, pair, i, j)| <= 2 * j
    decreases j
  {
    if j > i + 1 {
      RowOfBound(xs, pair, i, j - 1);
    }
  }

  /** The rows up to `n` hold exactly the entries of the pairs whose earlier element is among the first `n`. */
  lemma {:induction false} RowsUpToSpec<T, U>(xs: seq<T>, pair: (T, T) -> seq<U>, n: nat, c: U)
    requires n <= |xs|
    ensures c in RowsUpTo(xs, pair, n) <==> exists i, k :: 0 <= i < n && i < k < |xs| && c in pair(xs[i], xs[k])
    decreases n
  {
    if n > 0 {
      RowsUpToSpec(xs, pair, n - 1, c);
      RowOfSpec(xs, pair, n - 1, |xs|, c);
      var row := RowOf(xs, pair, n - 1, |xs|);
      assert RowsUpTo(xs, pair, n) == RowsUpTo(xs, pair, n - 1) + row;
      if c in row {
        var k :| n - 1 < k < |xs| && c in pair(xs[n - 1], xs[k]);
        assert 0 <= n - 1 < n && n - 1 < k < |xs| && c in pair(xs[n - 1], xs[k]);
      }
      if c in RowsUpTo(xs, pair, n - 1) {
        var i, k :| 0 <= i < n - 1 && i < k < |xs| && c in pair(xs[i], xs[k]);
        assert 0 <= i < n && i < k < |xs| && c in pair(xs[i], xs[k]);
      }
      if exists i, k :: 0 <= i < n && i < k < |xs| && c in pair(xs[i], xs[k]) {
        var i, k :| 0 <= i < n && i < k < |xs| && c in pair(xs[i], xs[k]);
        if i < n - 1 {
          assert c in RowsUpTo(xs, pair, n - 1);
        } else {
          assert c in row;
        }
      }
    }
  }

  /** Adding a row of at most `2 * m` entries to `k` rows of at most `2 * m` each. */
  lemma BoundStep(a: nat, b: nat, k: nat, m: nat)
    requires a <= 2 * k * m && b <= 2 * m
    ensures a + b <= 2 * (k + 1) * m
  {
  }

  /** The rows of the first `n` elements, counted with two entries per pair at most. */
  lemma {:induction false} RowsUpToBound<T, U>(xs: seq<T>, pair: (T, T) -> seq<U>, n: nat)
    requires n <= |xs|
    requires forall x, y :: |pair(x, y)| <= 2
    ensures |RowsUpTo(xs, pair, n)| <= 2 * n * |xs|
    decreases n
  {
    if n > 0 {
      RowsUpToBound(xs, pair, n - 1);
      RowOfBound(xs, pair, n - 1, |xs|);
      var m, up, row := |xs|, RowsUpTo(xs, pair, n - 1), RowOf(xs, pair, n - 1, |xs|);
      assert RowsUpTo(xs, pair, n) == up + row;
      BoundStep(|up|, |row|, n - 1, m);
    }
  }

  /**
   * An entry is reported exactly when it is an entry of some pair of plans
   * `i < k`: a plan is paired only with the plans after it. Each pair gives
   * at most two entries.
   */
  lemma ConflictsSpec(ps: seq<PlanState>, c: Conflict)
    ensures c in Conflicts(ps) <==> exists i, k :: 0 <= i < k < |ps| && c in PairConflicts(ps[i], ps[k])
    ensures |Conflicts(ps)| <= 2 * |ps| * |ps|
  {
    RowsUpToSpec(ps, PairConflicts, |ps|, c);
    RowsUpToBound(ps, PairConflicts, |ps|);
  }

  /** Two plans on the same source file are always reported, the earlier one first. */
  lemma SameSourceReported(ps: seq<PlanState>, i: nat, k: nat)
    requires i < k < |ps| && ps[i].sourceFile == ps[k].sourceFile
    ensures Conflict(ps[i].id, ps[k].id, SameSource(Name(ps[i].sourceFile))) in Conflicts(ps)
  {
    ConflictsSpec(ps, Conflict(ps[i].id, ps[k].id, SameSource(Name(ps[i].sourceFile))));
  }

  /** `check_conflicts`: every plan paired with each later plan, row by row. */
  method CheckConflicts(plans: seq<RefactorPlan>) returns (conflicts: seq<Conflict>)
    ensures conflicts == Conflicts(States(plans))
  {
    ghost var ps := States(plans);
    conflicts := [];
    for i := 0 to |plans|
      invariant ps == States(plans)
      invariant conflicts == RowsUpTo(ps, PairConflicts, i)
    {
      conflicts := CheckRow(plans, ps, i, conflicts);
      RowsUpToStep(ps, PairConflicts, i);
    }
  }

  /** The inner loop of `check_conflicts`: plan `i` paired with each later plan, appended to the report. */
  method CheckRow(plans: seq<RefactorPlan>, ghost ps: seq<PlanState>, i: nat, report: seq<Conflict>)
    returns (conflicts: seq<Conflict>)
    requires i < |plans| && ps == States(plans)
    ensures conflicts == report + RowOf(ps, PairConflicts, i, |plans|)
  {
    var p1 := plans[i];
    conflicts := report;
    for j := i + 1 to |plans|
      invariant conflicts == report + RowOf(ps, PairConflicts, i, j)
    {
      conflicts := CheckPair(p1, plans[j], conflicts);
    }
  }

  /** The body of the inner loop: the entries for one pair appended to the report. */
  method CheckPair(p1: RefactorPlan, p2: RefactorPlan, report: seq<Conflict>) returns (conflicts: seq<Conflict>)
    ensures conflicts == report + PairConflicts(p1.State(), p2.State())
  {
    conflicts := report;
    if p1.sourceFile == p2.sourceFile {
      conflicts := conflicts + [Conflict(p1.id, p2.id, SameSource(Name(p1.sourceFile)))];
    }
    var overlaps := Targets(p1.operations) * Targets(p2.operations);
    if overlaps != {} {
      conflicts := conflicts + [Conflict(p1.id, p2.id, OverlappingTargets(overlaps))];
    }
  }
}

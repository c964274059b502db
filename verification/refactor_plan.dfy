/**
 * The refactoring plan entity: the operations planned for one source file,
 * their estimated impact, and the status the plan moves through.
 */
module RefactorPlanEntity {
  import opened Wrappers
  import opened Paths

  datatype RefactorAction = SplitByCategory | SplitByConcern | ExtractShared | KeepAsIs | Consolidate

  datatype PlanStatus = Draft | Ready | Executing | Completed | Failed | Skipped

  /** One file operation; `action` is "create", "modify" or "delete" by convention only. */
  datatype FileOperation = FileOperation(
    action: string,
    sourcePath: Option<Path>,
    targetPath: Path,
    content: Option<string>,
    reason: string)

  /** A point in time, kept uninterpreted. */
  type Timestamp = nat

  /** How many operations carry the given action. */
  function CountAction(ops: seq<FileOperation>, action: string): (n: nat)
    ensures n <= |ops|
  {
    if ops == [] then 0
    else (if ops[0].action == action then 1 else 0) + CountAction(ops[1..], action)
  }

  /** The three action counts together never exceed the number of operations. */
  lemma {:induction false} ActionCountsBounded(ops: seq<FileOperation>)
    ensures CountAction(ops, "create") + CountAction(ops, "modify") + CountAction(ops, "delete") <= |ops|
    decreases |ops|
  {
    if ops != [] {
      ActionCountsBounded(ops[1..]);
    }
  }

  /** Adding one operation raises exactly the count of its own action. */
  lemma {:induction false} CountActionSnoc(ops: seq<FileOperation>, op: FileOperation, action: string)
    ensures CountAction(ops + [op], action) == CountAction(ops, action) + (if op.action == action then 1 else 0)
    decreases |ops|
  {
    if ops == [] {
      assert [op][1..] == [];
    } else {
      assert (ops + [op])[1..] == ops[1..] + [op];
      CountActionSnoc(ops[1..], op, action);
    }
  }

  /** `calculate_estimated_impact`'s record. */
  function Impact(ops: seq<FileOperation>): (m: map<string, int>)
    ensures m.Keys == {"files_created", "files_modified", "files_deleted", "total_operations"}
    ensures m["total_operations"] == |ops|
    ensures m["files_created"] + m["files_modified"] + m["files_deleted"] <= m["total_operations"]
  {
    ActionCountsBounded(ops);
    map[
      "files_created" := CountAction(ops, "create"),
      "files_modified" := CountAction(ops, "modify"),
      "files_deleted" := CountAction(ops, "delete"),
      "total_operations" := |ops|]
  }

  datatype PlanState = PlanState(
    id: string,
    sourceFile: Path,
    action: RefactorAction,
    reason: string,
    description: string,
    operations: seq<FileOperation>,
    estimatedImpact: map<string, int>,
    confidence: real,
    priority: int,
    status: PlanStatus,
    executedAt: Option<Timestamp>,
    success: bool,
    errorMessage: Option<string>,
    filesCreated: seq<Path>,
    filesModified: seq<Path>,
    filesDeleted: seq<Path>)

  class RefactorPlan {
    var id: string
    var sourceFile: Path
    var action: RefactorAction
    var reason: string
    var description: string
    var operations: seq<FileOperation>
    var estimatedImpact: map<string, int>
    var confidence: real
    var priority: int
    var status: PlanStatus
    var executedAt: Option<Timestamp>
    var success: bool
    var errorMessage: Option<string>
    var filesCreated: seq<Path>
    var filesModified: seq<Path>
    var filesDeleted: seq<Path>

    /** A fresh plan: no operations, draft status, not yet successful. */
    constructor(id: string, sourceFile: Path, action: RefactorAction, reason: string, description: string)
      ensures this.id == id && this.sourceFile == sourceFile && this.action == action
      ensures this.reason == reason && this.description == description
      ensures operations == [] && estimatedImpact == map[] && confidence == 0.0 && priority == 1
      ensures status == Draft && executedAt == None && !success && errorMessage == None
      ensures filesCreated == [] && filesModified == [] && filesDeleted == []
    {
      this.id := id;
      this.sourceFile := sourceFile;
      this.action := action;
      this.reason := reason;
      this.description := description;
      operations := [];
      estimatedImpact := map[];
      confidence := 0.0;
      priority := 1;
      status := Draft;
      executedAt := None;
      success := false;
      errorMessage := None;
      filesCreated := [];
      filesModified := [];
      filesDeleted := [];
    }

    /** Every field of the plan, as one value. */
    function State(): PlanState
      reads this
    {
      PlanState(id, sourceFile, action, reason, description, operations, estimatedImpact, confidence,
                priority, status, executedAt, success, errorMessage, filesCreated, filesModified, filesDeleted)
    }

    /** `add_operation`: one operation at the end, earlier ones untouched, nothing else changed. */
    method AddOperation(op: FileOperation)
      modifies this
      ensures State() == old(State()).(operations := old(operations) + [op])
    {
      operations := operations + [op];
    }

    /** `calculate_estimated_impact`: only the impact record is replaced. */
    method CalculateEstimatedImpact()
      modifies this
      ensures State() == old(State()).(estimatedImpact := Impact(operations))
    {
      estimatedImpact := Impact(operations);
    }

    /** `mark_ready`: refused, with nothing changed, while there are no operations. */
    method MarkReady() returns (r: Result<(), string>)
      modifies this
      ensures r.Err? <==> old(operations) == []
      ensures r.Err? ==> State() == old(State())
      ensures r.Ok? ==> State() == old(State()).(estimatedImpact := Impact(operations), status := Ready)
      ensures r.Ok? ==> (IsExecutable() <==> confidence >= 0.5)
    {
      if operations == [] {
        return Err("Cannot mark plan as ready: no operations defined");
      }
      CalculateEstimatedImpact();
      status := Ready;
      r := Ok(());
    }

    /** `mark_executing`, with the clock reading passed in. */
    method MarkExecuting(now: Timestamp)
      modifies this
      ensures State() == old(State()).(status := Executing, executedAt := Some(now))
    {
      status := Executing;
      executedAt := Some(now);
    }

    /** `mark_completed`: the three file lists are replaced. */
    method MarkCompleted(created: seq<Path>, modified: seq<Path>, deleted: seq<Path>)
      modifies this
      ensures State() == old(State()).(status := Completed, success := true, filesCreated := created,
                                       filesModified := modified, filesDeleted := deleted)
    {
      status := Completed;
      success := true;
      filesCreated := created;
      filesModified := modified;
      filesDeleted := deleted;
    }

    /** `mark_failed` */
    method MarkFailed(message: string)
      modifies this
      ensures State() == old(State()).(status := Failed, success := false, errorMessage := Some(message))
    {
      status := Failed;
      success := false;
      errorMessage := Some(message);
    }

    /** `mark_skipped`: the success flag is left as it was. */
    method MarkSkipped(why: string)
      modifies this
      ensures State() == old(State()).(status := Skipped, errorMessage := Some(why))
    {
      status := Skipped;
      errorMessage := Some(why);
    }

    /** `is_executable` */
    predicate IsExecutable()
      reads this
    {
      status == Ready && |operations| > 0 && confidence >= 0.5
    }
  }

  /** The plans' states, in order. */
  function States(plans: seq<RefactorPlan>): (ss: seq<PlanState>)
    reads set p | p in plans
    ensures |ss| == |plans| && forall i :: 0 <= i < |plans| ==> ss[i] == plans[i].State()
  {
    seq(|plans|, i reads set p | p in plans requires 0 <= i < |plans| => plans[i].State())
  }

  /** One more plan adds its state at the end. */
  lemma StatesSnoc(plans: seq<RefactorPlan>, p: RefactorPlan)
    ensures States(plans + [p]) == States(plans) + [p.State()]
  {
  }

  /**
   * None of the transitions looks at the current status: from any state a
   * plan with operations can be readied, failed, skipped or completed,
   * including from a terminal state.
   */
  method TransitionsIgnoreStatus(p: RefactorPlan, op: FileOperation)
    modifies p
    ensures p.status == Ready
  {
    p.MarkFailed("failed");
    p.MarkCompleted([], [], []);
    p.MarkSkipped("skipped");
    p.AddOperation(op);
    var r := p.MarkReady();
    assert r.Ok?;
  }

  /** A plan that was never readied cannot execute; one readied with confidence 0.5 or more can. */
  method ReadyingEnablesExecution(p: RefactorPlan, op: FileOperation) returns (before: bool, after: bool)
    requires p.status == Draft && p.confidence >= 0.5
    modifies p
    ensures !before && after
  {
    before := p.IsExecutable();
    p.AddOperation(op);
    var _ := p.MarkReady();
    after := p.IsExecutable();
  }
}

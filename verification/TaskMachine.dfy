/**
 * One task as the runner executes it: a program counter and the reports it
 * sends. Step verdicts, approvals, deployments and the moment of cancellation
 * are chosen by the environment.
 */
module TaskMachine {
  import opened Collections
  import opened StatusTables

  datatype TaskSpec = TaskSpec(steps: nat, approvalRequired: bool, deploys: bool)

  datatype Outcome = Success | Failed | Cancelled | Skipped

  datatype Report =
    | TaskReport(task: TaskStatus)
    | StepReport(step: nat, status: StepStatus)

  /** The control plane's rows for one task. */
  datatype Row = Row(task: TaskStatus, steps: seq<StepStatus>)

  datatype Pc =
    | Unstarted
    | SkipTask
    | SkipRest(next: nat)
    | Start
    | Gate
    | Approved
    | RejectSteps(next: nat)
    | StepLoop(next: nat)
    | InStep(current: nat)
    | FailRest(failed: nat, next: nat)
    | Finishing
    | Deploying
    | Cancelling(steps: set<nat>, includeTask: bool)
    | Ended(outcome: Outcome)

  datatype Choice =
    | Proceed
    | Verdict(outcome: Outcome)
    | Approve | Reject
    | DeliverStep(step: nat) | DeliverTask

  datatype Move = Move(report: Option<Report>, pc: Pc)

  function StepsFrom(i: nat, n: nat): (r: set<nat>)
    ensures forall k: nat :: k in r <==> i <= k < n
    decreases n - i
  {
    if i >= n then {} else {i} + StepsFrom(i + 1, n)
  }

  /** Where the environment decides; everywhere else the task just proceeds. */
  predicate Waits(pc: Pc) {
    pc.Gate? || pc.InStep? || pc.Deploying? || pc.Cancelling?
  }

  /**
   * What the task does next; None when `choice` does not apply. A cancelled
   * step or approval wait presupposes that the run was aborted.
   */
  function LocalMove(spec: TaskSpec, aborted: bool, pc: Pc, choice: Choice): Option<Move> {
    if !Waits(pc) && choice != Proceed then None
    else match pc
    case Unstarted => None
    case Ended(_) => None
    case SkipTask => Some(Move(Some(TaskReport(TaskSkipped)), SkipRest(0)))
    case SkipRest(k) =>
      if k < spec.steps then Some(Move(Some(StepReport(k, StepSkipped)), SkipRest(k + 1)))
      else Some(Move(None, Ended(Skipped)))
    case Start =>
      if spec.approvalRequired then Some(Move(Some(TaskReport(AwaitingApproval)), Gate))
      else Some(Move(Some(TaskReport(TaskRunning)), StepLoop(0)))
    case Gate => (
      match choice
      case Approve => Some(Move(None, Approved))
      case Reject => Some(Move(None, RejectSteps(0)))
      case Verdict(Cancelled) =>
        if aborted then Some(Move(None, Cancelling(StepsFrom(0, spec.steps), true))) else None
      case _ => None)
    case Approved => Some(Move(Some(TaskReport(TaskRunning)), StepLoop(0)))
    case RejectSteps(k) =>
      if k < spec.steps then Some(Move(Some(StepReport(k, StepSkipped)), RejectSteps(k + 1)))
      else Some(Move(Some(TaskReport(TaskFailed)), Ended(Failed)))
    case StepLoop(i) =>
      if i >= spec.steps then Some(Move(None, Finishing))
      else if aborted then Some(Move(None, Cancelling(StepsFrom(i, spec.steps), true)))
      else Some(Move(Some(StepReport(i, StepRunning)), InStep(i)))
    case InStep(i) => (
      match choice
      case Verdict(Success) => Some(Move(Some(StepReport(i, StepSuccess)), StepLoop(i + 1)))
      case Verdict(Failed) => Some(Move(Some(StepReport(i, StepFailed)), FailRest(i, i + 1)))
      case Verdict(Cancelled) =>
        if aborted then Some(Move(None, Cancelling(StepsFrom(i, spec.steps), true))) else None
      case _ => None)
    case FailRest(f, k) =>
      if k < spec.steps then Some(Move(Some(StepReport(k, StepSkipped)), FailRest(f, k + 1)))
      else Some(Move(Some(TaskReport(TaskFailed)), Ended(Failed)))
    case Finishing =>
      if !spec.deploys then Some(Move(Some(TaskReport(TaskSuccess)), Ended(Success)))
      else if aborted then Some(Move(None, Cancelling({}, true)))
      else Some(Move(None, Deploying))
    case Deploying => (
      match choice
      case Verdict(Success) => Some(Move(Some(TaskReport(TaskSuccess)), Ended(Success)))
      case Verdict(Failed) => Some(Move(Some(TaskReport(TaskFailed)), Ended(Failed)))
      case _ => None)
    case Cancelling(steps, includeTask) => (
      match choice
      case DeliverStep(i) =>
        if i in steps then Some(Move(Some(StepReport(i, StepCancelled)), Cancelling(steps - {i}, includeTask)))
        else None
      case DeliverTask =>
        if includeTask then Some(Move(Some(TaskReport(TaskCancelled)), Cancelling(steps, false))) else None
      case Proceed => if steps == {} && !includeTask then Some(Move(None, Ended(Cancelled))) else None
      case _ => None)
  }

  // ---- The control plane's side ----

  predicate Accepts(row: Row, r: Report) {
    match r
    case TaskReport(s) => s in TaskTransitions(row.task)
    case StepReport(k, s) => k < |row.steps| && s in StepTransitions(row.steps[k])
  }

  function Apply(row: Row, r: Report): Row
    requires Accepts(row, r)
  {
    match r
    case TaskReport(s) => row.(task := s)
    case StepReport(k, s) => row.(steps := row.steps[k := s])
  }

  predicate RowTerminal(row: Row) {
    TaskTerminal(row.task) && forall k :: 0 <= k < |row.steps| ==> StepTerminal(row.steps[k])
  }

  // ---- The invariant of one task ----

  ghost predicate AllSteps(row: Row, from: nat, to: nat, s: StepStatus) {
    from <= to <= |row.steps| && forall k :: from <= k < to ==> row.steps[k] == s
  }

  function StatusOf(o: Outcome): TaskStatus {
    match o
    case Success => TaskSuccess
    case Failed => TaskFailed
    case Cancelled => TaskCancelled
    case Skipped => TaskSkipped
  }

  /** Steps succeed up to `f`; from there on each satisfies what the way the task ended asks for. */
  ghost predicate SucceedsTo(row: Row, f: nat) {
    AllSteps(row, 0, f, StepSuccess)
  }

  /** What the steps of an ended task look like. */
  ghost predicate EndShape(row: Row, o: Outcome) {
    var n := |row.steps|;
    match o
    case Success => SucceedsTo(row, n)
    case Skipped => AllSteps(row, 0, n, StepSkipped)
    case Failed =>
      exists f: nat :: SucceedsTo(row, f) &&
        forall k :: f <= k < n ==> row.steps[k] == StepSkipped || (k == f && row.steps[k] == StepFailed)
    case Cancelled => exists f: nat :: SucceedsTo(row, f) && AllSteps(row, f, n, StepCancelled)
  }

  /** While a cancellation is delivered, whatever is not a success has been cancelled or is still to be. */
  ghost predicate CancelShape(row: Row, steps: set<nat>) {
    exists f: nat :: SucceedsTo(row, f) &&
      forall k :: f <= k < |row.steps| ==> k in steps || row.steps[k] == StepCancelled
  }

  ghost predicate LocalInv(spec: TaskSpec, aborted: bool, pc: Pc, row: Row) {
    var n := spec.steps;
    |row.steps| == n &&
    match pc
    case Unstarted => row.task == TaskPending && AllSteps(row, 0, n, StepPending)
    case SkipTask => row.task == TaskPending && AllSteps(row, 0, n, StepPending)
    case Start => row.task == TaskPending && AllSteps(row, 0, n, StepPending)
    case SkipRest(k) => row.task == TaskSkipped && AllSteps(row, 0, k, StepSkipped) && AllSteps(row, k, n, StepPending)
    case Gate => row.task == AwaitingApproval && AllSteps(row, 0, n, StepPending)
    case Approved => row.task == AwaitingApproval && AllSteps(row, 0, n, StepPending)
    case RejectSteps(k) =>
      row.task == AwaitingApproval && AllSteps(row, 0, k, StepSkipped) && AllSteps(row, k, n, StepPending)
    case StepLoop(i) => row.task == TaskRunning && AllSteps(row, 0, i, StepSuccess) && AllSteps(row, i, n, StepPending)
    case InStep(i) =>
      && row.task == TaskRunning && i < n && row.steps[i] == StepRunning
      && AllSteps(row, 0, i, StepSuccess) && AllSteps(row, i + 1, n, StepPending)
    case FailRest(f, k) =>
      && row.task == TaskRunning && f < k <= n && row.steps[f] == StepFailed
      && AllSteps(row, 0, f, StepSuccess) && AllSteps(row, f + 1, k, StepSkipped) && AllSteps(row, k, n, StepPending)
    case Finishing => row.task == TaskRunning && AllSteps(row, 0, n, StepSuccess)
    case Deploying => row.task == TaskRunning && AllSteps(row, 0, n, StepSuccess)
    case Cancelling(steps, includeTask) =>
      && aborted
      && (if includeTask then !TaskTerminal(row.task) else row.task == TaskCancelled)
      && (forall k :: 0 <= k < n ==> (k in steps <==> !StepTerminal(row.steps[k])))
      && (forall k :: k in steps ==> k < n)
      && CancelShape(row, steps)
    case Ended(o) => (o == Cancelled ==> aborted) && row.task == StatusOf(o) && RowTerminal(row) && EndShape(row, o)
  }

  /** The move is accepted by the control plane and keeps the invariant. */
  ghost predicate MoveIsLegal(spec: TaskSpec, aborted: bool, row: Row, m: Move) {
    match m.report
    case None => LocalInv(spec, aborted, m.pc, row)
    case Some(r) => Accepts(row, r) && LocalInv(spec, aborted, m.pc, Apply(row, r))
  }

  predicate CanCancel(pc: Pc) {
    pc.Gate? || pc.StepLoop? || pc.InStep? || pc.Finishing? || pc.Cancelling?
  }

  /** The steps already behind a task that is being cancelled. */
  function StepsBehind(spec: TaskSpec, pc: Pc): nat {
    match pc
    case StepLoop(i) => i
    case InStep(i) => i
    case Finishing => spec.steps
    case _ => 0
  }

  lemma CancelStarts(spec: TaskSpec, pc: Pc, row: Row, choice: Choice)
    requires LocalInv(spec, true, pc, row) && CanCancel(pc) && !pc.Cancelling?
    requires LocalMove(spec, true, pc, choice).Some?
    requires LocalMove(spec, true, pc, choice).value.pc.Cancelling?
    ensures MoveIsLegal(spec, true, row, LocalMove(spec, true, pc, choice).value)
  {
    var m := LocalMove(spec, true, pc, choice).value;
    forall k | 0 <= k < spec.steps ensures k in m.pc.steps <==> !StepTerminal(row.steps[k]) {
    }
    assert SucceedsTo(row, StepsBehind(spec, pc));
  }

  lemma CancelDelivers(spec: TaskSpec, aborted: bool, pc: Pc, row: Row, choice: Choice)
    requires LocalInv(spec, aborted, pc, row) && pc.Cancelling?
    requires LocalMove(spec, aborted, pc, choice).Some?
    ensures MoveIsLegal(spec, aborted, row, LocalMove(spec, aborted, pc, choice).value)
  {
    var f: nat :| SucceedsTo(row, f) && forall k :: f <= k < |row.steps| ==> k in pc.steps || row.steps[k] == StepCancelled;
    if choice.DeliverStep? {
      OpenStep(row.steps[choice.step]);
      assert SucceedsTo(Apply(row, StepReport(choice.step, StepCancelled)), f);
    } else if choice.DeliverTask? {
      OpenTask(row.task);
      assert SucceedsTo(Apply(row, TaskReport(TaskCancelled)), f);
    }
  }

  lemma SkipsAreLegal(spec: TaskSpec, aborted: bool, pc: Pc, row: Row, choice: Choice)
    requires LocalInv(spec, aborted, pc, row) && (pc.SkipTask? || pc.SkipRest? || pc.RejectSteps?)
    requires LocalMove(spec, aborted, pc, choice).Some?
    ensures MoveIsLegal(spec, aborted, row, LocalMove(spec, aborted, pc, choice).value)
  {
    assert SucceedsTo(row.(task := TaskFailed), 0);
  }

  lemma FailureIsLegal(spec: TaskSpec, aborted: bool, pc: Pc, row: Row, choice: Choice)
    requires LocalInv(spec, aborted, pc, row) && pc.FailRest?
    requires LocalMove(spec, aborted, pc, choice).Some?
    ensures MoveIsLegal(spec, aborted, row, LocalMove(spec, aborted, pc, choice).value)
  {
    assert SucceedsTo(row.(task := TaskFailed), pc.failed);
  }

  lemma GateIsLegal(spec: TaskSpec, aborted: bool, pc: Pc, row: Row, choice: Choice)
    requires LocalInv(spec, aborted, pc, row)
    requires pc.Start? || pc.Gate? || pc.Approved? || pc.Finishing? || pc.Deploying?
    requires LocalMove(spec, aborted, pc, choice).Some?
    requires !LocalMove(spec, aborted, pc, choice).value.pc.Cancelling?
    ensures MoveIsLegal(spec, aborted, row, LocalMove(spec, aborted, pc, choice).value)
  {
    assert pc.Deploying? ==> SucceedsTo(row.(task := TaskFailed), spec.steps);
  }

  lemma StepIsLegal(spec: TaskSpec, aborted: bool, pc: Pc, row: Row, choice: Choice)
    requires LocalInv(spec, aborted, pc, row) && (pc.StepLoop? || pc.InStep?)
    requires LocalMove(spec, aborted, pc, choice).Some?
    requires !LocalMove(spec, aborted, pc, choice).value.pc.Cancelling?
    ensures MoveIsLegal(spec, aborted, row, LocalMove(spec, aborted, pc, choice).value)
  {
  }

  /** Every report is an allowed transition of the row it addresses, and the invariant survives it. */
  lemma LocalMoveIsLegal(spec: TaskSpec, aborted: bool, pc: Pc, row: Row, choice: Choice)
    requires LocalInv(spec, aborted, pc, row)
    requires LocalMove(spec, aborted, pc, choice).Some?
    ensures MoveIsLegal(spec, aborted, row, LocalMove(spec, aborted, pc, choice).value)
  {
    if pc.Cancelling? {
      CancelDelivers(spec, aborted, pc, row, choice);
    } else if LocalMove(spec, aborted, pc, choice).value.pc.Cancelling? {
      CancelStarts(spec, pc, row, choice);
    } else if pc.SkipTask? || pc.SkipRest? || pc.RejectSteps? {
      SkipsAreLegal(spec, aborted, pc, row, choice);
    } else if pc.FailRest? {
      FailureIsLegal(spec, aborted, pc, row, choice);
    } else if pc.StepLoop? || pc.InStep? {
      StepIsLegal(spec, aborted, pc, row, choice);
    } else {
      GateIsLegal(spec, aborted, pc, row, choice);
    }
  }

  /** The life of a task that is skipped because a dependency did not succeed. */
  predicate SkipPath(pc: Pc) {
    pc.SkipTask? || pc.SkipRest? || pc == Ended(Skipped)
  }

  predicate CancelPath(pc: Pc) {
    pc.Cancelling? || pc == Ended(Cancelled)
  }

  lemma PathsAreClosed(spec: TaskSpec, aborted: bool, pc: Pc, choice: Choice)
    requires LocalMove(spec, aborted, pc, choice).Some?
    ensures var m := LocalMove(spec, aborted, pc, choice).value;
      && !pc.Unstarted? && !pc.Ended? && !m.pc.Unstarted?
      && SkipPath(m.pc) == SkipPath(pc)
      && (CancelPath(pc) ==> CancelPath(m.pc))
      && (m.report == Some(TaskReport(TaskRunning)) ==> !SkipPath(pc) && !CancelPath(pc))
  {
  }

  /** A task that has not started may be skipped, launched or cancelled. */
  lemma UnstartedMayBegin(spec: TaskSpec, aborted: bool, row: Row)
    requires LocalInv(spec, aborted, Unstarted, row)
    ensures LocalInv(spec, aborted, SkipTask, row) && LocalInv(spec, aborted, Start, row)
    ensures aborted ==> LocalInv(spec, aborted, Cancelling(StepsFrom(0, spec.steps), true), row)
  {
    assert SucceedsTo(row, 0);
  }

  /** Aborting a run disturbs no task. */
  lemma AbortKeepsLocal(spec: TaskSpec, pc: Pc, row: Row)
    requires LocalInv(spec, false, pc, row)
    ensures LocalInv(spec, true, pc, row)
  {
  }

  /** A task that has started but not ended always has a next move. */
  lemma NeverStuck(spec: TaskSpec, aborted: bool, pc: Pc) returns (choice: Choice)
    requires !pc.Unstarted? && !pc.Ended?
    ensures LocalMove(spec, aborted, pc, choice).Some?
  {
    choice := Proceed;
    match pc
    case Gate => choice := Approve;
    case InStep(_) => choice := Verdict(Failed);
    case Deploying => choice := Verdict(Failed);
    case Cancelling(steps, includeTask) =>
      if steps != {} {
        var i :| i in steps;
        choice := DeliverStep(i);
      } else if includeTask {
        choice := DeliverTask;
      }
    case _ =>
  }
}

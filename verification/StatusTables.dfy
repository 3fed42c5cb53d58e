/** Run statuses and the transitions the control plane accepts. */
module StatusTables {

  datatype TaskStatus =
    | TaskPending | TaskRunning | AwaitingApproval
    | TaskSuccess | TaskFailed | TaskCancelled | TaskSkipped

  datatype StepStatus =
    | StepPending | StepRunning
    | StepSuccess | StepFailed | StepCancelled | StepSkipped

  datatype PipelineVerdict = PipelineSuccess | PipelineFailed

  function TaskTransitions(from: TaskStatus): set<TaskStatus> {
    match from
    case TaskPending => {TaskRunning, AwaitingApproval, TaskCancelled, TaskSkipped}
    case TaskRunning => {TaskSuccess, TaskFailed, TaskCancelled}
    case AwaitingApproval => {TaskRunning, TaskFailed, TaskCancelled}
    case _ => {}
  }

  function StepTransitions(from: StepStatus): set<StepStatus> {
    match from
    case StepPending => {StepRunning, StepCancelled, StepSkipped}
    case StepRunning => {StepSuccess, StepFailed, StepCancelled}
    case _ => {}
  }

  predicate TaskTerminal(s: TaskStatus) {
    s in {TaskSuccess, TaskFailed, TaskCancelled, TaskSkipped}
  }

  predicate StepTerminal(s: StepStatus) {
    s in {StepSuccess, StepFailed, StepCancelled, StepSkipped}
  }

  /** Exactly the non-terminal statuses may still be cancelled; terminal ones admit nothing. */
  lemma OpenTask(s: TaskStatus)
    ensures TaskTerminal(s) <==> TaskTransitions(s) == {}
    ensures TaskTerminal(s) <==> TaskCancelled !in TaskTransitions(s)
  {
    match s
    case TaskPending => assert TaskCancelled in TaskTransitions(s);
    case TaskRunning => assert TaskCancelled in TaskTransitions(s);
    case AwaitingApproval => assert TaskCancelled in TaskTransitions(s);
    case _ =>
  }

  lemma OpenStep(s: StepStatus)
    ensures StepTerminal(s) <==> StepTransitions(s) == {}
    ensures StepTerminal(s) <==> StepCancelled !in StepTransitions(s)
  {
    match s
    case StepPending => assert StepCancelled in StepTransitions(s);
    case StepRunning => assert StepCancelled in StepTransitions(s);
    case _ =>
  }
}

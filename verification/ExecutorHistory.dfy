/**
 * What must have happened before: approvals, verdicts, steps and cancellations
 * in the history of a run, against the reports it sent.
 */
module ExecutorHistory {
  import opened Collections
  import opened Dag
  import opened DagGroups
  import opened StatusTables
  import opened TaskMachine
  import opened Executor
  import opened ExecutorSafety

  // ---- What a task's history says at each point ----

  ghost predicate Did(events: seq<Event>, x: string, choice: Choice) {
    TaskMove(x, choice) in events
  }

  ghost predicate Said(log: seq<Entry>, x: string, r: Report) {
    Entry(x, r) in log
  }

  /** The task has been reported running, or one of its steps has. */
  predicate Runs(r: Report) {
    r == TaskReport(TaskRunning) || (r.StepReport? && r.status == StepRunning)
  }

  /** A report that a task has begun: it waits for approval, or it or one of its steps runs. */
  predicate Begins(r: Report) {
    Runs(r) || r == TaskReport(AwaitingApproval)
  }

  ghost predicate NeverRan(log: seq<Entry>, x: string) {
    forall r :: Runs(r) ==> !Said(log, x, r)
  }

  predicate BeforeRunning(pc: Pc) {
    pc.Unstarted? || pc.SkipTask? || pc.SkipRest? || pc.Start? || pc.Gate? || pc.Approved? || pc.RejectSteps?
    || pc == Ended(Skipped)
  }

  predicate BeforeGate(pc: Pc) {
    pc.Unstarted? || pc.SkipTask? || pc.SkipRest? || pc.Start? || pc == Ended(Skipped)
  }

  predicate PastGate(pc: Pc) {
    pc.Approved? || pc.StepLoop? || pc.InStep? || pc.FailRest? || pc.Finishing? || pc.Deploying? || pc == Ended(Success)
  }

  ghost predicate StepsSucceeded(log: seq<Entry>, x: string, n: nat) {
    forall j: nat :: j < n ==> Said(log, x, StepReport(j, StepSuccess))
  }

  /** The gate: opened before an approval or a rejection, passed only by an approval. */
  ghost predicate GatePast(spec: TaskSpec, x: string, pc: Pc, events: seq<Event>, log: seq<Entry>) {
    && (pc.Gate? || pc.Approved? || pc.RejectSteps? ==> Said(log, x, TaskReport(AwaitingApproval)))
    && (spec.approvalRequired && PastGate(pc) ==> Did(events, x, Approve) && Said(log, x, TaskReport(AwaitingApproval)))
    && (Did(events, x, Reject) ==> (pc.RejectSteps? || pc == Ended(Failed)) && NeverRan(log, x))
    && (BeforeRunning(pc) ==> NeverRan(log, x))
    && (BeforeGate(pc) ==> !Said(log, x, TaskReport(AwaitingApproval)))
  }

  /** The verdicts: a failed or cancelled one leads one way only. */
  ghost predicate VerdictPast(x: string, pc: Pc, events: seq<Event>) {
    && (Did(events, x, Verdict(Failed)) ==> pc.FailRest? || pc == Ended(Failed))
    && (Did(events, x, Verdict(Cancelled)) ==> pc.Cancelling? || pc == Ended(Cancelled))
    && (pc.FailRest? ==> Did(events, x, Verdict(Failed)))
    && (pc.RejectSteps? ==> Did(events, x, Reject))
    && (pc == Ended(Failed) ==> Did(events, x, Verdict(Failed)) || Did(events, x, Reject))
  }

  /** The steps: each waits for the success of all before it. */
  ghost predicate StepsPast(spec: TaskSpec, x: string, pc: Pc, log: seq<Entry>) {
    match pc
    case StepLoop(i) => Said(log, x, TaskReport(TaskRunning)) && StepsSucceeded(log, x, i)
    case InStep(i) => Said(log, x, TaskReport(TaskRunning)) && StepsSucceeded(log, x, i)
    case Finishing => StepsSucceeded(log, x, spec.steps)
    case Deploying => spec.deploys && StepsSucceeded(log, x, spec.steps)
    case Ended(Success) => StepsSucceeded(log, x, spec.steps)
    case _ => true
  }

  ghost predicate Past(spec: TaskSpec, x: string, pc: Pc, events: seq<Event>, log: seq<Entry>) {
    GatePast(spec, x, pc, events, log) && VerdictPast(x, pc, events) && StepsPast(spec, x, pc, log)
  }

  // ---- One step further ----

  function WithReport(log: seq<Entry>, x: string, report: Option<Report>): seq<Entry> {
    match report
    case None => log
    case Some(r) => log + [Entry(x, r)]
  }

  lemma HistoryGrows(events: seq<Event>, log: seq<Entry>, x: string, choice: Choice, report: Option<Report>)
    ensures var events', log' := events + [TaskMove(x, choice)], WithReport(log, x, report);
      && (forall ch :: Did(events', x, ch) <==> Did(events, x, ch) || ch == choice)
      && (forall r :: Said(log', x, r) <==> Said(log, x, r) || report == Some(r))
      && (forall n: nat :: StepsSucceeded(log, x, n) ==> StepsSucceeded(log', x, n))
  {
    var log' := WithReport(log, x, report);
    forall r ensures Said(log', x, r) <==> Said(log, x, r) || report == Some(r) {
    }
  }

  lemma GateStep(spec: TaskSpec, aborted: bool, x: string, pc: Pc, choice: Choice, events: seq<Event>, log: seq<Entry>)
    requires GatePast(spec, x, pc, events, log) && LocalMove(spec, aborted, pc, choice).Some?
    ensures var m := LocalMove(spec, aborted, pc, choice).value;
      GatePast(spec, x, m.pc, events + [TaskMove(x, choice)], WithReport(log, x, m.report))
  {
    var m := LocalMove(spec, aborted, pc, choice).value;
    HistoryGrows(events, log, x, choice, m.report);
    hide Did, Said, WithReport;
  }

  lemma VerdictStep(spec: TaskSpec, aborted: bool, x: string, pc: Pc, choice: Choice, events: seq<Event>, log: seq<Entry>)
    requires VerdictPast(x, pc, events) && LocalMove(spec, aborted, pc, choice).Some?
    ensures var m := LocalMove(spec, aborted, pc, choice).value;
      VerdictPast(x, m.pc, events + [TaskMove(x, choice)])
  {
    var m := LocalMove(spec, aborted, pc, choice).value;
    HistoryGrows(events, log, x, choice, m.report);
    hide Did;
  }

  lemma StepsStep(spec: TaskSpec, aborted: bool, x: string, pc: Pc, choice: Choice, row: Row,
                  events: seq<Event>, log: seq<Entry>)
    requires StepsPast(spec, x, pc, log) && LocalInv(spec, aborted, pc, row) && LocalMove(spec, aborted, pc, choice).Some?
    ensures var m := LocalMove(spec, aborted, pc, choice).value;
      StepsPast(spec, x, m.pc, WithReport(log, x, m.report))
  {
    var m := LocalMove(spec, aborted, pc, choice).value;
    HistoryGrows(events, log, x, choice, m.report);
    hide Said, Did, WithReport, EndShape, CancelShape, RowTerminal;
  }

  lemma PastStep(spec: TaskSpec, aborted: bool, x: string, pc: Pc, choice: Choice, row: Row,
                 events: seq<Event>, log: seq<Entry>)
    requires Past(spec, x, pc, events, log) && LocalInv(spec, aborted, pc, row)
    requires LocalMove(spec, aborted, pc, choice).Some?
    ensures var m := LocalMove(spec, aborted, pc, choice).value;
      Past(spec, x, m.pc, events + [TaskMove(x, choice)], WithReport(log, x, m.report))
  {
    hide LocalInv, GatePast, VerdictPast, StepsPast;
    GateStep(spec, aborted, x, pc, choice, events, log);
    VerdictStep(spec, aborted, x, pc, choice, events, log);
    StepsStep(spec, aborted, x, pc, choice, row, events, log);
  }

  /** Events and reports of others do not count. */
  lemma PastStays(spec: TaskSpec, x: string, pc: Pc, events: seq<Event>, log: seq<Entry>, e: Event, log': seq<Entry>)
    requires Past(spec, x, pc, events, log) && !(e.TaskMove? && e.task == x)
    requires log' == log || exists entry :: log' == log + [entry] && entry.task != x
    ensures Past(spec, x, pc, events + [e], log')
  {
    forall ch ensures Did(events + [e], x, ch) <==> Did(events, x, ch) {
    }
    forall r ensures Said(log', x, r) <==> Said(log, x, r) {
    }
    hide Did, Said;
  }

  /** A task that has not started may begin in any of the three ways. */
  lemma PastBegins(spec: TaskSpec, x: string, events: seq<Event>, log: seq<Entry>, pc: Pc)
    requires Past(spec, x, Unstarted, events, log) && (pc == SkipTask || pc == Start || pc.Cancelling?)
    ensures Past(spec, x, pc, events, log)
  {
    hide Did, Said;
  }

  // ---- Whole runs ----

  ghost predicate History(c: Config, s: State, events: seq<Event>) {
    forall x :: x in s.pcs && x in c.specs ==> Past(c.specs[x], x, s.pcs[x], events, s.log)
  }

  /** Advancing the run changes no task but those that begin, and sends no report. */
  lemma AdvanceBegins(c: Config, s: State)
    requires c.Valid() && Inv(c, s) && Advanced(c, s).Some?
    ensures var s' := Advanced(c, s).value;
      && s'.log == s.log && s'.pcs.Keys == s.pcs.Keys
      && forall x :: x in s.pcs ==>
           s'.pcs[x] == s.pcs[x]
           || (s.pcs[x] == Unstarted && (s'.pcs[x] == SkipTask || s'.pcs[x] == Start || s'.pcs[x].Cancelling?))
  {
    hide Config.Valid, Blocked, OutcomesInv, Replay, RunsAfterDependencies, SkippingInv, RunningInv, LocalInv, FilterBlocked;
    InvDomain(c, s);
    hide LocalsInv;
    match s.phase
    case Skipping(g, blocked, k) =>
      SkippingIndex(c, s.outcomes, s.pcs, g, blocked, k);
      if k == |blocked| {
        LaunchPhase(c, s.outcomes, s.pcs, g, blocked);
      }  else {
        CurrentIsUndecided(c, s.outcomes, s.pcs, g, blocked, k);
      }
    case CancelUnstarted(todo, k) =>
    case _ =>
  }

  lemma AdvanceKeepsHistory(c: Config, s: State, events: seq<Event>)
    requires c.Valid() && Inv(c, s) && History(c, s, events) && Advanced(c, s).Some?
    ensures History(c, Advanced(c, s).value, events + [Advance])
  {
    AdvanceBegins(c, s);
    hide Config.Valid, Inv, Advanced, Past;
    var s' := Advanced(c, s).value;
    forall x | x in s'.pcs && x in c.specs ensures Past(c.specs[x], x, s'.pcs[x], events + [Advance], s'.log) {
      PastStays(c.specs[x], x, s.pcs[x], events, s.log, Advance, s.log);
      if s'.pcs[x] != s.pcs[x] {
        PastBegins(c.specs[x], x, events + [Advance], s.log, s'.pcs[x]);
      }
    }
  }

  /** What a task's move does to the run. */
  lemma MoveEffect(c: Config, s: State, x: string, choice: Choice)
    requires Step(c, s, TaskMove(x, choice)).Some?
    ensures x in s.pcs && x in s.rows && x in c.specs && LocalMove(c.specs[x], s.aborted, s.pcs[x], choice).Some?
    ensures var m := LocalMove(c.specs[x], s.aborted, s.pcs[x], choice).value;
      var s' := Step(c, s, TaskMove(x, choice)).value;
      s'.pcs == s.pcs[x := m.pc] && s'.log == WithReport(s.log, x, m.report) && s'.aborted == s.aborted
      && s'.phase == s.phase && s'.outcomes == s.outcomes
  {
    hide LocalMove;
  }

  lemma LocalAt(c: Config, s: State, x: string)
    requires Inv(c, s) && x in s.pcs
    ensures x in c.specs && x in s.rows && LocalInv(c.specs[x], s.aborted, s.pcs[x], s.rows[x])
  {
    hide LocalInv;
  }

  lemma OnePastMoves(c: Config, pcs: map<string, Pc>, events: seq<Event>, log: seq<Entry>,
                     x: string, choice: Choice, pc: Pc, report: Option<Report>)
    requires forall y :: y in pcs && y in c.specs ==> Past(c.specs[y], y, pcs[y], events, log)
    requires x in c.specs && Past(c.specs[x], x, pc, events + [TaskMove(x, choice)], WithReport(log, x, report))
    ensures forall y :: y in pcs[x := pc] && y in c.specs ==>
      Past(c.specs[y], y, pcs[x := pc][y], events + [TaskMove(x, choice)], WithReport(log, x, report))
  {
    hide Past;
    forall y | y in pcs && y in c.specs && y != x
      ensures Past(c.specs[y], y, pcs[y], events + [TaskMove(x, choice)], WithReport(log, x, report))
    {
      PastStays(c.specs[y], y, pcs[y], events, log, TaskMove(x, choice), WithReport(log, x, report));
    }
  }

  lemma MoveKeepsHistory(c: Config, s: State, events: seq<Event>, x: string, choice: Choice)
    requires Inv(c, s) && History(c, s, events) && Step(c, s, TaskMove(x, choice)).Some?
    ensures History(c, Step(c, s, TaskMove(x, choice)).value, events + [TaskMove(x, choice)])
  {
    hide Inv, Past, LocalInv, Step, LocalMove, WithReport;
    MoveEffect(c, s, x, choice);
    LocalAt(c, s, x);
    var m := LocalMove(c.specs[x], s.aborted, s.pcs[x], choice).value;
    PastStep(c.specs[x], s.aborted, x, s.pcs[x], choice, s.rows[x], events, s.log);
    OnePastMoves(c, s.pcs, events, s.log, x, choice, m.pc, m.report);
  }

  lemma HistoryStarts(c: Config)
    ensures History(c, Init(c), [])
  {
  }

  lemma AbortKeepsHistory(c: Config, s: State, events: seq<Event>)
    requires History(c, s, events)
    ensures History(c, s.(aborted := true), events + [Abort])
  {
    hide Past;
    forall x | x in s.pcs && x in c.specs ensures Past(c.specs[x], x, s.pcs[x], events + [Abort], s.log) {
      PastStays(c.specs[x], x, s.pcs[x], events, s.log, Abort, s.log);
    }
  }

  lemma {:induction false} HistoryHolds(c: Config, events: seq<Event>)
    requires c.Valid() && Run(c, events).Some?
    ensures History(c, Run(c, events).value, events)
  {
    hide Config.Valid, Inv, Init, Advanced, History;
    if events == [] {
      HistoryStarts(c);
    } else {
      var before, e := events[..|events| - 1], events[|events| - 1];
      assert events == before + [e];
      var s := Run(c, before).value;
      HistoryHolds(c, before);
      InvariantHolds(c, before);
      match e
      case Abort => AbortKeepsHistory(c, s, before);
      case Advance => AdvanceKeepsHistory(c, s, before);
      case TaskMove(x, choice) => MoveKeepsHistory(c, s, before, x, choice);
    }
  }

  // ---- When a report was sent ----

  lemma LogGrows(c: Config, s: State, e: Event)
    requires c.Valid() && Inv(c, s) && Step(c, s, e).Some?
    ensures var s' := Step(c, s, e).value;
      s'.log == s.log || (e.TaskMove? && |s'.log| == |s.log| + 1 && s.log <= s'.log && s'.log[|s.log|].task == e.task)
  {
    match e
    case Abort =>
    case Advance => AdvanceBegins(c, s);
    case TaskMove(x, choice) => MoveEffect(c, s, x, choice);
  }

  /** Entry `i` of the log was sent by event `k`, when the log held exactly the entries before it. */
  ghost predicate SentAt(c: Config, events: seq<Event>, i: nat, k: nat) {
    && k < |events| && Run(c, events).Some? && i < |Run(c, events).value.log|
    && Run(c, events[..k]).Some? && Run(c, events[..k + 1]).Some?
    && Run(c, events[..k]).value.log == Run(c, events).value.log[..i]
    && Run(c, events[..k + 1]).value.log == Run(c, events).value.log[..i + 1]
    && events[k].TaskMove? && events[k].task == Run(c, events).value.log[i].task
  }

  lemma EmptyRun(c: Config)
    ensures Run(c, []).Some? && Run(c, []).value.log == []
  {
  }

  lemma {:induction false} EveryEntryWasSent(c: Config, events: seq<Event>, i: nat) returns (k: nat)
    requires c.Valid() && Run(c, events).Some? && i < |Run(c, events).value.log|
    ensures SentAt(c, events, i, k)
  {
    EmptyRun(c);
    hide Config.Valid, Inv, Init, Step;
    var before, e := events[..|events| - 1], events[|events| - 1];
    assert events == before + [e];
    var s, s' := Run(c, before).value, Run(c, events).value;
    InvariantHolds(c, before);
    LogGrows(c, s, e);
    if i < |s.log| {
      k := EveryEntryWasSent(c, before, i);
      assert before[..k] == events[..k] && before[..k + 1] == events[..k + 1];
      assert s.log[..i] == s'.log[..i] && s.log[..i + 1] == s'.log[..i + 1];
    } else {
      k := |before|;
      assert events[..k] == before && events[..k + 1] == events;
      assert s'.log[..i] == s.log && s'.log[..i + 1] == s'.log;
    }
  }

  /** The event that sent an entry, as a step of the run. */
  lemma StepBehind(c: Config, events: seq<Event>, i: nat, k: nat)
    requires SentAt(c, events, i, k)
    ensures var s, log := Run(c, events[..k]).value, Run(c, events).value.log;
      && Step(c, s, events[k]).Some? && events[k].TaskMove?
      && Step(c, s, events[k]).value.log == s.log + [log[i]] && log[i].task == events[k].task
  {
    hide Step, Init;
    var longer := events[..k + 1];
    assert longer[..|longer| - 1] == events[..k] && longer[k] == events[k];
    var log := Run(c, events).value.log;
    assert log[..i + 1] == log[..i] + [log[i]];
  }

  lemma ReportOf(log: seq<Entry>, x: string, report: Option<Report>, entry: Entry)
    requires WithReport(log, x, report) == log + [entry]
    ensures report == Some(entry.report)
  {
    if report.Some? {
      assert (log + [Entry(x, report.value)])[|log|] == (log + [entry])[|log|];
    }
  }

  /** The move behind an entry: its task's program counter, choice and report. */
  lemma MoveBehind(c: Config, events: seq<Event>, i: nat, k: nat)
    requires c.Valid() && SentAt(c, events, i, k)
    ensures var s, x := Run(c, events[..k]).value, events[k].task;
      && Inv(c, s) && x in s.pcs && x in c.specs
      && Past(c.specs[x], x, s.pcs[x], events[..k], s.log)
      && LocalMove(c.specs[x], s.aborted, s.pcs[x], events[k].choice).Some?
      && LocalMove(c.specs[x], s.aborted, s.pcs[x], events[k].choice).value.report == Some(Run(c, events).value.log[i].report)
  {
    StepBehind(c, events, i, k);
    hide Config.Valid, Inv, Run, LocalMove, Past, Step, WithReport;
    HistoryHolds(c, events[..k]);
    InvariantHolds(c, events[..k]);
    var s, x, choice := Run(c, events[..k]).value, events[k].task, events[k].choice;
    MoveEffect(c, s, x, choice);
    ReportOf(s.log, x, LocalMove(c.specs[x], s.aborted, s.pcs[x], choice).value.report, Run(c, events).value.log[i]);
  }

  /** Where a report can come from. */
  lemma ReportSource(spec: TaskSpec, aborted: bool, pc: Pc, choice: Choice, r: Report)
    requires LocalMove(spec, aborted, pc, choice).Some? && LocalMove(spec, aborted, pc, choice).value.report == Some(r)
    ensures r == TaskReport(TaskRunning) ==> pc.Approved? || (pc.Start? && !spec.approvalRequired)
    ensures r.StepReport? && r.status == StepRunning ==> pc == StepLoop(r.step) && !aborted
    ensures r.StepReport? && r.status == StepSuccess ==> choice == Verdict(Success)
    ensures r.StepReport? && r.status == StepFailed ==> choice == Verdict(Failed)
    ensures r == TaskReport(TaskSuccess) ==>
      if spec.deploys then pc.Deploying? && choice == Verdict(Success)
      else (pc.Finishing? && choice == Proceed) || pc.Deploying?
    ensures pc.Cancelling? ==> !Begins(r)
  {
  }

  lemma ReportBehind(c: Config, events: seq<Event>, i: nat, k: nat)
    requires c.Valid() && SentAt(c, events, i, k)
    ensures var s, x, r := Run(c, events[..k]).value, events[k].task, Run(c, events).value.log[i].report;
      && x in s.pcs && x in c.specs
      && (r == TaskReport(TaskRunning) ==> s.pcs[x].Approved? || (s.pcs[x].Start? && !c.specs[x].approvalRequired))
      && (r.StepReport? && r.status == StepRunning ==> s.pcs[x] == StepLoop(r.step) && !s.aborted)
      && (r.StepReport? && r.status == StepSuccess ==> events[k].choice == Verdict(Success))
      && (r.StepReport? && r.status == StepFailed ==> events[k].choice == Verdict(Failed))
      && (r == TaskReport(TaskSuccess) ==>
          if c.specs[x].deploys then s.pcs[x].Deploying? && events[k].choice == Verdict(Success)
          else (s.pcs[x].Finishing? && events[k].choice == Proceed) || s.pcs[x].Deploying?)
  {
    hide Config.Valid, Inv, Run, Past, LocalMove;
    MoveBehind(c, events, i, k);
    var s, x := Run(c, events[..k]).value, events[k].task;
    ReportSource(c.specs[x], s.aborted, s.pcs[x], events[k].choice, Run(c, events).value.log[i].report);
  }

  // ---- Main results ----

  /** A task that needs approval, and each of its steps, is reported running only after the gate was reported open and
      the approval was given. */
  lemma ApprovalComesFirst(c: Config, events: seq<Event>, i: nat) returns (k: nat)
    requires c.Valid() && Run(c, events).Some? && i < |Run(c, events).value.log|
    requires var entry := Run(c, events).value.log[i];
      Runs(entry.report) && entry.task in c.specs && c.specs[entry.task].approvalRequired
    ensures var log := Run(c, events).value.log;
      && SentAt(c, events, i, k)
      && TaskMove(log[i].task, Approve) in events[..k]
      && Entry(log[i].task, TaskReport(AwaitingApproval)) in log[..i]
  {
    k := EveryEntryWasSent(c, events, i);
    MoveBehind(c, events, i, k);
    ReportBehind(c, events, i, k);
    hide Config.Valid, Inv, Run, VerdictPast, StepsPast, LocalMove, SentAt;
  }

  /** After a rejection a task is never reported running, and it ends failed. */
  lemma RejectedNeverRuns(c: Config, events: seq<Event>, x: string)
    requires c.Valid() && Run(c, events).Some? && TaskMove(x, Reject) in events && x in c.specs
    ensures forall i :: 0 <= i < |Run(c, events).value.log| && Run(c, events).value.log[i].task == x ==>
      !Runs(Run(c, events).value.log[i].report)
    ensures Run(c, events).value.phase.Finished? ==>
      && Replay(c, Run(c, events).value.log).Some? && x in Replay(c, Run(c, events).value.log).value
      && Replay(c, Run(c, events).value.log).value[x].task == TaskFailed
  {
    var s := Run(c, events).value;
    PastAtEnd(c, events, x);
    hide Config.Valid, Inv, Run, VerdictPast, StepsPast, Replay;
    forall i | 0 <= i < |s.log| && s.log[i].task == x ensures !Runs(s.log[i].report) {
      assert Did(events, x, Reject);
      assert s.log[i] == Entry(x, s.log[i].report);
      assert Said(s.log, x, s.log[i].report);
    }
  }

  /** The last word on each task of a run, and its history. */
  lemma PastAtEnd(c: Config, events: seq<Event>, x: string)
    requires c.Valid() && Run(c, events).Some? && x in c.specs
    ensures var s := Run(c, events).value;
      && x in s.pcs && x in s.rows && Past(c.specs[x], x, s.pcs[x], events, s.log)
      && LocalInv(c.specs[x], s.aborted, s.pcs[x], s.rows[x])
      && Replay(c, s.log) == Some(s.rows)
      && (s.phase.Finished? ==> s.pcs[x].Ended? && s.rows[x].task == StatusOf(s.pcs[x].outcome))
  {
    hide Config.Valid, Run, Past;
    var s := Run(c, events).value;
    HistoryHolds(c, events);
    InvariantHolds(c, events);
    InvDomain(c, s);
    LocalAt(c, s, x);
    InvReplay(c, s);
    EndedWhenFinished(c, s, x);
  }

  lemma AllEndedWhenFinished(c: Config, s: State)
    requires Inv(c, s) && s.phase.Finished?
    ensures AllEnded(s.pcs)
  {
    hide Replay, OutcomesInv, RunsAfterDependencies, LocalsInv;
  }

  lemma EndedWhenFinished(c: Config, s: State, x: string)
    requires Inv(c, s) && x in s.pcs && x in s.rows && x in c.specs
    ensures s.phase.Finished? ==> s.pcs[x].Ended? && s.rows[x].task == StatusOf(s.pcs[x].outcome)
  {
    LocalAt(c, s, x);
    if s.phase.Finished? {
      AllEndedWhenFinished(c, s);
      hide Inv;
      EndedIsTerminal(c.specs[x], s.aborted, s.pcs[x], s.rows[x]);
      hide LocalInv;
    }
  }

  /** A finished task failed exactly when its approval was rejected or a verdict on it, a step's or the deployment's,
      was a failure; a cancelled verdict leaves it cancelled. */
  lemma FailureIsDecided(c: Config, events: seq<Event>, x: string)
    requires c.Valid() && Run(c, events).Some? && Run(c, events).value.phase.Finished? && x in c.specs
    ensures var rows := Replay(c, Run(c, events).value.log);
      && rows.Some? && x in rows.value
      && (rows.value[x].task == TaskFailed <==> TaskMove(x, Verdict(Failed)) in events || TaskMove(x, Reject) in events)
      && (TaskMove(x, Verdict(Cancelled)) in events ==> rows.value[x].task == TaskCancelled)
  {
    PastAtEnd(c, events, x);
    hide Config.Valid, Run, Replay, StepsPast, LocalInv;
    assert Did(events, x, Verdict(Failed)) == (TaskMove(x, Verdict(Failed)) in events);
    assert Did(events, x, Reject) == (TaskMove(x, Reject) in events);
    assert Did(events, x, Verdict(Cancelled)) == (TaskMove(x, Verdict(Cancelled)) in events);
    hide Did;
  }

  /** Success is reported only when all steps have been reported successful, and for a task that deploys by the
      deployment's own success. */
  lemma SuccessIsEarned(c: Config, events: seq<Event>, i: nat) returns (k: nat)
    requires c.Valid() && Run(c, events).Some? && i < |Run(c, events).value.log|
    requires var entry := Run(c, events).value.log[i]; entry.report == TaskReport(TaskSuccess) && entry.task in c.specs
    ensures var log := Run(c, events).value.log; var x := log[i].task;
      && SentAt(c, events, i, k)
      && events[k] == TaskMove(x, if c.specs[x].deploys then Verdict(Success) else Proceed)
      && forall j: nat :: j < c.specs[x].steps ==> Entry(x, StepReport(j, StepSuccess)) in log[..i]
  {
    k := EveryEntryWasSent(c, events, i);
    MoveBehind(c, events, i, k);
    ReportBehind(c, events, i, k);
    hide Config.Valid, Inv, Run, GatePast, VerdictPast, LocalMove;
    var x, log := events[k].task, Run(c, events).value.log;
    assert StepsSucceeded(log[..i], x, c.specs[x].steps);
    forall j: nat | j < c.specs[x].steps ensures Entry(x, StepReport(j, StepSuccess)) in log[..i] {
      assert Said(log[..i], x, StepReport(j, StepSuccess));
    }
  }

  /** A step starts only in a running task, after the success of every step before it, and never after a cancellation
      was noticed. */
  lemma StepsWaitTheirTurn(c: Config, events: seq<Event>, i: nat, j: nat) returns (k: nat)
    requires c.Valid() && Run(c, events).Some? && i < |Run(c, events).value.log|
    requires Run(c, events).value.log[i].report == StepReport(j, StepRunning)
    ensures var log := Run(c, events).value.log; var x := log[i].task;
      && SentAt(c, events, i, k) && Abort !in events[..k]
      && Entry(x, TaskReport(TaskRunning)) in log[..i]
      && forall h: nat :: h < j ==> Entry(x, StepReport(h, StepSuccess)) in log[..i]
  {
    k := EveryEntryWasSent(c, events, i);
    MoveBehind(c, events, i, k);
    ReportBehind(c, events, i, k);
    AbortedAfterAbort(c, events[..k]);
    hide Config.Valid, Inv, Run, GatePast, VerdictPast, LocalMove;
    var x, log := events[k].task, Run(c, events).value.log;
    assert StepsSucceeded(log[..i], x, j);
    forall h: nat | h < j ensures Entry(x, StepReport(h, StepSuccess)) in log[..i] {
      assert Said(log[..i], x, StepReport(h, StepSuccess));
    }
  }

  /** A step is reported successful or failed by its verdict. */
  lemma StepVerdictsAreReported(c: Config, events: seq<Event>, i: nat, j: nat) returns (k: nat)
    requires c.Valid() && Run(c, events).Some? && i < |Run(c, events).value.log|
    requires Run(c, events).value.log[i].report in {StepReport(j, StepSuccess), StepReport(j, StepFailed)}
    ensures SentAt(c, events, i, k)
    ensures events[k].choice
      == Verdict(if Run(c, events).value.log[i].report == StepReport(j, StepSuccess) then Success else Failed)
  {
    k := EveryEntryWasSent(c, events, i);
    MoveBehind(c, events, i, k);
    ReportBehind(c, events, i, k);
    hide Config.Valid, Inv, Run, Past, LocalMove;
  }

  lemma {:induction false} AbortedAfterAbort(c: Config, events: seq<Event>)
    requires c.Valid() && Run(c, events).Some?
    ensures Run(c, events).value.aborted <==> Abort in events
  {
    if events != [] {
      var before, e := events[..|events| - 1], events[|events| - 1];
      assert events == before + [e];
      AbortedAfterAbort(c, before);
      AbortedStays(c, Run(c, before).value, e);
      hide Step;
    }
  }

  lemma AbortedStays(c: Config, s: State, e: Event)
    requires Step(c, s, e).Some?
    ensures Step(c, s, e).value.aborted <==> s.aborted || e == Abort
  {
    hide LocalMove, FilterBlocked, Launch, Collect, Missing;
  }

  lemma DeploymentBegins(c: Config, s: State, e: Event, x: string)
    requires Step(c, s, e).Some? && s.aborted && x in s.pcs && x in Step(c, s, e).value.pcs
    ensures Step(c, s, e).value.pcs[x] == Deploying ==> s.pcs[x] == Deploying
  {
    hide FilterBlocked, Collect, Missing, StepsFrom;
  }

  lemma SameTasks(c: Config, events: seq<Event>)
    requires c.Valid() && Run(c, events).Some?
    ensures Run(c, events).value.pcs.Keys == c.specs.Keys
  {
    InvariantHolds(c, events);
    hide Config.Valid, Run, PhaseInv, OutcomesInv, Replay, RunsAfterDependencies;
  }

  /** After a cancellation no deployment starts: one that runs then, and no other, may still come to its verdict. */
  lemma {:induction false} NoDeploymentAfterAbort(c: Config, events: seq<Event>, a: nat, x: string)
    requires c.Valid() && a < |events| && events[a] == Abort && x in c.specs
    requires Run(c, events).Some? && Run(c, events[..a]).Some?
    ensures x in Run(c, events).value.pcs && x in Run(c, events[..a]).value.pcs
    ensures Run(c, events).value.pcs[x] == Deploying ==> Run(c, events[..a]).value.pcs[x] == Deploying
    decreases |events|
  {
    var before, e := events[..|events| - 1], events[|events| - 1];
    assert events == before + [e];
    SameTasks(c, events);
    SameTasks(c, before);
    if a == |before| {
      assert events[..a] == before;
    } else {
      assert before[..a] == events[..a];
      NoDeploymentAfterAbort(c, before, a, x);
      AbortedAfterAbort(c, before);
      assert before[a] == Abort;
      DeploymentBegins(c, Run(c, before).value, e, x);
      hide Step;
    }
  }

  /** A run can be cancelled at any moment until it is finished. */
  lemma CancelAnytime(c: Config, events: seq<Event>)
    requires c.Valid() && Run(c, events).Some? && !Run(c, events).value.phase.Finished?
    ensures Abort !in events <==> Run(c, events + [Abort]).Some?
  {
    AbortedAfterAbort(c, events);
    assert (events + [Abort])[..|events|] == events;
  }

  /** How the steps of every task of a finished run have ended: all successful, all skipped, successful up to a failed
      or skipped one and skipped after it, or successful up to a point and cancelled from there. */
  lemma FinishedSteps(c: Config, events: seq<Event>, x: string)
    requires c.Valid() && Run(c, events).Some? && Run(c, events).value.phase.Finished? && x in c.specs
    ensures var rows := Replay(c, Run(c, events).value.log);
      && rows.Some? && x in rows.value && |rows.value[x].steps| == c.specs[x].steps
      && (rows.value[x].task == TaskSuccess ==> EndShape(rows.value[x], Success))
      && (rows.value[x].task == TaskSkipped ==> EndShape(rows.value[x], Skipped))
      && (rows.value[x].task == TaskFailed ==> EndShape(rows.value[x], Failed))
      && (rows.value[x].task == TaskCancelled ==> EndShape(rows.value[x], Cancelled))
  {
    PastAtEnd(c, events, x);
    hide Config.Valid, Run, Replay, Past, EndShape;
  }

  // ---- No group is entered after a cancellation ----

  /** The groups a run has entered so far. */
  function Entered(c: Config, phase: Phase): nat {
    match phase
    case NextGroup(g) => g
    case Skipping(g, _, _) => g + 1
    case Running(g, _) => g + 1
    case _ => |c.groups|
  }

  /** The task belongs to group `m` or a later one. */
  ghost predicate Late(c: Config, m: nat, x: string) {
    exists h :: m <= h < |c.groups| && x in c.groups[h]
  }

  ghost predicate NeverBegan(log: seq<Entry>, x: string) {
    forall r :: Begins(r) ==> !Said(log, x, r)
  }

  ghost predicate StaysOut(pcs: map<string, Pc>, log: seq<Entry>, x: string) {
    x in pcs ==> (pcs[x].Unstarted? || CancelPath(pcs[x])) && NeverBegan(log, x)
  }

  /** The run is cancelled, has entered at most `m` groups, and the tasks of the later ones have not begun. */
  ghost predicate LateIdle(c: Config, s: State, m: nat) {
    && s.aborted
    && (s.phase.NextGroup? || s.phase.Skipping? || s.phase.Running? ==> Entered(c, s.phase) <= m)
    && forall x :: Late(c, m, x) ==> StaysOut(s.pcs, s.log, x)
  }

  lemma {:induction false} BeforeGrows(c: Config, g: nat, h: nat)
    requires g <= h <= |c.groups|
    ensures Before(c, g) <= Before(c, h)
    decreases h
  {
    if g < h {
      BeforeGrows(c, g, h - 1);
      PrefixSnoc(c.groups, h - 1);
      FlattenSnoc(c.groups[..h - 1], c.groups[h - 1]);
    }
  }

  lemma LateIsNotBefore(c: Config, m: nat, x: string)
    requires c.Valid() && m <= |c.groups| && Late(c, m, x)
    ensures x !in Before(c, m)
  {
    hide Config.Valid, Before;
    var h :| m <= h < |c.groups| && x in c.groups[h];
    GroupFacts(c, h);
    BeforeGrows(c, m, h);
  }

  lemma LateIsNotInGroup(c: Config, m: nat, g: nat, x: string)
    requires c.Valid() && g < m && g < |c.groups| && x in c.groups[g]
    ensures !Late(c, m, x)
  {
    hide Config.Valid, Before;
    if Late(c, m, x) {
      var h :| m <= h < |c.groups| && x in c.groups[h];
      GroupFacts(c, g);
      GroupFacts(c, h);
      BeforeGrows(c, g + 1, h);
      assert false;
    }
  }

  lemma IdleInSkipping(c: Config, outcomes: map<string, Outcome>, pcs: map<string, Pc>,
                       g: nat, blocked: seq<string>, k: nat, x: string)
    requires c.Valid() && SkippingInv(c, outcomes, pcs, g, blocked, k) && x in pcs && x !in Before(c, g + 1)
    ensures pcs[x] == Unstarted
  {
    hide Config.Valid, Before, MemberOk, Distinct;
    GroupFacts(c, g);
    assert forall y :: y in blocked[..k] ==> y in blocked;
    assert x !in outcomes;
    assert k < |blocked| ==> blocked[k] in c.groups[g];
  }

  lemma IdleInRunning(c: Config, outcomes: map<string, Outcome>, pcs: map<string, Pc>, g: nat, runnable: seq<string>, x: string)
    requires RunningInv(c, outcomes, pcs, g, runnable) && x in pcs && x !in Before(c, g + 1)
    ensures pcs[x] == Unstarted
  {
    hide Before, DepsSucceeded;
  }

  lemma EnteredBound(c: Config, s: State)
    requires Inv(c, s)
    ensures Entered(c, s.phase) <= |c.groups|
  {
    hide Replay, OutcomesInv, RunsAfterDependencies, LocalsInv;
  }

  lemma IdleTask(c: Config, s: State, x: string)
    requires c.Valid() && Inv(c, s) && x in s.pcs && Entered(c, s.phase) < |c.groups| && x !in Before(c, Entered(c, s.phase))
    ensures s.pcs[x] == Unstarted
  {
    hide Config.Valid, Replay, OutcomesInv, RunsAfterDependencies, LocalsInv, SkippingInv, RunningInv, Before;
    match s.phase
    case NextGroup(g) =>
    case Skipping(g, blocked, k) =>
      SkippingIndex(c, s.outcomes, s.pcs, g, blocked, k);
      IdleInSkipping(c, s.outcomes, s.pcs, g, blocked, k, x);
    case Running(g, runnable) => IdleInRunning(c, s.outcomes, s.pcs, g, runnable, x);
    case _ =>
  }

  lemma EnteredSoFar(c: Config, s: State)
    requires c.Valid() && Inv(c, s)
    ensures Entered(c, s.phase) <= |c.groups|
    ensures forall x :: Late(c, Entered(c, s.phase), x) && x in s.pcs ==> s.pcs[x] == Unstarted
  {
    var m := Entered(c, s.phase);
    EnteredBound(c, s);
    hide Config.Valid, Inv, Late, Before;
    forall x | Late(c, m, x) && x in s.pcs ensures s.pcs[x] == Unstarted {
      LateNeedsGroup(c, m, x);
      LateIsNotBefore(c, m, x);
      IdleTask(c, s, x);
    }
  }

  lemma LateNeedsGroup(c: Config, m: nat, x: string)
    requires Late(c, m, x)
    ensures m < |c.groups|
  {
  }

  lemma UnstartedNeverBegan(spec: TaskSpec, x: string, events: seq<Event>, log: seq<Entry>)
    requires Past(spec, x, Unstarted, events, log)
    ensures NeverBegan(log, x)
  {
    hide Said, Did;
  }

  /** At the cancellation, the groups not yet entered are idle. */
  lemma LateIdleAtAbort(c: Config, s: State, events: seq<Event>)
    requires c.Valid() && Inv(c, s) && History(c, s, events)
    ensures LateIdle(c, s.(aborted := true), Entered(c, s.phase))
  {
    var m := Entered(c, s.phase);
    EnteredSoFar(c, s);
    InvDomain(c, s);
    hide Config.Valid, Inv, Late, Past, NeverBegan;
    forall x | Late(c, m, x) ensures StaysOut(s.pcs, s.log, x) {
      if x in s.pcs {
        UnstartedNeverBegan(c.specs[x], x, events, s.log);
      }
    }
  }

  /** While a group is entered, only its own tasks begin. */
  lemma OnlyOwnTasksBegin(c: Config, s: State, x: string)
    requires c.Valid() && Inv(c, s) && s.phase.Skipping? && Advanced(c, s).Some? && x in s.pcs
    requires Advanced(c, s).value.pcs.Keys == s.pcs.Keys && Advanced(c, s).value.pcs[x] != s.pcs[x]
    ensures s.phase.g < |c.groups| && x in c.groups[s.phase.g]
  {
    hide Config.Valid, Blocked, OutcomesInv, Replay, RunsAfterDependencies, RunningInv, LocalInv, LocalsInv, MemberOk,
      OthersIdle, Before;
  }

  lemma LateIdleAdvance(c: Config, s: State, m: nat)
    requires c.Valid() && Inv(c, s) && LateIdle(c, s, m) && Advanced(c, s).Some?
    ensures LateIdle(c, Advanced(c, s).value, m)
  {
    AdvanceBegins(c, s);
    var s' := Advanced(c, s).value;
    forall x | Late(c, m, x) ensures StaysOut(s'.pcs, s'.log, x) {
      if x in s.pcs && s'.pcs[x] != s.pcs[x] {
        LateAdvance(c, s, m, x);
      }
    }
    PhaseAdvance(c, s, m);
    hide Config.Valid, Inv, Advanced, Late;
  }

  /** Outside a group only cancellations begin. */
  lemma OnlyCancellationsBegin(c: Config, s: State, x: string)
    requires Advanced(c, s).Some? && !s.phase.Skipping? && x in s.pcs
    requires x in Advanced(c, s).value.pcs && Advanced(c, s).value.pcs[x] != s.pcs[x]
    ensures Advanced(c, s).value.pcs[x].Cancelling?
  {
    hide Blocked, FilterBlocked, Collect, Missing, Launch;
  }

  lemma LateAdvance(c: Config, s: State, m: nat, x: string)
    requires c.Valid() && Inv(c, s) && LateIdle(c, s, m) && Advanced(c, s).Some? && Late(c, m, x) && x in s.pcs
    requires Advanced(c, s).value.pcs.Keys == s.pcs.Keys && Advanced(c, s).value.pcs[x] != s.pcs[x]
    ensures Advanced(c, s).value.pcs[x].Cancelling?
  {
    hide Config.Valid, Inv, Advanced, Late, StaysOut;
    if s.phase.Skipping? {
      OnlyOwnTasksBegin(c, s, x);
      LateIsNotInGroup(c, m, s.phase.g, x);
      assert false;
    }
    OnlyCancellationsBegin(c, s, x);
  }

  lemma PhaseAdvance(c: Config, s: State, m: nat)
    requires LateIdle(c, s, m) && Advanced(c, s).Some?
    ensures var s' := Advanced(c, s).value;
      && s'.aborted
      && (s'.phase.NextGroup? || s'.phase.Skipping? || s'.phase.Running? ==> Entered(c, s'.phase) <= m)
  {
    hide Late, FilterBlocked, Launch, Collect, Missing;
  }

  lemma CancelledStaysOut(spec: TaskSpec, aborted: bool, x: string, pc: Pc, choice: Choice, log: seq<Entry>)
    requires LocalMove(spec, aborted, pc, choice).Some? && (pc.Unstarted? || CancelPath(pc)) && NeverBegan(log, x)
    ensures var m := LocalMove(spec, aborted, pc, choice).value;
      CancelPath(m.pc) && NeverBegan(WithReport(log, x, m.report), x)
  {
    var m := LocalMove(spec, aborted, pc, choice).value;
    PathsAreClosed(spec, aborted, pc, choice);
    if m.report.Some? {
      ReportSource(spec, aborted, pc, choice, m.report.value);
    }
    hide LocalMove;
    forall r | Begins(r) ensures !Said(WithReport(log, x, m.report), x, r) {
    }
  }

  lemma LateIdleMove(c: Config, s: State, m: nat, x: string, choice: Choice)
    requires LateIdle(c, s, m) && Step(c, s, TaskMove(x, choice)).Some?
    ensures LateIdle(c, Step(c, s, TaskMove(x, choice)).value, m)
  {
    MoveEffect(c, s, x, choice);
    hide Step, Late, LocalMove, NeverBegan;
    var mv := LocalMove(c.specs[x], s.aborted, s.pcs[x], choice).value;
    var log' := WithReport(s.log, x, mv.report);
    forall y | Late(c, m, y) ensures StaysOut(s.pcs[x := mv.pc], log', y) {
      assert StaysOut(s.pcs, s.log, y);
      if y == x {
        CancelledStaysOut(c.specs[x], s.aborted, x, s.pcs[x], choice, s.log);
      } else {
        OtherNeverBegan(s.log, x, y, mv.report);
      }
    }
  }

  lemma OtherNeverBegan(log: seq<Entry>, x: string, y: string, report: Option<Report>)
    requires y != x
    ensures NeverBegan(log, y) ==> NeverBegan(WithReport(log, x, report), y)
  {
    forall r ensures Said(WithReport(log, x, report), y, r) <==> Said(log, y, r) {
    }
    hide Said, WithReport;
  }

  lemma {:induction false} LateIdleHolds(c: Config, events: seq<Event>, a: nat)
    requires c.Valid() && Run(c, events).Some? && a < |events| && events[a] == Abort
    ensures Run(c, events[..a]).Some?
    ensures LateIdle(c, Run(c, events).value, Entered(c, Run(c, events[..a]).value.phase))
  {
    hide Config.Valid, Inv, Init, LateIdle, Advanced, Entered;
    var before, e := events[..|events| - 1], events[|events| - 1];
    assert events == before + [e];
    var s := Run(c, before).value;
    InvariantHolds(c, before);
    if a == |before| {
      assert events[..a] == before;
      HistoryHolds(c, before);
      LateIdleAtAbort(c, s, before);
    } else {
      LateIdleHolds(c, before, a);
      assert before[..a] == events[..a];
      var m := Entered(c, Run(c, events[..a]).value.phase);
      AbortedInLate(c, s, m);
      match e
      case Abort =>
      case Advance => LateIdleAdvance(c, s, m);
      case TaskMove(x, choice) => LateIdleMove(c, s, m, x, choice);
    }
  }

  lemma AbortedInLate(c: Config, s: State, m: nat)
    requires LateIdle(c, s, m)
    ensures s.aborted
  {
  }

  /** No group is entered after a cancellation: none of the tasks of the groups not entered by then ever waits for an
      approval or runs, and when the run is over they are all cancelled. */
  lemma NoGroupAfterAbort(c: Config, events: seq<Event>, a: nat, h: nat, x: string)
    requires c.Valid() && Run(c, events).Some? && a < |events| && events[a] == Abort
    requires Run(c, events[..a]).Some? && Entered(c, Run(c, events[..a]).value.phase) <= h < |c.groups|
    requires x in c.groups[h] && x in c.specs
    ensures forall i :: 0 <= i < |Run(c, events).value.log| && Run(c, events).value.log[i].task == x ==>
      !Begins(Run(c, events).value.log[i].report)
    ensures Run(c, events).value.phase.Finished? ==>
      && Replay(c, Run(c, events).value.log).Some? && x in Replay(c, Run(c, events).value.log).value
      && Replay(c, Run(c, events).value.log).value[x].task == TaskCancelled
  {
    LateIdleHolds(c, events, a);
    PastAtEnd(c, events, x);
    hide Config.Valid, Inv, Run, Past, Replay, LocalInv, Entered;
    var s, m := Run(c, events).value, Entered(c, Run(c, events[..a]).value.phase);
    assert Late(c, m, x);
    assert StaysOut(s.pcs, s.log, x);
    forall i | 0 <= i < |s.log| && s.log[i].task == x ensures !Begins(s.log[i].report) {
      assert s.log[i] == Entry(x, s.log[i].report);
      assert Said(s.log, x, s.log[i].report);
    }
  }
}

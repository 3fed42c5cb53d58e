/**
 * A pipeline run: the groups of the plan one after the other, the tasks of a
 * group interleaving freely, a user cancelling at any moment.
 */
module Executor {
  import opened Collections
  import opened Dag
  import opened DagGroups
  import opened StatusTables
  import opened TaskMachine

  datatype Config = Config(t: TaskTable, groups: seq<seq<string>>, specs: map<string, TaskSpec>) {
    ghost predicate Valid() {
      t.Valid() && IsPlan(t, groups) && specs.Keys == t.deps.Keys
    }
  }

  datatype Entry = Entry(task: string, report: Report)

  datatype Phase =
    | NextGroup(g: nat)
    | Skipping(g: nat, blocked: seq<string>, k: nat)
    | Running(g: nat, runnable: seq<string>)
    | AfterLoop
    | CancelUnstarted(todo: seq<string>, k: nat)
    | Returned
    | Finished(verdict: Option<PipelineVerdict>)

  /** `log` lists the reports in the order the control plane receives them. */
  datatype State = State(
    phase: Phase,
    aborted: bool,
    outcomes: map<string, Outcome>,
    pcs: map<string, Pc>,
    rows: map<string, Row>,
    log: seq<Entry>)

  datatype Event =
    | Abort
    | Advance
    | TaskMove(task: string, choice: Choice)

  // ---- The control plane replays the log ----

  function InitialRow(spec: TaskSpec): Row {
    Row(TaskPending, seq(spec.steps, _ => StepPending))
  }

  function InitialRows(c: Config): map<string, Row> {
    map x | x in c.specs :: InitialRow(c.specs[x])
  }

  /** The rows after applying every report of `log`; None if one of them is not an allowed transition. */
  function Replay(c: Config, log: seq<Entry>): Option<map<string, Row>> {
    if log == [] then Some(InitialRows(c))
    else
      var last := log[|log| - 1];
      match Replay(c, log[..|log| - 1])
      case None => None
      case Some(rows) =>
        if last.task in rows && Accepts(rows[last.task], last.report)
        then Some(rows[last.task := Apply(rows[last.task], last.report)])
        else None
  }

  // ---- Steps ----

  function Deps(c: Config, x: string): seq<string> {
    if x in c.t.deps then c.t.deps[x] else []
  }

  predicate Blocked(c: Config, outcomes: map<string, Outcome>, x: string) {
    exists d :: d in Deps(c, x) && d in outcomes && outcomes[d] != Success
  }

  function FilterBlocked(c: Config, outcomes: map<string, Outcome>, names: seq<string>, keep: bool): (r: seq<string>)
    ensures forall x :: x in r <==> x in names && Blocked(c, outcomes, x) == keep
    ensures Distinct(names) ==> Distinct(r)
  {
    if names == [] then []
    else
      (if Blocked(c, outcomes, names[0]) == keep then [names[0]] else [])
      + FilterBlocked(c, outcomes, names[1..], keep)
  }

  function Missing(names: seq<string>, outcomes: map<string, Outcome>): (r: seq<string>)
    ensures forall x :: x in r <==> x in names && x !in outcomes
    ensures Distinct(names) ==> Distinct(r)
  {
    if names == [] then []
    else (if names[0] in outcomes then [] else [names[0]]) + Missing(names[1..], outcomes)
  }

  function Launch(pcs: map<string, Pc>, names: seq<string>): (r: map<string, Pc>)
    ensures r.Keys == pcs.Keys
    ensures forall x :: x in pcs ==> r[x] == if x in names then Start else pcs[x]
  {
    map x | x in pcs :: if x in names then Start else pcs[x]
  }

  function Collect(outcomes: map<string, Outcome>, pcs: map<string, Pc>, names: seq<string>): (r: map<string, Outcome>)
    requires forall x :: x in names ==> x in pcs && pcs[x].Ended?
    ensures r.Keys == outcomes.Keys + Elements(names)
    ensures forall x :: x in r ==> r[x] == if x in names then pcs[x].outcome else outcomes[x]
  {
    map x | x in outcomes.Keys + Elements(names) :: if x in names then pcs[x].outcome else outcomes[x]
  }

  function PcOf(s: State, x: string): Pc {
    if x in s.pcs then s.pcs[x] else Unstarted
  }

  /** No further group starts once the run is aborted. */
  function EnterGroup(c: Config, s: State, g: nat): Option<State> {
    if g >= |c.groups| || s.aborted then Some(s.(phase := AfterLoop))
    else Some(s.(phase := Skipping(g, FilterBlocked(c, s.outcomes, c.groups[g], true), 0)))
  }

  /** Skip the blocked tasks one by one, then start all the others. */
  function AdvanceSkipping(c: Config, s: State, g: nat, blocked: seq<string>, k: nat): Option<State> {
    if k >= |blocked| then
      if g >= |c.groups| then None
      else
        var runnable := FilterBlocked(c, s.outcomes, c.groups[g], false);
        Some(s.(phase := Running(g, runnable), pcs := Launch(s.pcs, runnable)))
    else if PcOf(s, blocked[k]) == Unstarted then
      Some(s.(pcs := s.pcs[blocked[k] := SkipTask]))
    else if PcOf(s, blocked[k]) == Ended(Skipped) then
      Some(s.(phase := Skipping(g, blocked, k + 1), outcomes := s.outcomes[blocked[k] := Skipped]))
    else None
  }

  /** The group is over when all its tasks are. */
  function AdvanceRunning(s: State, g: nat, runnable: seq<string>): Option<State> {
    if forall x :: x in runnable ==> x in s.pcs && s.pcs[x].Ended?
    then Some(s.(phase := NextGroup(g + 1), outcomes := Collect(s.outcomes, s.pcs, runnable)))
    else None
  }

  /** Cancel, task by task, whatever never started. */
  function AdvanceCancelling(c: Config, s: State, todo: seq<string>, k: nat): Option<State> {
    if k >= |todo| then Some(s.(phase := Returned))
    else if PcOf(s, todo[k]) == Unstarted then
      if todo[k] in c.specs
      then Some(s.(pcs := s.pcs[todo[k] := Cancelling(StepsFrom(0, c.specs[todo[k]].steps), true)]))
      else None
    else if PcOf(s, todo[k]).Ended? then Some(s.(phase := CancelUnstarted(todo, k + 1)))
    else None
  }

  /** A cancelled run reports no verdict. */
  function FinalVerdict(s: State): Option<PipelineVerdict> {
    if s.aborted then None
    else if exists x :: x in s.outcomes && s.outcomes[x] != Success then Some(PipelineFailed)
    else Some(PipelineSuccess)
  }

  function Advanced(c: Config, s: State): Option<State> {
    match s.phase
    case NextGroup(g) => EnterGroup(c, s, g)
    case Skipping(g, blocked, k) => AdvanceSkipping(c, s, g, blocked, k)
    case Running(g, runnable) => AdvanceRunning(s, g, runnable)
    case AfterLoop =>
      if s.aborted then Some(s.(phase := CancelUnstarted(Missing(Flatten(c.groups), s.outcomes), 0)))
      else Some(s.(phase := Returned))
    case CancelUnstarted(todo, k) => AdvanceCancelling(c, s, todo, k)
    case Returned => Some(s.(phase := Finished(FinalVerdict(s))))
    case Finished(_) => None
  }

  function Moved(s: State, x: string, m: Move): State
    requires x in s.rows
  {
    match m.report
    case None => s.(pcs := s.pcs[x := m.pc])
    case Some(r) =>
      s.(pcs := s.pcs[x := m.pc],
         rows := if Accepts(s.rows[x], r) then s.rows[x := Apply(s.rows[x], r)] else s.rows,
         log := s.log + [Entry(x, r)])
  }

  /** The effect of one event; None when it cannot happen in `s`. */
  function Step(c: Config, s: State, e: Event): Option<State> {
    match e
    case Abort => if s.aborted || s.phase.Finished? then None else Some(s.(aborted := true))
    case Advance => Advanced(c, s)
    case TaskMove(x, choice) =>
      if x !in s.pcs || x !in s.rows || x !in c.specs then None
      else
        match LocalMove(c.specs[x], s.aborted, s.pcs[x], choice)
        case None => None
        case Some(m) => Some(Moved(s, x, m))
  }

  function Init(c: Config): State {
    State(NextGroup(0), false, map[], map x | x in c.t.deps :: Unstarted, InitialRows(c), [])
  }

  /** The state reached by a sequence of events; None once an event does not apply. */
  function Run(c: Config, events: seq<Event>): Option<State> {
    if events == [] then Some(Init(c))
    else
      match Run(c, events[..|events| - 1])
      case None => None
      case Some(s) => Step(c, s, events[|events| - 1])
  }

  // ---- The invariant ----

  /** The tasks of the groups before group `g`. */
  ghost function Before(c: Config, g: nat): set<string>
    requires g <= |c.groups|
  {
    Elements(Flatten(c.groups[..g]))
  }

  /** Every task outside `busy` either has its outcome recorded or has not started. */
  ghost predicate OthersIdle(outcomes: map<string, Outcome>, pcs: map<string, Pc>, busy: set<string>) {
    forall x :: x in pcs && x !in busy && x !in outcomes ==> pcs[x] == Unstarted
  }

  /** All dependencies of `x` have been decided. */
  ghost predicate DepsDecided(c: Config, outcomes: map<string, Outcome>, x: string) {
    forall d :: d in Deps(c, x) ==> d in outcomes
  }

  ghost predicate DepsSucceeded(c: Config, outcomes: map<string, Outcome>, x: string) {
    forall d :: d in Deps(c, x) ==> d in outcomes && outcomes[d] == Success
  }

  /** A member of the group being entered: decided dependencies, and scheduled to be skipped iff blocked. */
  ghost predicate MemberOk(c: Config, outcomes: map<string, Outcome>, blocked: seq<string>, x: string) {
    DepsDecided(c, outcomes, x) && (x in blocked <==> Blocked(c, outcomes, x))
  }

  ghost predicate SkippingInv(c: Config, outcomes: map<string, Outcome>, pcs: map<string, Pc>,
                              g: nat, blocked: seq<string>, k: nat) {
    && g < |c.groups| && k <= |blocked| && Distinct(blocked)
    && (forall x :: x in blocked ==> x in c.groups[g])
    && (forall x :: x in c.groups[g] ==> MemberOk(c, outcomes, blocked, x))
    && (forall x :: x in outcomes <==> x in Before(c, g) || x in blocked[..k])
    && OthersIdle(outcomes, pcs, if k == |blocked| then {} else {blocked[k]})
    && (k < |blocked| && blocked[k] in pcs ==> pcs[blocked[k]].Unstarted? || SkipPath(pcs[blocked[k]]))
  }

  ghost predicate RunningInv(c: Config, outcomes: map<string, Outcome>, pcs: map<string, Pc>,
                             g: nat, runnable: seq<string>) {
    && g < |c.groups|
    && (forall x :: x in runnable ==> x !in outcomes && DepsSucceeded(c, outcomes, x))
    && (forall x :: x in runnable && x in pcs ==> !pcs[x].Unstarted? && !SkipPath(pcs[x]))
    && (forall x :: x in outcomes || x in runnable <==> x in Before(c, g + 1))
    && OthersIdle(outcomes, pcs, Elements(runnable))
  }

  ghost predicate CancelInv(c: Config, s: State, todo: seq<string>, k: nat) {
    && s.aborted && k <= |todo| && Distinct(todo)
    && (forall x :: x in todo <==> x in c.t.deps && x !in s.outcomes)
    && (forall i :: 0 <= i < k ==> PcOf(s, todo[i]).Ended?)
    && (forall i :: k < i < |todo| ==> PcOf(s, todo[i]) == Unstarted)
    && (k < |todo| ==> PcOf(s, todo[k]).Unstarted? || CancelPath(PcOf(s, todo[k])))
  }

  ghost predicate AllEnded(pcs: map<string, Pc>) {
    forall x :: x in pcs ==> pcs[x].Ended?
  }

  ghost predicate PhaseInv(c: Config, s: State) {
    match s.phase
    case NextGroup(g) => g <= |c.groups| && s.outcomes.Keys == Before(c, g) && OthersIdle(s.outcomes, s.pcs, {})
    case Skipping(g, blocked, k) => SkippingInv(c, s.outcomes, s.pcs, g, blocked, k)
    case Running(g, runnable) => RunningInv(c, s.outcomes, s.pcs, g, runnable)
    case AfterLoop => OthersIdle(s.outcomes, s.pcs, {}) && (s.aborted || s.outcomes.Keys == c.t.deps.Keys)
    case CancelUnstarted(todo, k) => CancelInv(c, s, todo, k)
    case Returned => AllEnded(s.pcs) && (s.aborted || s.outcomes.Keys == c.t.deps.Keys)
    case Finished(verdict) =>
      AllEnded(s.pcs) && (s.aborted || s.outcomes.Keys == c.t.deps.Keys) && verdict == FinalVerdict(s)
  }

  ghost predicate OutcomeOk(c: Config, outcomes: map<string, Outcome>, pcs: map<string, Pc>, x: string)
    requires x in outcomes
  {
    && x in pcs && pcs[x] == Ended(outcomes[x])
    && if outcomes[x] == Skipped then Blocked(c, outcomes, x) else DepsSucceeded(c, outcomes, x)
  }

  ghost predicate OutcomesInv(c: Config, outcomes: map<string, Outcome>, pcs: map<string, Pc>) {
    forall x :: x in outcomes ==> OutcomeOk(c, outcomes, pcs, x)
  }

  ghost predicate LocalsInv(c: Config, aborted: bool, pcs: map<string, Pc>, rows: map<string, Row>) {
    && pcs.Keys == rows.Keys == c.specs.Keys == c.t.deps.Keys
    && forall x :: x in pcs ==> LocalInv(c.specs[x], aborted, pcs[x], rows[x])
  }

  ghost predicate TransitiveDependency(t: TaskTable, x: string, d: string) {
    exists w :: WalkFrom(t, x, w) && |w| > 1 && w[|w| - 1] == d
  }

  ghost predicate SucceededIn(log: seq<Entry>, d: string) {
    Entry(d, TaskReport(TaskSuccess)) in log
  }

  /** In the log, a task is marked running only after all its transitive dependencies were marked successful. */
  ghost predicate RunsAfterDependencies(c: Config, log: seq<Entry>) {
    forall i, d ::
      0 <= i < |log| && log[i].report == TaskReport(TaskRunning) && TransitiveDependency(c.t, log[i].task, d)
      ==> SucceededIn(log[..i], d)
  }

  ghost predicate Inv(c: Config, s: State) {
    && LocalsInv(c, s.aborted, s.pcs, s.rows)
    && OutcomesInv(c, s.outcomes, s.pcs)
    && PhaseInv(c, s)
    && Replay(c, s.log) == Some(s.rows)
    && RunsAfterDependencies(c, s.log)
  }
}

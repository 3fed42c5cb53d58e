/** What lies behind every claim, run and failure of the overlapping schedule dispatchers. */
module DispatchHistory {
  import opened Collections
  import opened CompareAndSwap
  import opened Dispatch
  import opened CronNext
  import CronFields

  /** Invocation `w` selected the schedule at its time `now`, when it was active and due at `slot`. */
  ghost predicate SelectedAt(states: seq<State>, events: seq<Event>, j: nat, w: nat, now: int, id: string, slot: int) {
    && j < |events| && j < |states| && events[j] == Select(w, now)
    && id in states[j].schedules && states[j].schedules[id].isActive
    && states[j].schedules[id].nextRunAt == Some(slot) && slot <= now
  }

  ghost predicate Selected(states: seq<State>, events: seq<Event>, k: nat, w: nat, now: int, id: string, slot: int) {
    exists j: nat :: j < k && SelectedAt(states, events, j, w, now, id, slot)
  }

  /** The ways one schedule of an invocation can end without a run. */
  predicate IsFailure(e: Event, w: nat, id: string) {
    match e
    case NoNextRun(u, x) => u == w && x == id
    case SwapFails(u, x, next, applied) => u == w && x == id
    case CreateFails(u, x, stored) => u == w && x == id
    case _ => false
  }

  ghost predicate HasFailed(events: seq<Event>, k: nat, w: nat, id: string) {
    exists j :: 0 <= j < k && j < |events| && IsFailure(events[j], w, id)
  }

  ghost predicate JobBehind(states: seq<State>, events: seq<Event>, k: nat, w: nat, now: int, id: string, job: Job,
                            runs: seq<PipelineRun>)
  {
    match job
    case Due(seen) => Selected(states, events, k, w, now, id, seen)
    case Claimed(slot) => Selected(states, events, k, w, now, id, slot)
    case Dispatched(slot) => Selected(states, events, k, w, now, id, slot) && PipelineRun(id, slot, w) in runs
    case Skipped(seen) => Selected(states, events, k, w, now, id, seen)
    case Failed => HasFailed(events, k, w, id)
  }

  ghost predicate JobsBehind(states: seq<State>, events: seq<Event>, k: nat)
    requires k < |states|
  {
    forall w, id :: w in states[k].invocations && id in states[k].invocations[w].jobs ==>
      && id in states[k].schedules
      && JobBehind(states, events, k, w, states[k].invocations[w].now, id, states[k].invocations[w].jobs[id], states[k].runs)
  }

  ghost predicate ClaimBehind(states: seq<State>, events: seq<Event>, k: nat, c: Claim) {
    c.from.Some? && Selected(states, events, k, c.writer, c.at, c.key, c.from.value)
  }

  ghost predicate RunBehind(states: seq<State>, events: seq<Event>, k: nat, r: PipelineRun) {
    exists now :: Selected(states, events, k, r.writer, now, r.schedule, r.slot)
  }

  ghost predicate ClaimsAndRunsBehind(states: seq<State>, events: seq<Event>, k: nat)
    requires k < |states|
  {
    && (forall i :: 0 <= i < |states[k].claims| ==> ClaimBehind(states, events, k, states[k].claims[i]))
    && (forall i :: 0 <= i < |states[k].runs| ==> RunBehind(states, events, k, states[k].runs[i]))
  }

  // ---- One step ----

  lemma StepAt(states: seq<State>, events: seq<Event>, k: nat)
    requires Trace(states, events) && k < |events|
    ensures |states| == |events| + 1 && Step(states[k], events[k], states[k + 1])
  {
  }

  lemma StepBefore(states: seq<State>, events: seq<Event>, k: nat)
    requires Trace(states, events) && 0 < k < |states|
    ensures |states| == |events| + 1 && Step(states[k - 1], events[k - 1], states[k])
  {
  }

  lemma JobBehindStays(states: seq<State>, events: seq<Event>, k: nat, w: nat, now: int, id: string, job: Job,
                       runs: seq<PipelineRun>, more: seq<PipelineRun>)
    requires JobBehind(states, events, k, w, now, id, job, runs) && runs <= more
    ensures JobBehind(states, events, k + 1, w, now, id, job, more)
  {
    hide SelectedAt, IsFailure;
    assert forall r :: r in runs ==> r in more;
  }

  /** The job an event is about, if it is about one. */
  predicate Concerns(e: Event, w: nat, id: string) {
    match e
    case Select(u, now) => u == w
    case NoNextRun(u, x) => u == w && x == id
    case Swap(u, x, next) => u == w && x == id
    case SwapFails(u, x, next, applied) => u == w && x == id
    case CreateRun(u, x) => u == w && x == id
    case CreateFails(u, x, stored) => u == w && x == id
  }

  lemma OthersUntouched(s: State, e: Event, s': State, w: nat, id: string)
    requires Step(s, e, s') && !Concerns(e, w, id)
    requires w in s'.invocations && id in s'.invocations[w].jobs
    ensures w in s.invocations && id in s.invocations[w].jobs
    ensures s'.invocations[w].now == s.invocations[w].now && s'.invocations[w].jobs[id] == s.invocations[w].jobs[id]
  {
    hide IsNextRun, WindowHasMatch, SelectDue;
  }

  lemma RowsStay(s: State, e: Event, s': State)
    requires Step(s, e, s')
    ensures forall id :: id in s.schedules ==> id in s'.schedules
    ensures s.runs <= s'.runs
  {
    hide IsNextRun, WindowHasMatch, SelectDue;
  }

  lemma SelectBehind(states: seq<State>, events: seq<Event>, k: nat, w: nat, now: int, id: string)
    requires k < |events| && k + 1 < |states| && Step(states[k], events[k], states[k + 1]) && events[k] == Select(w, now)
    requires w in states[k + 1].invocations && id in states[k + 1].invocations[w].jobs
    ensures id in states[k + 1].schedules
    ensures JobBehind(states, events, k + 1, w, states[k + 1].invocations[w].now, id,
                      states[k + 1].invocations[w].jobs[id], states[k + 1].runs)
  {
    assert SelectedAt(states, events, k, w, now, id, states[k].schedules[id].nextRunAt.value);
  }

  lemma MoveBehind(states: seq<State>, events: seq<Event>, k: nat, w: nat, id: string)
    requires k < |events| && k + 1 < |states| && Step(states[k], events[k], states[k + 1])
    requires !events[k].Select? && Concerns(events[k], w, id)
    requires JobsBehind(states, events, k)
    ensures w in states[k + 1].invocations && id in states[k + 1].invocations[w].jobs && id in states[k + 1].schedules
    ensures JobBehind(states, events, k + 1, w, states[k + 1].invocations[w].now, id,
                      states[k + 1].invocations[w].jobs[id], states[k + 1].runs)
  {
    hide IsNextRun, WindowHasMatch, SelectedAt, SelectDue;
    var s := states[k];
    assert JobBehind(states, events, k, w, s.invocations[w].now, id, JobOf(s, w, id), s.runs);
    if JobOf(states[k + 1], w, id).Failed? {
      assert IsFailure(events[k], w, id);
    }
  }

  lemma JobIsBehind(states: seq<State>, events: seq<Event>, k: nat, w: nat, id: string)
    requires k < |states| && JobsBehind(states, events, k)
    requires w in states[k].invocations && id in states[k].invocations[w].jobs
    ensures id in states[k].schedules
    ensures JobBehind(states, events, k, w, states[k].invocations[w].now, id, states[k].invocations[w].jobs[id], states[k].runs)
  {
  }

  lemma JobsStayBehind(states: seq<State>, events: seq<Event>, k: nat)
    requires Trace(states, events) && k < |events| && JobsBehind(states, events, k)
    ensures JobsBehind(states, events, k + 1)
  {
    StepAt(states, events, k);
    var s, e, s' := states[k], events[k], states[k + 1];
    RowsStay(s, e, s');
    hide Trace, Step, JobBehind;
    forall w, id | w in s'.invocations && id in s'.invocations[w].jobs
      ensures && id in s'.schedules
              && JobBehind(states, events, k + 1, w, s'.invocations[w].now, id, s'.invocations[w].jobs[id], s'.runs)
    {
      if !Concerns(e, w, id) {
        OthersUntouched(s, e, s', w, id);
        JobIsBehind(states, events, k, w, id);
        JobBehindStays(states, events, k, w, s.invocations[w].now, id, s.invocations[w].jobs[id], s.runs, s'.runs);
      } else if e.Select? {
        SelectBehind(states, events, k, w, e.now, id);
      } else {
        MoveBehind(states, events, k, w, id);
      }
    }
  }

  /** A step adds no claim, or one of the slot its job was due at. */
  lemma NewClaim(s: State, e: Event, s': State)
    requires Step(s, e, s')
    ensures s'.claims == s.claims
      || (&& (e.Swap? || e.SwapFails?) && HasJob(s, e.w, e.id) && JobOf(s, e.w, e.id).Due?
          && s'.claims == s.claims
             + [Claim(e.id, Some(JobOf(s, e.w, e.id).seen), e.next, e.w, s.invocations[e.w].now)])
  {
    hide IsNextRun, WindowHasMatch, SelectDue;
  }

  /** A step adds no run, or one for the slot its job had claimed. */
  lemma NewRun(s: State, e: Event, s': State)
    requires Step(s, e, s')
    ensures s'.runs == s.runs
      || (&& (e.CreateRun? || e.CreateFails?) && HasJob(s, e.w, e.id) && JobOf(s, e.w, e.id).Claimed?
          && s'.runs == s.runs + [PipelineRun(e.id, JobOf(s, e.w, e.id).slot, e.w)])
  {
    hide IsNextRun, WindowHasMatch, SelectDue;
  }

  lemma ClaimsStayBehind(states: seq<State>, events: seq<Event>, k: nat)
    requires Trace(states, events) && k < |events| && JobsBehind(states, events, k)
    requires ClaimsAndRunsBehind(states, events, k)
    ensures ClaimsAndRunsBehind(states, events, k + 1)
  {
    StepAt(states, events, k);
    var s, e, s' := states[k], events[k], states[k + 1];
    NewClaim(s, e, s');
    NewRun(s, e, s');
    hide Trace, Step, SelectedAt;
    if s'.claims != s.claims || s'.runs != s.runs {
      assert JobBehind(states, events, k, e.w, s.invocations[e.w].now, e.id, JobOf(s, e.w, e.id), s.runs);
    }
    forall i | 0 <= i < |s'.claims| ensures ClaimBehind(states, events, k + 1, s'.claims[i]) {
      if i < |s.claims| {
        assert ClaimBehind(states, events, k, s.claims[i]);
      }
    }
    forall i | 0 <= i < |s'.runs| ensures RunBehind(states, events, k + 1, s'.runs[i]) {
      if i < |s.runs| {
        assert RunBehind(states, events, k, s.runs[i]);
        var now :| Selected(states, events, k, s.runs[i].writer, now, s.runs[i].schedule, s.runs[i].slot);
        assert Selected(states, events, k + 1, s.runs[i].writer, now, s.runs[i].schedule, s.runs[i].slot);
      } else {
        assert Selected(states, events, k + 1, e.w, s.invocations[e.w].now, e.id, s'.runs[i].slot);
      }
    }
  }

  // ---- Whole runs ----

  lemma {:induction false} HistoryHolds(states: seq<State>, events: seq<Event>, k: nat)
    requires Trace(states, events) && k < |states|
    ensures JobsBehind(states, events, k) && ClaimsAndRunsBehind(states, events, k)
  {
    if k > 0 {
      hide Trace, Step, JobsBehind, ClaimsAndRunsBehind;
      StepBefore(states, events, k);
      HistoryHolds(states, events, k - 1);
      JobsStayBehind(states, events, k - 1);
      ClaimsStayBehind(states, events, k - 1);
    }
  }

  /** A slot is claimed only by an invocation that found the schedule active and due at that very slot. */
  lemma ClaimedWhenDue(states: seq<State>, events: seq<Event>, k: nat, i: nat)
    requires Trace(states, events) && k < |states| && i < |states[k].claims|
    ensures var c := states[k].claims[i];
      exists j: nat ::
        && j < k && j < |events| && events[j] == Select(c.writer, c.at) && c.key in states[j].schedules
        && states[j].schedules[c.key].isActive && states[j].schedules[c.key].nextRunAt == c.from
        && c.from.Some? && c.from.value <= c.at
  {
    HistoryHolds(states, events, k);
    var c := states[k].claims[i];
    assert ClaimBehind(states, events, k, c);
    var j: nat :| j < k && SelectedAt(states, events, j, c.writer, c.at, c.key, c.from.value);
    hide Trace, JobsBehind, ClaimsAndRunsBehind;
  }

  /** A run is created only by an invocation that found the schedule active and due at the run's slot. */
  lemma RunWhenDue(states: seq<State>, events: seq<Event>, k: nat, i: nat)
    requires Trace(states, events) && k < |states| && i < |states[k].runs|
    ensures var r := states[k].runs[i];
      exists j: nat, now ::
        && j < k && j < |events| && events[j] == Select(r.writer, now) && r.schedule in states[j].schedules
        && states[j].schedules[r.schedule].isActive
        && states[j].schedules[r.schedule].nextRunAt == Some(r.slot) && r.slot <= now
  {
    HistoryHolds(states, events, k);
    var r := states[k].runs[i];
    assert RunBehind(states, events, k, r);
    var now :| Selected(states, events, k, r.writer, now, r.schedule, r.slot);
    var j: nat :| j < k && SelectedAt(states, events, j, r.writer, now, r.schedule, r.slot);
    hide Trace, JobsBehind, ClaimsAndRunsBehind;
  }

  // ---- Progress ----

  /** How far a job has come: to be claimed, to be run, over. */
  function Progress(job: Job): nat {
    match job
    case Due(seen) => 0
    case Claimed(slot) => 1
    case _ => 2
  }

  /** The slot a job is about stays the one it was selected with. */
  predicate Continues(before: Job, after: Job) {
    && Progress(before) < Progress(after)
    && (before.Due? ==> after in {Claimed(before.seen), Skipped(before.seen), Failed})
    && (before.Claimed? ==> after in {Dispatched(before.slot), Failed})
  }

  lemma StepMovesOn(s: State, e: Event, s': State, w: nat, id: string)
    requires Step(s, e, s') && HasJob(s, w, id)
    ensures HasJob(s', w, id) && s'.invocations[w].now == s.invocations[w].now
    ensures if Concerns(e, w, id) then Continues(JobOf(s, w, id), JobOf(s', w, id)) else JobOf(s', w, id) == JobOf(s, w, id)
  {
    hide IsNextRun, WindowHasMatch, SelectDue;
  }

  predicate IsAbout(job: Job, slot: int) {
    job in {Due(slot), Claimed(slot), Dispatched(slot), Skipped(slot), Failed}
  }

  lemma {:induction false} JobsMoveOn(states: seq<State>, events: seq<Event>, j: nat, k: nat, w: nat, id: string, slot: int)
    requires Trace(states, events) && j <= k < |states| && HasJob(states[j], w, id) && IsAbout(JobOf(states[j], w, id), slot)
    ensures HasJob(states[k], w, id) && IsAbout(JobOf(states[k], w, id), slot)
    ensures Progress(JobOf(states[j], w, id)) <= Progress(JobOf(states[k], w, id))
    decreases k - j
  {
    if j < k {
      StepAt(states, events, j);
      hide Trace;
      StepMovesOn(states[j], events[j], states[j + 1], w, id);
      hide Step, HasJob;
      JobsMoveOn(states, events, j + 1, k, w, id, slot);
    }
  }

  /** Every active schedule that is due, and no other, is taken up, about the slot it was due at; a run that was
      reported exists; and a job fails only after one of the three failures. */
  lemma EveryDueScheduleIsTaken(states: seq<State>, events: seq<Event>, j: nat, k: nat, w: nat, now: int, id: string)
    requires Trace(states, events) && j < k < |states| && events[j] == Select(w, now)
    ensures w in states[j + 1].invocations && w !in states[j].invocations
    ensures id in states[j + 1].invocations[w].jobs <==>
      && id in states[j].schedules && states[j].schedules[id].isActive
      && states[j].schedules[id].nextRunAt.Some? && states[j].schedules[id].nextRunAt.value <= now
    ensures id in states[j + 1].invocations[w].jobs ==>
      var slot := states[j].schedules[id].nextRunAt.value;
      && HasJob(states[k], w, id)
      && JobOf(states[k], w, id) in {Due(slot), Claimed(slot), Dispatched(slot), Skipped(slot), Failed}
      && (JobOf(states[k], w, id).Dispatched? ==> PipelineRun(id, slot, w) in states[k].runs)
      && (JobOf(states[k], w, id).Failed? ==> exists m :: 0 <= m < k && IsFailure(events[m], w, id))
  {
    StepAt(states, events, j);
    HistoryHolds(states, events, k);
    if id in states[j + 1].invocations[w].jobs {
      var slot := states[j].schedules[id].nextRunAt.value;
      assert JobOf(states[j + 1], w, id) == Due(slot);
      hide Trace, Step, SelectedAt;
      JobsMoveOn(states, events, j + 1, k, w, id, slot);
      assert JobBehind(states, events, k, w, states[k].invocations[w].now, id, JobOf(states[k], w, id), states[k].runs);
    }
  }

  /** A job whose swap was attempted is no longer due, and one whose run was to be created is over. */
  lemma TriedOnce(states: seq<State>, events: seq<Event>, j: nat, k: nat, w: nat, id: string)
    requires Trace(states, events) && j < k < |states| && !events[j].Select? && Concerns(events[j], w, id)
    ensures HasJob(states[k], w, id) && !JobOf(states[k], w, id).Due?
    ensures events[j].CreateRun? || events[j].CreateFails? || events[j].NoNextRun? ==> !JobOf(states[k], w, id).Claimed?
  {
    StepAt(states, events, j);
    StepMovesOn(states[j], events[j], states[j + 1], w, id);
    var job := JobOf(states[j + 1], w, id);
    assert Progress(job) == 2 || job.Claimed?;
    assert events[j].CreateRun? || events[j].CreateFails? || events[j].NoNextRun? ==> Progress(job) == 2;
    hide Trace, Step;
    var slot := match job case Claimed(v) => v case Dispatched(v) => v case Skipped(v) => v case _ => 0;
    JobsMoveOn(states, events, j + 1, k, w, id, slot);
  }

  /** An invocation gives up on a schedule before claiming it only when the expression is malformed or matches no minute
      of the 366 days after its clock; so a slot of any other schedule is not dropped there. */
  lemma GivesUpOnlyWithoutRun(states: seq<State>, events: seq<Event>, j: nat, w: nat, id: string)
    requires Trace(states, events) && j < |events| && events[j] == NoNextRun(w, id)
    ensures HasJob(states[j], w, id)
    ensures var cron, next := states[j].schedules[id].cron, NextMinute(states[j].invocations[w].now);
      CronFields.ExpressionIsValid(cron) ==> forall m :: next <= m < next + WINDOW ==> !Matches(cron, m)
  {
    StepAt(states, events, j);
    hide Trace, Matches;
  }

  // ---- The rows ----

  /** Only the two times of a row ever change, and they are those of the last claim on it. */
  ghost predicate RowBehind(first: Schedule, row: Schedule, claims: seq<Claim>, id: string) {
    && row.cron == first.cron && row.isActive == first.isActive
    && ((forall i :: 0 <= i < |claims| ==> claims[i].key != id) ==> row == first)
    && (forall i :: Latest(claims, i) && claims[i].key == id ==>
          row.lastRunAt == Some(claims[i].at) && row.nextRunAt == Some(claims[i].to))
  }

  /** A step leaves all rows and claims as they are, or makes one claim and moves its row on. */
  lemma RowStep(s: State, e: Event, s': State)
    requires Step(s, e, s')
    ensures (s'.schedules == s.schedules && s'.claims == s.claims)
      || (&& (e.Swap? || e.SwapFails?) && HasJob(s, e.w, e.id)
          && s'.schedules == Advance(s, e.w, e.id, e.next).schedules && s'.claims == Advance(s, e.w, e.id, e.next).claims)
  {
    hide IsNextRun, WindowHasMatch, SelectDue;
  }

  lemma RowBehindStays(first: Schedule, row: Schedule, claims: seq<Claim>, id: string, c: Claim)
    requires RowBehind(first, row, claims, id) && c.key != id
    ensures RowBehind(first, row, claims + [c], id)
  {
    var longer := claims + [c];
    assert longer[|claims|] == c;
    assert forall i :: 0 <= i < |claims| ==> longer[i] == claims[i];
    forall i | Latest(longer, i) && longer[i].key == id
      ensures row.lastRunAt == Some(longer[i].at) && row.nextRunAt == Some(longer[i].to)
    {
      assert Latest(claims, i);
    }
  }

  lemma RowBehindMoves(first: Schedule, row: Schedule, claims: seq<Claim>, c: Claim)
    requires RowBehind(first, row, claims, c.key)
    ensures RowBehind(first, row.(nextRunAt := Some(c.to), lastRunAt := Some(c.at)), claims + [c], c.key)
  {
    var longer := claims + [c];
    assert longer[|claims|] == c;
    forall i | Latest(longer, i) && longer[i].key == c.key ensures i == |claims| {
    }
  }

  /** The row of schedule `id` in state `s`, if there is one. */
  ghost predicate RowInState(start: State, s: State, id: string) {
    && (id in s.schedules <==> id in start.schedules)
    && (id in s.schedules ==> RowBehind(start.schedules[id], s.schedules[id], s.claims, id))
  }

  lemma RowAdvances(start: State, s: State, w: nat, x: string, next: int, id: string)
    requires HasJob(s, w, x) && RowInState(start, s, id)
    ensures RowInState(start, s.(schedules := Advance(s, w, x, next).schedules, claims := Advance(s, w, x, next).claims), id)
  {
    hide RowBehind;
    if id in s.schedules {
      var c := Claim(x, s.schedules[x].nextRunAt, next, w, s.invocations[w].now);
      if id == x {
        RowBehindMoves(start.schedules[id], s.schedules[id], s.claims, c);
      } else {
        RowBehindStays(start.schedules[id], s.schedules[id], s.claims, id, c);
      }
    }
  }

  lemma RowMoves(start: State, s: State, e: Event, s': State, id: string)
    requires Step(s, e, s') && RowInState(start, s, id)
    ensures RowInState(start, s', id)
  {
    RowStep(s, e, s');
    hide Step, RowBehind, Advance;
    if s'.schedules != s.schedules || s'.claims != s.claims {
      RowAdvances(start, s, e.w, e.id, e.next, id);
    }
  }

  lemma RowsStart(states: seq<State>, events: seq<Event>, id: string)
    requires Trace(states, events)
    ensures states != [] && RowInState(states[0], states[0], id)
  {
  }

  lemma {:induction false} RowsAreBehind(states: seq<State>, events: seq<Event>, k: nat, id: string)
    requires Trace(states, events) && k < |states|
    ensures RowInState(states[0], states[k], id)
  {
    if k == 0 {
      RowsStart(states, events, id);
      hide Trace, RowInState;
    } else {
      hide Trace, Step, RowInState;
      StepBefore(states, events, k);
      RowsAreBehind(states, events, k - 1, id);
      RowMoves(states[0], states[k - 1], events[k - 1], states[k], id);
    }
  }

  /** Schedules are neither added, removed nor reconfigured, and a row's times are those of the last claim on it. */
  lemma RowsFollowClaims(states: seq<State>, events: seq<Event>, k: nat, id: string)
    requires Trace(states, events) && k < |states|
    ensures id in states[k].schedules <==> id in states[0].schedules
    ensures id in states[k].schedules ==>
      var first, row := states[0].schedules[id], states[k].schedules[id];
      && row.cron == first.cron && row.isActive == first.isActive
      && ((forall i :: 0 <= i < |states[k].claims| ==> states[k].claims[i].key != id) ==> row == first)
      && (forall i :: Latest(states[k].claims, i) && states[k].claims[i].key == id ==>
            row.lastRunAt == Some(states[k].claims[i].at) && row.nextRunAt == Some(states[k].claims[i].to))
  {
    RowsAreBehind(states, events, k, id);
    hide Trace;
  }
}

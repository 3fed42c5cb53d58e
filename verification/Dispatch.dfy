/** Overlapping invocations of the schedule dispatcher: one atomic step per database call. */
module Dispatch {
  import opened Collections
  import opened CompareAndSwap
  import opened CronNext
  import CronFields
  import Calendar

  datatype Schedule = Schedule(cron: string, isActive: bool, nextRunAt: Option<int>, lastRunAt: Option<int>)

  /** One schedule within one invocation. */
  datatype Job =
    | Due(seen: int)
    | Claimed(slot: int)
    | Dispatched(slot: int)
    | Skipped(seen: int)
    | Failed

  /** An invocation: its own clock, and what it selected. */
  datatype Invocation = Invocation(now: int, jobs: map<string, Job>)

  datatype PipelineRun = PipelineRun(schedule: string, slot: int, writer: nat)

  datatype State = State(
    schedules: map<string, Schedule>,
    invocations: map<nat, Invocation>,
    claims: seq<Claim>,
    runs: seq<PipelineRun>)

  /** `stored` and `applied`: whether a call that reported failure took effect all the same. */
  datatype Event =
    | Select(w: nat, now: int)
    | NoNextRun(w: nat, id: string)
    | Swap(w: nat, id: string, next: int)
    | SwapFails(w: nat, id: string, next: int, applied: bool)
    | CreateRun(w: nat, id: string)
    | CreateFails(w: nat, id: string, stored: bool)

  predicate IsDue(s: Schedule, now: int) {
    s.isActive && s.nextRunAt.Some? && s.nextRunAt.value <= now
  }

  function SelectDue(schedules: map<string, Schedule>, now: int): map<string, Job> {
    map id | id in schedules && IsDue(schedules[id], now) :: Due(schedules[id].nextRunAt.value)
  }

  predicate HasJob(s: State, w: nat, id: string) {
    w in s.invocations && id in s.invocations[w].jobs && id in s.schedules
  }

  function JobOf(s: State, w: nat, id: string): Job
    requires HasJob(s, w, id)
  {
    s.invocations[w].jobs[id]
  }

  function SetJob(s: State, w: nat, id: string, job: Job): State
    requires w in s.invocations
  {
    s.(invocations := s.invocations[w := s.invocations[w].(jobs := s.invocations[w].jobs[id := job])])
  }

  /** The conditional update, when the row still holds the value seen. */
  function Advance(s: State, w: nat, id: string, next: int): State
    requires HasJob(s, w, id)
  {
    var row := s.schedules[id];
    var now := s.invocations[w].now;
    s.(schedules := s.schedules[id := row.(nextRunAt := Some(next), lastRunAt := Some(now))],
       claims := s.claims + [Claim(id, row.nextRunAt, next, w, now)])
  }

  ghost predicate Step(s: State, e: Event, s': State) {
    match e
    case Select(w, now) =>
      && w !in s.invocations
      && s' == s.(invocations := s.invocations[w := Invocation(now, SelectDue(s.schedules, now))])
    case NoNextRun(w, id) =>
      && HasJob(s, w, id) && JobOf(s, w, id).Due?
      && (!CronFields.ExpressionIsValid(s.schedules[id].cron) || !WindowHasMatch(s.schedules[id].cron, s.invocations[w].now))
      && s' == SetJob(s, w, id, Failed)
    case Swap(w, id, next) =>
      && HasJob(s, w, id) && JobOf(s, w, id).Due?
      && IsNextRun(s.schedules[id].cron, s.invocations[w].now, next)
      && s' == if s.schedules[id].nextRunAt == Some(JobOf(s, w, id).seen)
               then SetJob(Advance(s, w, id, next), w, id, Claimed(JobOf(s, w, id).seen))
               else SetJob(s, w, id, Skipped(JobOf(s, w, id).seen))
    case SwapFails(w, id, next, applied) =>
      && HasJob(s, w, id) && JobOf(s, w, id).Due?
      && IsNextRun(s.schedules[id].cron, s.invocations[w].now, next)
      && s' == SetJob(if applied && s.schedules[id].nextRunAt == Some(JobOf(s, w, id).seen) then Advance(s, w, id, next) else s,
                      w, id, Failed)
    case CreateRun(w, id) =>
      && HasJob(s, w, id) && JobOf(s, w, id).Claimed?
      && s' == SetJob(s.(runs := s.runs + [PipelineRun(id, JobOf(s, w, id).slot, w)]), w, id, Dispatched(JobOf(s, w, id).slot))
    case CreateFails(w, id, stored) =>
      && HasJob(s, w, id) && JobOf(s, w, id).Claimed?
      && s' == SetJob(if stored then s.(runs := s.runs + [PipelineRun(id, JobOf(s, w, id).slot, w)]) else s, w, id, Failed)
  }

  ghost predicate Initial(s: State) {
    s.invocations == map[] && s.claims == [] && s.runs == []
  }

  ghost predicate Trace(states: seq<State>, events: seq<Event>) {
    && |states| == |events| + 1 && Initial(states[0])
    && forall i :: 0 <= i < |events| ==> Step(states[i], events[i], states[i + 1])
  }

  // ---- The invariant ----

  function Current(schedules: map<string, Schedule>): map<string, Option<int>> {
    map id | id in schedules :: schedules[id].nextRunAt
  }

  /** Slot `v` of schedule `id` has been claimed. */
  ghost predicate IsClaimed(claims: seq<Claim>, id: string, v: int) {
    exists i :: 0 <= i < |claims| && claims[i].key == id && claims[i].from == Some(v)
  }

  ghost predicate IsClaimedBy(claims: seq<Claim>, id: string, v: int, w: nat) {
    exists i :: 0 <= i < |claims| && claims[i].key == id && claims[i].from == Some(v) && claims[i].writer == w
  }

  /** A claim takes a slot that has passed and writes the next run after the claimant's clock. */
  ghost predicate ClaimOk(schedules: map<string, Schedule>, c: Claim) {
    && c.key in schedules && c.from.Some? && c.from.value <= c.at < c.to
    && IsNextRun(schedules[c.key].cron, c.at, c.to)
  }

  ghost predicate ClaimsOk(schedules: map<string, Schedule>, claims: seq<Claim>) {
    && Linked(claims, Current(schedules))
    && forall i :: 0 <= i < |claims| ==> ClaimOk(schedules, claims[i])
  }

  ghost predicate JobOk(schedules: map<string, Schedule>, claims: seq<Claim>, w: nat, now: int, id: string, job: Job) {
    && id in schedules
    && match job
       case Due(seen) => seen <= now && (schedules[id].nextRunAt == Some(seen) || IsClaimed(claims, id, seen))
       case Claimed(slot) => IsClaimedBy(claims, id, slot, w)
       case Dispatched(slot) => IsClaimedBy(claims, id, slot, w)
       case Skipped(seen) => IsClaimed(claims, id, seen)
       case Failed => true
  }

  ghost predicate JobsOk(schedules: map<string, Schedule>, claims: seq<Claim>, invocations: map<nat, Invocation>) {
    forall w, id :: w in invocations && id in invocations[w].jobs ==>
      JobOk(schedules, claims, w, invocations[w].now, id, invocations[w].jobs[id])
  }

  /** A run belongs to a claimed slot, and its job is over. */
  ghost predicate RunOk(claims: seq<Claim>, invocations: map<nat, Invocation>, r: PipelineRun) {
    && IsClaimedBy(claims, r.schedule, r.slot, r.writer)
    && r.writer in invocations && r.schedule in invocations[r.writer].jobs
    && (invocations[r.writer].jobs[r.schedule].Dispatched? || invocations[r.writer].jobs[r.schedule].Failed?)
  }

  ghost predicate RunsOk(claims: seq<Claim>, invocations: map<nat, Invocation>, runs: seq<PipelineRun>) {
    && (forall i :: 0 <= i < |runs| ==> RunOk(claims, invocations, runs[i]))
    && (forall i, j :: 0 <= i < j < |runs| ==> runs[i].schedule != runs[j].schedule || runs[i].slot != runs[j].slot)
  }

  ghost predicate Inv(s: State) {
    && ClaimsOk(s.schedules, s.claims)
    && JobsOk(s.schedules, s.claims, s.invocations)
    && RunsOk(s.claims, s.invocations, s.runs)
  }

  // ---- One step ----

  lemma ClaimsRaise(schedules: map<string, Schedule>, claims: seq<Claim>, key: string)
    requires ClaimsOk(schedules, claims)
    ensures Raises(claims, key, 1)
  {
    hide IsNextRun;
  }

  lemma ClaimIsUnique(schedules: map<string, Schedule>, claims: seq<Claim>, id: string, v: int, w: nat, w': nat)
    requires ClaimsOk(schedules, claims) && IsClaimedBy(claims, id, v, w) && IsClaimedBy(claims, id, v, w')
    ensures w == w'
  {
    hide IsNextRun;
    var i :| 0 <= i < |claims| && claims[i].key == id && claims[i].from == Some(v) && claims[i].writer == w;
    ClaimsRaise(schedules, claims, id);
    ReplacedForGood(claims, Current(schedules), i, 1);
  }

  lemma ClaimOkStays(schedules: map<string, Schedule>, id: string, row: Schedule, c: Claim)
    requires id in schedules && row.cron == schedules[id].cron && ClaimOk(schedules, c)
    ensures ClaimOk(schedules[id := row], c)
  {
    hide IsNextRun;
  }

  lemma ClaimsOkSnoc(schedules: map<string, Schedule>, claims: seq<Claim>, row: Schedule, c: Claim)
    requires ClaimsOk(schedules, claims) && ClaimOk(schedules, c)
    requires c.from == schedules[c.key].nextRunAt
    requires row.cron == schedules[c.key].cron && row.nextRunAt == Some(c.to)
    ensures ClaimsOk(schedules[c.key := row], claims + [c])
  {
    hide IsNextRun, Linked;
    LinkedSnoc(claims, Current(schedules), c);
    assert Current(schedules[c.key := row]) == Current(schedules)[c.key := Some(c.to)];
    hide ClaimOk;
    forall i | 0 <= i < |claims + [c]| ensures ClaimOk(schedules[c.key := row], (claims + [c])[i]) {
      ClaimOkStays(schedules, c.key, row, (claims + [c])[i]);
    }
  }

  lemma ClaimedStays(claims: seq<Claim>, c: Claim, id: string, v: int)
    ensures IsClaimed(claims, id, v) ==> IsClaimed(claims + [c], id, v)
    ensures forall w :: IsClaimedBy(claims, id, v, w) ==> IsClaimedBy(claims + [c], id, v, w)
    ensures c.key == id && c.from == Some(v) ==> IsClaimedBy(claims + [c], id, v, c.writer) && IsClaimed(claims + [c], id, v)
  {
    var longer := claims + [c];
    assert longer[|claims|] == c;
    assert forall i :: 0 <= i < |claims| ==> longer[i] == claims[i];
  }

  lemma JobOkStays(schedules: map<string, Schedule>, claims: seq<Claim>, row: Schedule, c: Claim,
                   w: nat, now: int, id: string, job: Job)
    requires JobOk(schedules, claims, w, now, id, job)
    requires c.key in schedules && c.from == schedules[c.key].nextRunAt
    ensures JobOk(schedules[c.key := row], claims + [c], w, now, id, job)
  {
    hide IsClaimed, IsClaimedBy;
    match job
    case Failed =>
    case Due(v) => ClaimedStays(claims, c, id, v);
    case Claimed(v) => ClaimedStays(claims, c, id, v);
    case Dispatched(v) => ClaimedStays(claims, c, id, v);
    case Skipped(v) => ClaimedStays(claims, c, id, v);
  }

  /** Moving one job on. */
  lemma SetJobKeeps(s: State, w: nat, id: string, job: Job)
    requires Inv(s) && HasJob(s, w, id) && (JobOf(s, w, id).Due? || JobOf(s, w, id).Claimed?)
    requires JobOk(s.schedules, s.claims, w, s.invocations[w].now, id, job)
    ensures Inv(SetJob(s, w, id, job))
  {
    hide ClaimsOk, JobOk, IsClaimedBy;
    var s' := SetJob(s, w, id, job);
    forall i | 0 <= i < |s.runs| ensures RunOk(s'.claims, s'.invocations, s'.runs[i]) {
      assert RunOk(s.claims, s.invocations, s.runs[i]);
    }
  }

  lemma CreateKeeps(s: State, w: nat, id: string, job: Job)
    requires Inv(s) && HasJob(s, w, id) && JobOf(s, w, id).Claimed?
    requires job == Failed || job == Dispatched(JobOf(s, w, id).slot)
    ensures Inv(SetJob(s.(runs := s.runs + [PipelineRun(id, JobOf(s, w, id).slot, w)]), w, id, job))
  {
    hide ClaimsOk, IsClaimedBy, IsClaimed;
    var r := PipelineRun(id, JobOf(s, w, id).slot, w);
    var s' := SetJob(s, w, id, job);
    assert JobOk(s.schedules, s.claims, w, s.invocations[w].now, id, JobOf(s, w, id));
    SetJobKeeps(s, w, id, job);
    hide JobsOk, JobOk;
    forall i | 0 <= i < |s.runs| ensures s.runs[i].schedule != id || s.runs[i].slot != r.slot {
      assert RunOk(s.claims, s.invocations, s.runs[i]);
      if s.runs[i].schedule == id && s.runs[i].slot == r.slot {
        ClaimIsUnique(s.schedules, s.claims, id, r.slot, s.runs[i].writer, w);
        assert false;
      }
    }
  }

  lemma SelectKeeps(s: State, w: nat, now: int)
    requires Inv(s) && w !in s.invocations
    ensures Inv(s.(invocations := s.invocations[w := Invocation(now, SelectDue(s.schedules, now))]))
  {
    hide ClaimsOk, IsClaimed, IsClaimedBy;
    var s' := s.(invocations := s.invocations[w := Invocation(now, SelectDue(s.schedules, now))]);
    forall i | 0 <= i < |s.runs| ensures RunOk(s'.claims, s'.invocations, s'.runs[i]) {
      assert RunOk(s.claims, s.invocations, s.runs[i]);
    }
  }

  lemma JobsOkStay(schedules: map<string, Schedule>, claims: seq<Claim>, row: Schedule, c: Claim,
                   invocations: map<nat, Invocation>)
    requires JobsOk(schedules, claims, invocations)
    requires c.key in schedules && c.from == schedules[c.key].nextRunAt
    ensures JobsOk(schedules[c.key := row], claims + [c], invocations)
  {
    hide JobOk;
    forall u, k | u in invocations && k in invocations[u].jobs
      ensures JobOk(schedules[c.key := row], claims + [c], u, invocations[u].now, k, invocations[u].jobs[k])
    {
      JobOkStays(schedules, claims, row, c, u, invocations[u].now, k, invocations[u].jobs[k]);
    }
  }

  lemma RunsOkStay(claims: seq<Claim>, c: Claim, invocations: map<nat, Invocation>, runs: seq<PipelineRun>)
    requires RunsOk(claims, invocations, runs)
    ensures RunsOk(claims + [c], invocations, runs)
  {
    hide IsClaimedBy;
    forall i | 0 <= i < |runs| ensures RunOk(claims + [c], invocations, runs[i]) {
      ClaimedStays(claims, c, runs[i].schedule, runs[i].slot);
    }
  }

  lemma AdvanceKeeps(s: State, w: nat, id: string, next: int)
    requires Inv(s) && HasJob(s, w, id) && s.schedules[id].nextRunAt.Some?
    requires JobOf(s, w, id) == Due(s.schedules[id].nextRunAt.value)
    requires IsNextRun(s.schedules[id].cron, s.invocations[w].now, next)
    ensures Inv(Advance(s, w, id, next))
    ensures IsClaimedBy(Advance(s, w, id, next).claims, id, s.schedules[id].nextRunAt.value, w)
  {
    var row, c := Advance(s, w, id, next).schedules[id], Claim(id, s.schedules[id].nextRunAt, next, w, s.invocations[w].now);
    assert ClaimOk(s.schedules, c) by {
      hide ClaimsOk, RunsOk, IsClaimed, IsClaimedBy;
      assert JobOk(s.schedules, s.claims, w, s.invocations[w].now, id, JobOf(s, w, id));
    }
    hide IsNextRun, IsClaimed, IsClaimedBy, ClaimOk, ClaimsOk, JobsOk, RunsOk;
    ClaimsOkSnoc(s.schedules, s.claims, row, c);
    ClaimedStays(s.claims, c, id, s.schedules[id].nextRunAt.value);
    JobsOkStay(s.schedules, s.claims, row, c, s.invocations);
    RunsOkStay(s.claims, c, s.invocations, s.runs);
  }

  /** The compare-and-swap, won or lost, reported or not. */
  lemma SwapKeeps(s: State, w: nat, id: string, next: int)
    requires Inv(s) && HasJob(s, w, id) && JobOf(s, w, id).Due?
    requires IsNextRun(s.schedules[id].cron, s.invocations[w].now, next)
    ensures var seen := JobOf(s, w, id).seen;
      if s.schedules[id].nextRunAt == Some(seen)
      then Inv(SetJob(Advance(s, w, id, next), w, id, Claimed(seen))) && Inv(SetJob(Advance(s, w, id, next), w, id, Failed))
      else Inv(SetJob(s, w, id, Skipped(seen)))
  {
    hide ClaimsOk, RunsOk, IsClaimed, IsClaimedBy, IsNextRun;
    var seen := JobOf(s, w, id).seen;
    assert JobOk(s.schedules, s.claims, w, s.invocations[w].now, id, JobOf(s, w, id));
    hide JobsOk;
    if s.schedules[id].nextRunAt == Some(seen) {
      AdvanceKeeps(s, w, id, next);
      SetJobKeeps(Advance(s, w, id, next), w, id, Claimed(seen));
      SetJobKeeps(Advance(s, w, id, next), w, id, Failed);
    } else {
      SetJobKeeps(s, w, id, Skipped(seen));
    }
  }

  lemma StepKeepsInv(s: State, e: Event, s': State)
    requires Inv(s) && Step(s, e, s')
    ensures Inv(s')
  {
    hide Inv, IsNextRun;
    match e
    case Select(w, now) => SelectKeeps(s, w, now);
    case NoNextRun(w, id) => SetJobFailed(s, w, id);
    case Swap(w, id, next) => SwapKeeps(s, w, id, next);
    case SwapFails(w, id, next, applied) =>
      SwapKeeps(s, w, id, next);
      SetJobFailed(s, w, id);
    case CreateRun(w, id) => CreateKeeps(s, w, id, Dispatched(JobOf(s, w, id).slot));
    case CreateFails(w, id, stored) =>
      CreateKeeps(s, w, id, Failed);
      SetJobFailed(s, w, id);
  }

  lemma SetJobFailed(s: State, w: nat, id: string)
    requires Inv(s) && HasJob(s, w, id) && (JobOf(s, w, id).Due? || JobOf(s, w, id).Claimed?)
    ensures Inv(SetJob(s, w, id, Failed))
  {
    hide Inv;
    SetJobKeeps(s, w, id, Failed);
  }

  // ---- Whole runs ----

  /** However many invocations overlap, the invariant holds at every step. */
  lemma {:induction false} InvariantHolds(states: seq<State>, events: seq<Event>, k: nat)
    requires Trace(states, events) && k < |states|
    ensures Inv(states[k])
  {
    if k > 0 {
      InvariantHolds(states, events, k - 1);
      StepKeepsInv(states[k - 1], events[k - 1], states[k]);
    }
  }

  /** No slot is dispatched twice. */
  lemma OneRunPerSlot(states: seq<State>, events: seq<Event>, k: nat, i: nat, j: nat)
    requires Trace(states, events) && k < |states|
    requires i < j < |states[k].runs| && states[k].runs[i].schedule == states[k].runs[j].schedule
    ensures states[k].runs[i].slot != states[k].runs[j].slot
  {
    InvariantHolds(states, events, k);
  }

  /** Successive claims of a schedule take and write strictly later values. */
  lemma NextRunAtRises(states: seq<State>, events: seq<Event>, k: nat, i: nat, j: nat)
    requires Trace(states, events) && k < |states|
    requires i < j < |states[k].claims| && states[k].claims[i].key == states[k].claims[j].key
    ensures states[k].claims[i].from.Some? && states[k].claims[j].from.Some?
    ensures states[k].claims[i].from.value < states[k].claims[i].to
      <= states[k].claims[j].from.value < states[k].claims[j].to
  {
    InvariantHolds(states, events, k);
    var s := states[k];
    ClaimsRaise(s.schedules, s.claims, s.claims[i].key);
    ClaimsRise(s.claims, Current(s.schedules), i, j, 1);
    assert ClaimOk(s.schedules, s.claims[i]) && ClaimOk(s.schedules, s.claims[j]);
  }

  /** Once some invocation's swap on a due slot has come through, won or lost, exactly one claim of the slot exists. */
  lemma ClaimedExactlyOnce(states: seq<State>, events: seq<Event>, k: nat, w: nat, id: string, v: int)
    requires Trace(states, events) && k < |states| && HasJob(states[k], w, id)
    requires JobOf(states[k], w, id) in {Claimed(v), Dispatched(v), Skipped(v)}
    ensures exists i ::
      && 0 <= i < |states[k].claims| && states[k].claims[i].key == id && states[k].claims[i].from == Some(v)
      && forall j :: 0 <= j < |states[k].claims| && j != i && states[k].claims[j].key == id ==> states[k].claims[j].from != Some(v)
  {
    InvariantHolds(states, events, k);
    hide IsNextRun, Linked, Trace, RunsOk;
    var s := states[k];
    assert JobOk(s.schedules, s.claims, w, s.invocations[w].now, id, JobOf(s, w, id));
    assert IsClaimed(s.claims, id, v);
    var i :| 0 <= i < |s.claims| && s.claims[i].key == id && s.claims[i].from == Some(v);
    ClaimsRaise(s.schedules, s.claims, id);
    ReplacedForGood(s.claims, Current(s.schedules), i, 1);
  }

  /** No run starts before its slot, and no minute the expression matches is lost after a claim: between the
      claimant's clock and the slot claimed next there is none. */
  lemma NoMatchingMinuteIsLost(states: seq<State>, events: seq<Event>, k: nat, i: nat, j: nat, m: int)
    requires Trace(states, events) && k < |states| && Follows(states[k].claims, i, j)
    requires states[k].claims[i].key in states[k].schedules
    requires Matches(states[k].schedules[states[k].claims[i].key].cron, m)
    ensures states[k].claims[j].from.Some? && states[k].claims[j].from.value <= states[k].claims[j].at
    ensures m * Calendar.MS_PER_MINUTE <= states[k].claims[i].at || states[k].claims[j].from.value <= m * Calendar.MS_PER_MINUTE
  {
    InvariantHolds(states, events, k);
    var s := states[k];
    assert ClaimOk(s.schedules, s.claims[i]) && ClaimOk(s.schedules, s.claims[j]);
    assert s.claims[j].from == Some(s.claims[i].to);
    MinutesInOrder(s.schedules[s.claims[i].key].cron, s.claims[i].at, s.claims[i].to, m);
  }

  lemma MinutesInOrder(expr: string, after: int, at: int, m: int)
    requires IsNextRun(expr, after, at) && Matches(expr, m)
    ensures m * Calendar.MS_PER_MINUTE <= after || at <= m * Calendar.MS_PER_MINUTE
  {
    hide Matches;
    if m * Calendar.MS_PER_MINUTE > after {
      assert m >= NextMinute(after);
      assert !(m < at / Calendar.MS_PER_MINUTE);
    }
  }
}

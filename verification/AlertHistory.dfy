/** What lies behind every stamp, silence and notification of the overlapping alert evaluators. */
module AlertHistory {
  import opened Collections
  import opened CompareAndSwap
  import opened Alerts

  /** Evaluator `w` selected the rule at its time `now`, when it was active and last triggered at `seen`. */
  ghost predicate SelectedAt(states: seq<State>, events: seq<Event>, j: nat, w: nat, now: int, id: string,
                             seen: Option<int>, cooldown: nat)
  {
    && j < |events| && j < |states| && events[j] == Select(w, now)
    && id in states[j].rules && states[j].rules[id] == Rule(true, cooldown, seen)
  }

  ghost predicate Selected(states: seq<State>, events: seq<Event>, k: nat, w: nat, now: int, id: string,
                           seen: Option<int>, cooldown: nat)
  {
    exists j: nat :: j < k && SelectedAt(states, events, j, w, now, id, seen, cooldown)
  }

  ghost predicate Happened(events: seq<Event>, k: nat, e: Event) {
    exists j :: 0 <= j < k && j < |events| && events[j] == e
  }

  /** It found the value `seen` out of cooldown, and the rule's condition held. */
  ghost predicate FoundFiring(states: seq<State>, events: seq<Event>, k: nat, w: nat, now: int, id: string,
                              seen: Option<int>, cooldown: nat)
  {
    && Selected(states, events, k, w, now, id, seen, cooldown)
    && !IsInCooldown(seen, cooldown, now)
    && Happened(events, k, Judge(w, id, true))
  }

  /** Why an evaluator leaves a rule alone: the condition did not hold, the cooldown ran, or the update failed. */
  ghost predicate KeptQuiet(states: seq<State>, events: seq<Event>, k: nat, w: nat, now: int, id: string,
                            seen: Option<int>, cooldown: nat)
  {
    && Selected(states, events, k, w, now, id, seen, cooldown)
    && (|| IsInCooldown(seen, cooldown, now)
        || Happened(events, k, Judge(w, id, false))
        || Happened(events, k, SwapFails(w, id, true)) || Happened(events, k, SwapFails(w, id, false)))
  }

  ghost predicate JobBehind(states: seq<State>, events: seq<Event>, k: nat, w: nat, now: int, id: string, cooldown: nat,
                            job: Job, notifications: seq<Notification>)
  {
    match job
    case Pending(seen) => Selected(states, events, k, w, now, id, seen, cooldown)
    case Firing(seen) => FoundFiring(states, events, k, w, now, id, seen, cooldown)
    case Lost(seen) => FoundFiring(states, events, k, w, now, id, seen, cooldown)
    case Fired(stamp) => stamp == now && exists seen :: FoundFiring(states, events, k, w, now, id, seen, cooldown)
    case Notified(stamp) =>
      && stamp == now && (exists seen :: FoundFiring(states, events, k, w, now, id, seen, cooldown))
      && Notification(id, stamp, w) in notifications
    case Quiet => exists seen :: KeptQuiet(states, events, k, w, now, id, seen, cooldown)
  }

  ghost predicate JobsBehind(states: seq<State>, events: seq<Event>, k: nat)
    requires k < |states|
  {
    forall w, id :: w in states[k].evaluators && id in states[k].evaluators[w].jobs ==>
      && id in states[k].rules
      && JobBehind(states, events, k, w, states[k].evaluators[w].now, id, states[k].rules[id].cooldownMinutes,
                   states[k].evaluators[w].jobs[id], states[k].notifications)
  }

  ghost predicate ClaimBehind(states: seq<State>, events: seq<Event>, k: nat, rules: map<string, Rule>, c: Claim) {
    && c.key in rules && c.to == c.at
    && FoundFiring(states, events, k, c.writer, c.at, c.key, c.from, rules[c.key].cooldownMinutes)
  }

  ghost predicate ClaimsBehind(states: seq<State>, events: seq<Event>, k: nat)
    requires k < |states|
  {
    forall i :: 0 <= i < |states[k].claims| ==> ClaimBehind(states, events, k, states[k].rules, states[k].claims[i])
  }

  // ---- One step ----

  lemma JobBehindStays(states: seq<State>, events: seq<Event>, k: nat, w: nat, now: int, id: string, cooldown: nat,
                       job: Job, notifications: seq<Notification>, more: seq<Notification>)
    requires JobBehind(states, events, k, w, now, id, cooldown, job, notifications)
    requires notifications <= more
    ensures JobBehind(states, events, k + 1, w, now, id, cooldown, job, more)
  {
    hide IsInCooldown, SelectedAt;
    assert forall n :: n in notifications ==> n in more;
    match job
    case Fired(stamp) =>
      var seen :| FoundFiring(states, events, k, w, now, id, seen, cooldown);
      assert FoundFiring(states, events, k + 1, w, now, id, seen, cooldown);
    case Notified(stamp) =>
      var seen :| FoundFiring(states, events, k, w, now, id, seen, cooldown);
      assert FoundFiring(states, events, k + 1, w, now, id, seen, cooldown);
    case Quiet =>
      var seen :| KeptQuiet(states, events, k, w, now, id, seen, cooldown);
      assert KeptQuiet(states, events, k + 1, w, now, id, seen, cooldown);
    case _ =>
  }

  /** The job an event is about, if it is about one. */
  predicate Concerns(e: Event, w: nat, id: string) {
    match e
    case Select(u, now) => u == w
    case Judge(u, k, holds) => u == w && k == id
    case Swap(u, k) => u == w && k == id
    case SwapFails(u, k, applied) => u == w && k == id
    case Notify(u, k) => u == w && k == id
  }

  lemma OthersUntouched(s: State, e: Event, s': State, w: nat, id: string)
    requires Step(s, e, s') && !Concerns(e, w, id)
    requires w in s'.evaluators && id in s'.evaluators[w].jobs
    ensures w in s.evaluators && id in s.evaluators[w].jobs
    ensures s'.evaluators[w].now == s.evaluators[w].now && s'.evaluators[w].jobs[id] == s.evaluators[w].jobs[id]
  {
  }

  lemma RowsStay(s: State, e: Event, s': State)
    requires Step(s, e, s')
    ensures forall id :: id in s.rules ==> id in s'.rules && s'.rules[id].cooldownMinutes == s.rules[id].cooldownMinutes
    ensures s.notifications <= s'.notifications
  {
    hide IsInCooldown, SelectActive;
  }

  lemma SelectBehind(states: seq<State>, events: seq<Event>, k: nat, w: nat, now: int, id: string)
    requires k < |events| && k + 1 < |states| && Step(states[k], events[k], states[k + 1]) && events[k] == Select(w, now)
    requires w in states[k + 1].evaluators && id in states[k + 1].evaluators[w].jobs
    ensures id in states[k + 1].rules
    ensures JobBehind(states, events, k + 1, w, states[k + 1].evaluators[w].now, id, states[k + 1].rules[id].cooldownMinutes,
                      states[k + 1].evaluators[w].jobs[id], states[k + 1].notifications)
  {
    var rule := states[k].rules[id];
    assert SelectedAt(states, events, k, w, now, id, rule.lastTriggeredAt, rule.cooldownMinutes);
  }

  lemma JudgeBehind(states: seq<State>, events: seq<Event>, k: nat, w: nat, id: string, holds: bool)
    requires k < |events| && k + 1 < |states| && Step(states[k], events[k], states[k + 1]) && events[k] == Judge(w, id, holds)
    requires JobsBehind(states, events, k)
    ensures HasJob(states[k + 1], w, id)
    ensures JobBehind(states, events, k + 1, w, states[k + 1].evaluators[w].now, id, states[k + 1].rules[id].cooldownMinutes,
                      JobOf(states[k + 1], w, id), states[k + 1].notifications)
  {
    hide IsInCooldown, SelectedAt;
    var s := states[k];
    var seen, now, cooldown := JobOf(s, w, id).seen, s.evaluators[w].now, s.rules[id].cooldownMinutes;
    assert Selected(states, events, k, w, now, id, seen, cooldown);
    assert Happened(events, k + 1, Judge(w, id, holds));
    if IsInCooldown(seen, cooldown, now) || !holds {
      assert KeptQuiet(states, events, k + 1, w, now, id, seen, cooldown);
    }
  }

  lemma SwapBehind(states: seq<State>, events: seq<Event>, k: nat, w: nat, id: string)
    requires k < |events| && k + 1 < |states| && Step(states[k], events[k], states[k + 1])
    requires events[k] in {Swap(w, id), SwapFails(w, id, true), SwapFails(w, id, false)}
    requires JobsBehind(states, events, k)
    ensures HasJob(states[k + 1], w, id)
    ensures JobBehind(states, events, k + 1, w, states[k + 1].evaluators[w].now, id, states[k + 1].rules[id].cooldownMinutes,
                      JobOf(states[k + 1], w, id), states[k + 1].notifications)
  {
    hide IsInCooldown, SelectedAt;
    var s := states[k];
    var seen, now, cooldown := JobOf(s, w, id).seen, s.evaluators[w].now, s.rules[id].cooldownMinutes;
    assert FoundFiring(states, events, k, w, now, id, seen, cooldown);
    assert FoundFiring(states, events, k + 1, w, now, id, seen, cooldown);
    if events[k] != Swap(w, id) {
      assert Happened(events, k + 1, events[k]);
      assert KeptQuiet(states, events, k + 1, w, now, id, seen, cooldown);
    }
  }

  lemma NotifyBehind(states: seq<State>, events: seq<Event>, k: nat, w: nat, id: string)
    requires k < |events| && k + 1 < |states| && Step(states[k], events[k], states[k + 1]) && events[k] == Notify(w, id)
    requires JobsBehind(states, events, k)
    ensures HasJob(states[k + 1], w, id)
    ensures JobBehind(states, events, k + 1, w, states[k + 1].evaluators[w].now, id, states[k + 1].rules[id].cooldownMinutes,
                      JobOf(states[k + 1], w, id), states[k + 1].notifications)
  {
    hide IsInCooldown, SelectedAt;
    var s := states[k];
    JobBehindStays(states, events, k, w, s.evaluators[w].now, id, s.rules[id].cooldownMinutes, JobOf(s, w, id),
                   s.notifications, s.notifications);
  }

  lemma JobsStayBehind(states: seq<State>, events: seq<Event>, k: nat)
    requires Trace(states, events) && k < |events| && JobsBehind(states, events, k)
    ensures JobsBehind(states, events, k + 1)
  {
    var s, e, s' := states[k], events[k], states[k + 1];
    RowsStay(s, e, s');
    hide Trace, Step, JobBehind;
    forall w, id | w in s'.evaluators && id in s'.evaluators[w].jobs
      ensures && id in s'.rules
              && JobBehind(states, events, k + 1, w, s'.evaluators[w].now, id, s'.rules[id].cooldownMinutes,
                           s'.evaluators[w].jobs[id], s'.notifications)
    {
      StepAt(states, events, k);
      if Concerns(e, w, id) {
        match e
        case Select(u, now) => SelectBehind(states, events, k, w, now, id);
        case Judge(u, x, holds) => JudgeBehind(states, events, k, w, id, holds);
        case Swap(u, x) => SwapBehind(states, events, k, w, id);
        case SwapFails(u, x, applied) => SwapBehind(states, events, k, w, id);
        case Notify(u, x) => NotifyBehind(states, events, k, w, id);
      } else {
        OthersUntouched(s, e, s', w, id);
        JobBehindStays(states, events, k, w, s.evaluators[w].now, id, s.rules[id].cooldownMinutes, s.evaluators[w].jobs[id],
                       s.notifications, s'.notifications);
      }
    }
  }

  lemma StepAt(states: seq<State>, events: seq<Event>, k: nat)
    requires Trace(states, events) && k < |events|
    ensures Step(states[k], events[k], states[k + 1])
  {
  }

  lemma FoundFiringStays(states: seq<State>, events: seq<Event>, k: nat, w: nat, now: int, id: string,
                         seen: Option<int>, cooldown: nat)
    requires FoundFiring(states, events, k, w, now, id, seen, cooldown)
    ensures FoundFiring(states, events, k + 1, w, now, id, seen, cooldown)
  {
    hide IsInCooldown, SelectedAt;
  }

  /** A step adds no claim, or the one its evaluator was firing for. */
  lemma NewClaim(s: State, e: Event, s': State)
    requires Step(s, e, s')
    ensures s'.claims == s.claims
      || (&& (e.Swap? || e.SwapFails?) && HasJob(s, e.w, e.id)
          && JobOf(s, e.w, e.id) == Firing(s.rules[e.id].lastTriggeredAt)
          && var now := s.evaluators[e.w].now;
             s'.claims == s.claims + [Claim(e.id, s.rules[e.id].lastTriggeredAt, now, e.w, now)])
  {
    hide IsInCooldown, SelectActive;
  }

  lemma ClaimsStayBehind(states: seq<State>, events: seq<Event>, k: nat)
    requires Trace(states, events) && k < |events| && JobsBehind(states, events, k) && ClaimsBehind(states, events, k)
    ensures ClaimsBehind(states, events, k + 1)
  {
    var s, e, s' := states[k], events[k], states[k + 1];
    StepAt(states, events, k);
    hide Trace, FoundFiring, IsInCooldown;
    NewClaim(s, e, s');
    RowsStay(s, e, s');
    hide Step;
    forall i | 0 <= i < |s'.claims| ensures ClaimBehind(states, events, k + 1, s'.rules, s'.claims[i]) {
      var c := s'.claims[i];
      if i < |s.claims| {
        assert c == s.claims[i];
        assert ClaimBehind(states, events, k, s.rules, c);
      } else {
        assert JobBehind(states, events, k, e.w, s.evaluators[e.w].now, e.id, s.rules[e.id].cooldownMinutes,
                         JobOf(s, e.w, e.id), s.notifications);
      }
      FoundFiringStays(states, events, k, c.writer, c.at, c.key, c.from, s.rules[c.key].cooldownMinutes);
    }
  }

  // ---- Whole runs ----

  lemma {:induction false} HistoryHolds(states: seq<State>, events: seq<Event>, k: nat)
    requires Trace(states, events) && k < |states|
    ensures JobsBehind(states, events, k) && ClaimsBehind(states, events, k)
  {
    if k > 0 {
      hide Trace, JobsBehind, ClaimsBehind;
      assert |states| == |events| + 1 by { Lengths(states, events); }
      HistoryHolds(states, events, k - 1);
      JobsStayBehind(states, events, k - 1);
      ClaimsStayBehind(states, events, k - 1);
    }
  }

  lemma Lengths(states: seq<State>, events: seq<Event>)
    requires Trace(states, events)
    ensures |states| == |events| + 1
  {
  }

  /** A rule is stamped only by an evaluator that selected it while it was active, with the very value it replaced, out
      of cooldown by that evaluator's clock, and only after it found the condition to hold. */
  lemma StampedOnlyWhenHeld(states: seq<State>, events: seq<Event>, k: nat, i: nat)
    requires Trace(states, events) && k < |states| && i < |states[k].claims|
    ensures var c := states[k].claims[i];
      && (exists j :: 0 <= j < k && events[j] == Judge(c.writer, c.key, true))
      && (exists j :: && 0 <= j < k && events[j] == Select(c.writer, c.at) && c.key in states[j].rules
                      && states[j].rules[c.key].isActive && states[j].rules[c.key].lastTriggeredAt == c.from
                      && (c.from.Some? ==> c.at - c.from.value >= states[j].rules[c.key].cooldownMinutes * 60000))
  {
    HistoryHolds(states, events, k);
    var c := states[k].claims[i];
    assert ClaimBehind(states, events, k, states[k].rules, c);
    var cooldown := states[k].rules[c.key].cooldownMinutes;
    var j: nat :| j < k && SelectedAt(states, events, j, c.writer, c.at, c.key, c.from, cooldown);
    assert states[j].rules[c.key] == Rule(true, cooldown, c.from);
    var m :| 0 <= m < k && m < |events| && events[m] == Judge(c.writer, c.key, true);
  }

  lemma {:induction false} JobsAreKept(states: seq<State>, events: seq<Event>, j: nat, k: nat, w: nat, id: string)
    requires Trace(states, events) && j <= k < |states|
    requires w in states[j].evaluators && id in states[j].evaluators[w].jobs
    ensures w in states[k].evaluators && id in states[k].evaluators[w].jobs
    ensures states[k].evaluators[w].now == states[j].evaluators[w].now
    decreases k - j
  {
    if j < k {
      StepAt(states, events, j);
      hide Trace;
      JobKept(states[j], events[j], states[j + 1], w, id);
      hide Step;
      JobsAreKept(states, events, j + 1, k, w, id);
    }
  }

  lemma JobKept(s: State, e: Event, s': State, w: nat, id: string)
    requires Step(s, e, s') && w in s.evaluators && id in s.evaluators[w].jobs
    ensures w in s'.evaluators && id in s'.evaluators[w].jobs && s'.evaluators[w].now == s.evaluators[w].now
  {
    hide IsInCooldown, SelectActive;
  }

  // ---- Progress ----

  /** How far a job has come: to be judged, to be stamped, to be announced, over. */
  function Progress(job: Job): nat {
    match job
    case Pending(seen) => 0
    case Firing(seen) => 1
    case Fired(stamp) => 2
    case _ => 3
  }

  lemma StepMovesOn(s: State, e: Event, s': State, w: nat, id: string)
    requires Step(s, e, s') && HasJob(s, w, id)
    ensures HasJob(s', w, id)
    ensures !Concerns(e, w, id) ==> JobOf(s', w, id) == JobOf(s, w, id)
    ensures Concerns(e, w, id) ==> Progress(JobOf(s, w, id)) < Progress(JobOf(s', w, id))
  {
    hide IsInCooldown, SelectActive;
  }

  lemma {:induction false} JobsMoveOn(states: seq<State>, events: seq<Event>, j: nat, k: nat, w: nat, id: string)
    requires Trace(states, events) && j <= k < |states| && HasJob(states[j], w, id)
    ensures HasJob(states[k], w, id) && Progress(JobOf(states[j], w, id)) <= Progress(JobOf(states[k], w, id))
    decreases k - j
  {
    if j < k {
      StepAt(states, events, j);
      hide Trace;
      StepMovesOn(states[j], events[j], states[j + 1], w, id);
      hide Step, HasJob;
      JobsMoveOn(states, events, j + 1, k, w, id);
    }
  }

  /** A judged rule is never pending again, a stamp is tried once, and an announced stamp stays announced. */
  lemma JudgedOnce(states: seq<State>, events: seq<Event>, j: nat, k: nat, w: nat, id: string)
    requires Trace(states, events) && j < k < |states| && !events[j].Select? && Concerns(events[j], w, id)
    ensures HasJob(states[k], w, id) && !JobOf(states[k], w, id).Pending?
    ensures !events[j].Judge? ==> !JobOf(states[k], w, id).Firing?
    ensures events[j].Notify? ==> JobOf(states[k], w, id).Notified?
  {
    StepAt(states, events, j);
    StepMovesOn(states[j], events[j], states[j + 1], w, id);
    JobsMoveOn(states, events, j + 1, k, w, id);
    if events[j].Notify? {
      hide Trace, Step;
      StaysNotified(states, events, j + 1, k, w, id);
    }
  }

  lemma {:induction false} StaysNotified(states: seq<State>, events: seq<Event>, j: nat, k: nat, w: nat, id: string)
    requires Trace(states, events) && j <= k < |states| && HasJob(states[j], w, id) && JobOf(states[j], w, id).Notified?
    ensures HasJob(states[k], w, id) && JobOf(states[k], w, id).Notified?
    decreases k - j
  {
    if j < k {
      StepAt(states, events, j);
      hide Trace;
      StepMovesOn(states[j], events[j], states[j + 1], w, id);
      hide Step, HasJob;
      StaysNotified(states, events, j + 1, k, w, id);
    }
  }

  /** Exactly the active rules are evaluated, and one whose condition holds out of cooldown fires: its evaluator stays
      quiet only when the condition did not hold, the cooldown ran, or the update failed. */
  lemma ActiveRulesAreJudged(states: seq<State>, events: seq<Event>, j: nat, k: nat, w: nat, now: int, id: string)
    requires Trace(states, events) && j < k < |states| && events[j] == Select(w, now)
    ensures w in states[j + 1].evaluators && w !in states[j].evaluators
    ensures id in states[j + 1].evaluators[w].jobs <==> id in states[j].rules && states[j].rules[id].isActive
    ensures id in states[j].rules && states[j].rules[id].isActive ==> HasJob(states[k], w, id)
    ensures id in states[j].rules && states[j].rules[id].isActive && JobOf(states[k], w, id).Quiet? ==>
      || (&& states[j].rules[id].lastTriggeredAt.Some?
          && now - states[j].rules[id].lastTriggeredAt.value < states[j].rules[id].cooldownMinutes * 60000)
      || (exists m :: 0 <= m < k && events[m] == Judge(w, id, false))
      || (exists m, applied :: 0 <= m < k && events[m] == SwapFails(w, id, applied))
    ensures id in states[j].rules && states[j].rules[id].isActive && JobOf(states[k], w, id).Notified? ==>
      Notification(id, now, w) in states[k].notifications
  {
    StepAt(states, events, j);
    HistoryHolds(states, events, k);
    if id in states[j].rules && states[j].rules[id].isActive {
      JobsAreKept(states, events, j + 1, k, w, id);
      OnceSelected(states, events, j, k, w, id);
      assert JobBehind(states, events, k, w, now, id, states[k].rules[id].cooldownMinutes,
                       JobOf(states[k], w, id), states[k].notifications);
      hide Trace, Step;
      if JobOf(states[k], w, id).Quiet? {
        var seen :| KeptQuiet(states, events, k, w, now, id, seen, states[k].rules[id].cooldownMinutes);
        var m: nat :| m < k && SelectedAt(states, events, m, w, now, id, seen, states[k].rules[id].cooldownMinutes);
        assert m == j;
      }
    }
  }

  /** An evaluator selects once. */
  lemma OnceSelected(states: seq<State>, events: seq<Event>, j: nat, k: nat, w: nat, id: string)
    requires Trace(states, events) && j < k < |states| && events[j].Select? && events[j].w == w
    requires id in states[j].rules && states[j].rules[id].isActive
    ensures forall m :: 0 <= m < k && events[m].Select? && events[m].w == w ==> m == j
  {
    forall m | 0 <= m < k && events[m].Select? && events[m].w == w ensures m == j {
      StepAt(states, events, m);
      StepAt(states, events, j);
      hide Trace;
      if m < j {
        Known(states, events, m + 1, j, w);
      } else if j < m {
        Known(states, events, j + 1, m, w);
      }
    }
  }

  lemma {:induction false} Known(states: seq<State>, events: seq<Event>, j: nat, k: nat, w: nat)
    requires Trace(states, events) && j <= k < |states| && w in states[j].evaluators
    ensures w in states[k].evaluators
    decreases k - j
  {
    if j < k {
      StepAt(states, events, j);
      hide Trace;
      Known(states, events, j + 1, k, w);
    }
  }
}

/** Overlapping runs of the alert evaluator: cooldowns and the conditional stamp. */
module Alerts {
  import opened Collections
  import opened CompareAndSwap
  import Calendar

  datatype Rule = Rule(isActive: bool, cooldownMinutes: nat, lastTriggeredAt: Option<int>)

  /** One rule within one evaluator run. */
  datatype Job =
    | Pending(seen: Option<int>)
    | Firing(seen: Option<int>)
    | Fired(stamp: int)
    | Notified(stamp: int)
    | Lost(seen: Option<int>)
    | Quiet

  datatype Evaluator = Evaluator(now: int, jobs: map<string, Job>)

  datatype Notification = Notification(rule: string, stamp: int, writer: nat)

  datatype State = State(
    rules: map<string, Rule>,
    evaluators: map<nat, Evaluator>,
    claims: seq<Claim>,
    notifications: seq<Notification>)

  /** `holds`: there is data to judge and the rule's condition holds of it. */
  datatype Event =
    | Select(w: nat, now: int)
    | Judge(w: nat, id: string, holds: bool)
    | Swap(w: nat, id: string)
    | SwapFails(w: nat, id: string, applied: bool)
    | Notify(w: nat, id: string)

  predicate IsInCooldown(last: Option<int>, cooldownMinutes: nat, now: int) {
    last.Some? && now - last.value < cooldownMinutes * Calendar.MS_PER_MINUTE
  }

  function SelectActive(rules: map<string, Rule>): map<string, Job> {
    map id | id in rules && rules[id].isActive :: Pending(rules[id].lastTriggeredAt)
  }

  predicate HasJob(s: State, w: nat, id: string) {
    w in s.evaluators && id in s.evaluators[w].jobs && id in s.rules
  }

  function JobOf(s: State, w: nat, id: string): Job
    requires HasJob(s, w, id)
  {
    s.evaluators[w].jobs[id]
  }

  function SetJob(s: State, w: nat, id: string, job: Job): State
    requires w in s.evaluators
  {
    s.(evaluators := s.evaluators[w := s.evaluators[w].(jobs := s.evaluators[w].jobs[id := job])])
  }

  function Stamp(s: State, w: nat, id: string): State
    requires HasJob(s, w, id)
  {
    var now := s.evaluators[w].now;
    s.(rules := s.rules[id := s.rules[id].(lastTriggeredAt := Some(now))],
       claims := s.claims + [Claim(id, s.rules[id].lastTriggeredAt, now, w, now)])
  }

  ghost predicate Step(s: State, e: Event, s': State) {
    match e
    case Select(w, now) =>
      w !in s.evaluators && s' == s.(evaluators := s.evaluators[w := Evaluator(now, SelectActive(s.rules))])
    case Judge(w, id, holds) =>
      && HasJob(s, w, id) && JobOf(s, w, id).Pending?
      && var seen := JobOf(s, w, id).seen;
         s' == SetJob(s, w, id, if IsInCooldown(seen, s.rules[id].cooldownMinutes, s.evaluators[w].now) || !holds
                                then Quiet else Firing(seen))
    case Swap(w, id) =>
      && HasJob(s, w, id) && JobOf(s, w, id).Firing?
      && s' == if s.rules[id].lastTriggeredAt == JobOf(s, w, id).seen
               then SetJob(Stamp(s, w, id), w, id, Fired(s.evaluators[w].now))
               else SetJob(s, w, id, Lost(JobOf(s, w, id).seen))
    case SwapFails(w, id, applied) =>
      && HasJob(s, w, id) && JobOf(s, w, id).Firing?
      && s' == SetJob(if applied && s.rules[id].lastTriggeredAt == JobOf(s, w, id).seen then Stamp(s, w, id) else s, w, id, Quiet)
    case Notify(w, id) =>
      && HasJob(s, w, id) && JobOf(s, w, id).Fired?
      && var stamp := JobOf(s, w, id).stamp;
         s' == SetJob(s.(notifications := s.notifications + [Notification(id, stamp, w)]), w, id, Notified(stamp))
  }

  ghost predicate Initial(s: State) {
    s.evaluators == map[] && s.claims == [] && s.notifications == []
  }

  ghost predicate Trace(states: seq<State>, events: seq<Event>) {
    && |states| == |events| + 1 && Initial(states[0])
    && forall i :: 0 <= i < |events| ==> Step(states[i], events[i], states[i + 1])
  }

  // ---- The invariant ----

  function Current(rules: map<string, Rule>): map<string, Option<int>> {
    map id | id in rules :: rules[id].lastTriggeredAt
  }

  /** Some claim replaced the value `v` of rule `id`. */
  ghost predicate IsReplaced(claims: seq<Claim>, id: string, v: Option<int>) {
    exists i :: 0 <= i < |claims| && claims[i].key == id && claims[i].from == v
  }

  ghost predicate IsStamped(claims: seq<Claim>, id: string, stamp: int, w: nat) {
    exists i :: 0 <= i < |claims| && claims[i].key == id && claims[i].to == stamp && claims[i].writer == w
  }

  ghost predicate ClaimOk(rules: map<string, Rule>, c: Claim) {
    c.key in rules && !IsInCooldown(c.from, rules[c.key].cooldownMinutes, c.to)
  }

  ghost predicate ClaimsOk(rules: map<string, Rule>, claims: seq<Claim>) {
    && Linked(claims, Current(rules))
    && forall i :: 0 <= i < |claims| ==> ClaimOk(rules, claims[i])
  }

  ghost predicate JobOk(rules: map<string, Rule>, claims: seq<Claim>, w: nat, now: int, id: string, job: Job) {
    && id in rules
    && match job
       case Pending(seen) => rules[id].lastTriggeredAt == seen || IsReplaced(claims, id, seen)
       case Firing(seen) =>
         && !IsInCooldown(seen, rules[id].cooldownMinutes, now)
         && (rules[id].lastTriggeredAt == seen || IsReplaced(claims, id, seen))
       case Fired(stamp) => IsStamped(claims, id, stamp, w)
       case Notified(stamp) => IsStamped(claims, id, stamp, w)
       case Lost(seen) => IsReplaced(claims, id, seen)
       case Quiet => true
  }

  ghost predicate JobsOk(rules: map<string, Rule>, claims: seq<Claim>, evaluators: map<nat, Evaluator>) {
    forall w, id :: w in evaluators && id in evaluators[w].jobs ==>
      JobOk(rules, claims, w, evaluators[w].now, id, evaluators[w].jobs[id])
  }

  ghost predicate NotificationOk(claims: seq<Claim>, evaluators: map<nat, Evaluator>, n: Notification) {
    && IsStamped(claims, n.rule, n.stamp, n.writer)
    && n.writer in evaluators && n.rule in evaluators[n.writer].jobs
    && evaluators[n.writer].jobs[n.rule].Notified?
  }

  /** No notification repeats a rule's stamp, when its cooldown is positive. */
  ghost predicate NotificationsOk(
    rules: map<string, Rule>, claims: seq<Claim>, evaluators: map<nat, Evaluator>, notifications: seq<Notification>)
  {
    && (forall i :: 0 <= i < |notifications| ==>
        notifications[i].rule in rules && NotificationOk(claims, evaluators, notifications[i]))
    && (forall i, j :: 0 <= i < j < |notifications| ==>
          notifications[i].rule != notifications[j].rule || notifications[i].stamp != notifications[j].stamp
          || (notifications[i].rule in rules && rules[notifications[i].rule].cooldownMinutes == 0))
  }

  ghost predicate Inv(s: State) {
    && ClaimsOk(s.rules, s.claims)
    && JobsOk(s.rules, s.claims, s.evaluators)
    && NotificationsOk(s.rules, s.claims, s.evaluators, s.notifications)
  }

  // ---- One step ----

  function Gap(rules: map<string, Rule>, id: string): nat
    requires id in rules
  {
    rules[id].cooldownMinutes * Calendar.MS_PER_MINUTE
  }

  lemma ClaimsRaise(rules: map<string, Rule>, claims: seq<Claim>, key: string)
    requires ClaimsOk(rules, claims) && key in rules
    ensures Raises(claims, key, Gap(rules, key))
  {
    hide Linked;
  }

  lemma StampIsUnique(rules: map<string, Rule>, claims: seq<Claim>, id: string, stamp: int, w: nat, w': nat)
    requires ClaimsOk(rules, claims) && id in rules && rules[id].cooldownMinutes > 0
    requires IsStamped(claims, id, stamp, w) && IsStamped(claims, id, stamp, w')
    ensures w == w'
  {
    hide ClaimsOk;
    var i :| 0 <= i < |claims| && claims[i].key == id && claims[i].to == stamp && claims[i].writer == w;
    var j :| 0 <= j < |claims| && claims[j].key == id && claims[j].to == stamp && claims[j].writer == w';
    ClaimsRaise(rules, claims, id);
    LinkedClaims(rules, claims);
    hide Linked, Raises;
    if i < j {
      ClaimsRise(claims, Current(rules), i, j, Gap(rules, id));
    } else if j < i {
      ClaimsRise(claims, Current(rules), j, i, Gap(rules, id));
    }
  }

  lemma LinkedClaims(rules: map<string, Rule>, claims: seq<Claim>)
    requires ClaimsOk(rules, claims)
    ensures Linked(claims, Current(rules))
  {
  }

  lemma ReplacedStays(claims: seq<Claim>, c: Claim, id: string)
    ensures forall v :: IsReplaced(claims, id, v) ==> IsReplaced(claims + [c], id, v)
    ensures forall v, w :: IsStamped(claims, id, v, w) ==> IsStamped(claims + [c], id, v, w)
    ensures c.key == id ==> IsReplaced(claims + [c], id, c.from) && IsStamped(claims + [c], id, c.to, c.writer)
  {
    var longer := claims + [c];
    assert longer[|claims|] == c;
    assert forall i :: 0 <= i < |claims| ==> longer[i] == claims[i];
  }

  lemma ClaimOkStays(rules: map<string, Rule>, id: string, row: Rule, c: Claim)
    requires id in rules && row.cooldownMinutes == rules[id].cooldownMinutes && ClaimOk(rules, c)
    ensures ClaimOk(rules[id := row], c)
  {
  }

  lemma ClaimsOkSnoc(rules: map<string, Rule>, claims: seq<Claim>, row: Rule, c: Claim)
    requires ClaimsOk(rules, claims) && ClaimOk(rules, c)
    requires c.from == rules[c.key].lastTriggeredAt
    requires row.cooldownMinutes == rules[c.key].cooldownMinutes && row.lastTriggeredAt == Some(c.to)
    ensures ClaimsOk(rules[c.key := row], claims + [c])
  {
    hide Linked;
    LinkedSnoc(claims, Current(rules), c);
    assert Current(rules[c.key := row]) == Current(rules)[c.key := Some(c.to)];
    hide ClaimOk;
    forall i | 0 <= i < |claims + [c]| ensures ClaimOk(rules[c.key := row], (claims + [c])[i]) {
      ClaimOkStays(rules, c.key, row, (claims + [c])[i]);
    }
  }

  lemma JobsOkStay(rules: map<string, Rule>, claims: seq<Claim>, row: Rule, c: Claim, evaluators: map<nat, Evaluator>)
    requires JobsOk(rules, claims, evaluators)
    requires c.key in rules && c.from == rules[c.key].lastTriggeredAt
    requires row.cooldownMinutes == rules[c.key].cooldownMinutes
    ensures JobsOk(rules[c.key := row], claims + [c], evaluators)
  {
    hide IsReplaced, IsStamped, IsInCooldown;
    forall u, k | u in evaluators && k in evaluators[u].jobs
      ensures JobOk(rules[c.key := row], claims + [c], u, evaluators[u].now, k, evaluators[u].jobs[k])
    {
      ReplacedStays(claims, c, k);
      assert JobOk(rules, claims, u, evaluators[u].now, k, evaluators[u].jobs[k]);
    }
  }

  lemma NotificationsOkStay(rules: map<string, Rule>, claims: seq<Claim>, row: Rule, c: Claim,
                            evaluators: map<nat, Evaluator>, notifications: seq<Notification>)
    requires NotificationsOk(rules, claims, evaluators, notifications)
    requires c.key in rules && row.cooldownMinutes == rules[c.key].cooldownMinutes
    ensures NotificationsOk(rules[c.key := row], claims + [c], evaluators, notifications)
  {
    hide IsStamped, IsReplaced;
    forall i | 0 <= i < |notifications| ensures NotificationOk(claims + [c], evaluators, notifications[i]) {
      ReplacedStays(claims, c, notifications[i].rule);
    }
  }

  /** A stamp outside the cooldown keeps the invariant. */
  lemma StampKeeps(s: State, w: nat, id: string)
    requires Inv(s) && HasJob(s, w, id) && JobOf(s, w, id) == Firing(s.rules[id].lastTriggeredAt)
    ensures Inv(Stamp(s, w, id))
    ensures IsStamped(Stamp(s, w, id).claims, id, s.evaluators[w].now, w)
  {
    hide IsStamped, IsReplaced, ClaimsOk, NotificationsOk;
    var now := s.evaluators[w].now;
    var c := Claim(id, s.rules[id].lastTriggeredAt, now, w, now);
    var row := s.rules[id].(lastTriggeredAt := Some(now));
    assert JobOk(s.rules, s.claims, w, now, id, JobOf(s, w, id));
    assert ClaimOk(s.rules, c);
    hide JobsOk, JobOk, ClaimOk;
    ClaimsOkSnoc(s.rules, s.claims, row, c);
    ReplacedStays(s.claims, c, id);
    JobsOkStay(s.rules, s.claims, row, c, s.evaluators);
    NotificationsOkStay(s.rules, s.claims, row, c, s.evaluators, s.notifications);
  }

  lemma SetJobKeeps(s: State, w: nat, id: string, job: Job)
    requires Inv(s) && HasJob(s, w, id) && !JobOf(s, w, id).Notified?
    requires JobOk(s.rules, s.claims, w, s.evaluators[w].now, id, job)
    ensures Inv(SetJob(s, w, id, job))
  {
    hide ClaimsOk, JobOk, IsStamped;
    var s' := SetJob(s, w, id, job);
    forall i | 0 <= i < |s.notifications| ensures NotificationOk(s'.claims, s'.evaluators, s.notifications[i]) {
      assert NotificationOk(s.claims, s.evaluators, s.notifications[i]);
    }
  }

  lemma NotifyKeeps(s: State, w: nat, id: string)
    requires Inv(s) && HasJob(s, w, id) && JobOf(s, w, id).Fired?
    ensures var stamp := JobOf(s, w, id).stamp;
      Inv(SetJob(s.(notifications := s.notifications + [Notification(id, stamp, w)]), w, id, Notified(stamp)))
  {
    hide ClaimsOk, IsStamped, IsReplaced;
    var stamp := JobOf(s, w, id).stamp;
    assert JobOk(s.rules, s.claims, w, s.evaluators[w].now, id, JobOf(s, w, id));
    SetJobKeeps(s, w, id, Notified(stamp));
    hide JobsOk, JobOk;
    forall i | 0 <= i < |s.notifications| && s.notifications[i].rule == id && s.rules[id].cooldownMinutes > 0
      ensures s.notifications[i].stamp != stamp
    {
      assert NotificationOk(s.claims, s.evaluators, s.notifications[i]);
      if s.notifications[i].stamp == stamp {
        StampIsUnique(s.rules, s.claims, id, stamp, s.notifications[i].writer, w);
        assert false;
      }
    }
  }

  lemma SwapKeeps(s: State, w: nat, id: string)
    requires Inv(s) && HasJob(s, w, id) && JobOf(s, w, id).Firing?
    ensures Inv(SetJob(s, w, id, Quiet))
    ensures var seen := JobOf(s, w, id).seen;
      if s.rules[id].lastTriggeredAt == seen
      then Inv(SetJob(Stamp(s, w, id), w, id, Fired(s.evaluators[w].now))) && Inv(SetJob(Stamp(s, w, id), w, id, Quiet))
      else Inv(SetJob(s, w, id, Lost(seen)))
  {
    hide ClaimsOk, NotificationsOk, IsStamped, IsReplaced;
    var seen := JobOf(s, w, id).seen;
    assert JobOk(s.rules, s.claims, w, s.evaluators[w].now, id, JobOf(s, w, id));
    hide JobsOk;
    SetJobKeeps(s, w, id, Quiet);
    if s.rules[id].lastTriggeredAt == seen {
      StampKeeps(s, w, id);
      SetJobKeeps(Stamp(s, w, id), w, id, Fired(s.evaluators[w].now));
      SetJobKeeps(Stamp(s, w, id), w, id, Quiet);
    } else {
      SetJobKeeps(s, w, id, Lost(seen));
    }
  }

  lemma JudgeKeeps(s: State, w: nat, id: string)
    requires Inv(s) && HasJob(s, w, id) && JobOf(s, w, id).Pending?
    ensures Inv(SetJob(s, w, id, Quiet))
    ensures var seen := JobOf(s, w, id).seen;
      !IsInCooldown(seen, s.rules[id].cooldownMinutes, s.evaluators[w].now) ==> Inv(SetJob(s, w, id, Firing(seen)))
  {
    hide ClaimsOk, NotificationsOk, IsReplaced, IsInCooldown;
    var seen := JobOf(s, w, id).seen;
    assert JobOk(s.rules, s.claims, w, s.evaluators[w].now, id, JobOf(s, w, id));
    SetJobKeeps(s, w, id, Quiet);
    if !IsInCooldown(seen, s.rules[id].cooldownMinutes, s.evaluators[w].now) {
      SetJobKeeps(s, w, id, Firing(seen));
    }
  }

  lemma SelectKeeps(s: State, w: nat, now: int)
    requires Inv(s) && w !in s.evaluators
    ensures Inv(s.(evaluators := s.evaluators[w := Evaluator(now, SelectActive(s.rules))]))
  {
    hide ClaimsOk, IsStamped, IsReplaced;
    var s' := s.(evaluators := s.evaluators[w := Evaluator(now, SelectActive(s.rules))]);
    forall i | 0 <= i < |s.notifications| ensures NotificationOk(s'.claims, s'.evaluators, s.notifications[i]) {
      assert NotificationOk(s.claims, s.evaluators, s.notifications[i]);
    }
  }

  lemma StepKeepsInv(s: State, e: Event, s': State)
    requires Inv(s) && Step(s, e, s')
    ensures Inv(s')
  {
    hide Inv;
    match e
    case Select(w, now) => SelectKeeps(s, w, now);
    case Judge(w, id, holds) => JudgeKeeps(s, w, id);
    case Swap(w, id) => SwapKeeps(s, w, id);
    case SwapFails(w, id, applied) => SwapKeeps(s, w, id);
    case Notify(w, id) => NotifyKeeps(s, w, id);
  }

  // ---- Whole runs ----

  lemma {:induction false} InvariantHolds(states: seq<State>, events: seq<Event>, k: nat)
    requires Trace(states, events) && k < |states|
    ensures Inv(states[k])
  {
    if k > 0 {
      InvariantHolds(states, events, k - 1);
      StepKeepsInv(states[k - 1], events[k - 1], states[k]);
    }
  }

  /** However many evaluators overlap, and whatever their clocks say, two stamps of a rule are its cooldown apart. */
  lemma StampsAreApart(states: seq<State>, events: seq<Event>, k: nat, i: nat, j: nat)
    requires Trace(states, events) && k < |states|
    requires i < j < |states[k].claims| && states[k].claims[i].key == states[k].claims[j].key
    ensures states[k].claims[i].key in states[k].rules
    ensures states[k].claims[j].to - states[k].claims[i].to
      >= states[k].rules[states[k].claims[i].key].cooldownMinutes * Calendar.MS_PER_MINUTE
  {
    InvariantHolds(states, events, k);
    var s := states[k];
    assert ClaimOk(s.rules, s.claims[i]);
    ClaimsRaise(s.rules, s.claims, s.claims[i].key);
    hide Linked, ClaimOk, JobsOk, NotificationsOk;
    ClaimsRise(s.claims, Current(s.rules), i, j, Gap(s.rules, s.claims[i].key));
  }

  /** With a positive cooldown, a stamp is announced at most once. */
  lemma OneNotificationPerStamp(states: seq<State>, events: seq<Event>, k: nat, i: nat, j: nat)
    requires Trace(states, events) && k < |states| && i < j < |states[k].notifications|
    requires states[k].notifications[i].rule == states[k].notifications[j].rule
    ensures states[k].notifications[i].rule in states[k].rules
    ensures states[k].rules[states[k].notifications[i].rule].cooldownMinutes > 0 ==>
      states[k].notifications[i].stamp != states[k].notifications[j].stamp
  {
    InvariantHolds(states, events, k);
  }

  /** An evaluator loses the swap only because another one has fired in its place. */
  lemma LostMeansFired(states: seq<State>, events: seq<Event>, k: nat, w: nat, id: string)
    requires Trace(states, events) && k < |states| && HasJob(states[k], w, id) && JobOf(states[k], w, id).Lost?
    ensures IsReplaced(states[k].claims, id, JobOf(states[k], w, id).seen)
  {
    InvariantHolds(states, events, k);
    var s := states[k];
    assert JobOk(s.rules, s.claims, w, s.evaluators[w].now, id, JobOf(s, w, id));
  }
}

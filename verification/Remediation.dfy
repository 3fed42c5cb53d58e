/** The sliding health window and the restart/rollback ladder of one deployment, as a fold over its checks. */
module Remediation {

  const HEALTH_CHECK_WINDOW_SIZE := 10
  const HEALTH_THRESHOLD_HEALTHY := 0.8
  const HEALTH_THRESHOLD_DEGRADED := 0.5
  const MAX_RESTART_ATTEMPTS := 3
  const RESTART_BACKOFF_BASE_MS := 5000

  // ---- Sliding window ----

  datatype Entry = Entry(passed: bool, timestamp: int)

  datatype Window = Window(entries: seq<Entry>, windowSize: nat)

  datatype Health = Healthy | Degraded | Unhealthy

  function PushEntry(w: Window, e: Entry): Window {
    var updated := w.entries + [e];
    w.(entries := if |updated| > w.windowSize then updated[|updated| - w.windowSize..] else updated)
  }

  function PassCount(entries: seq<Entry>): nat {
    if entries == [] then 0 else PassCount(entries[1..]) + (if entries[0].passed then 1 else 0)
  }

  function GetPassRate(w: Window): real {
    if w.entries == [] then 1.0 else PassCount(w.entries) as real / |w.entries| as real
  }

  function ComputeHealth(w: Window): Health {
    if w.entries == [] then Healthy
    else if GetPassRate(w) >= HEALTH_THRESHOLD_HEALTHY then Healthy
    else if GetPassRate(w) >= HEALTH_THRESHOLD_DEGRADED then Degraded
    else Unhealthy
  }

  lemma PassCountBound(entries: seq<Entry>)
    ensures PassCount(entries) <= |entries|
    ensures (forall i :: 0 <= i < |entries| ==> !entries[i].passed) ==> PassCount(entries) == 0
  {
  }

  lemma RateAtLeast(p: nat, n: nat, num: nat, den: nat)
    requires n > 0 && den > 0
    ensures p as real / n as real >= num as real / den as real <==> p * den >= num * n
  {
    var rate, bound := p as real / n as real, num as real / den as real;
    assert rate * (n as real) == p as real && bound * (den as real) == num as real;
    if rate >= bound {
      assert rate * (n as real) * (den as real) >= bound * (n as real) * (den as real);
      assert (p * den) as real == (p as real) * (den as real) && (num * n) as real == (num as real) * (n as real);
    } else {
      assert rate * (n as real) * (den as real) < bound * (n as real) * (den as real);
      assert (p * den) as real == (p as real) * (den as real) && (num * n) as real == (num as real) * (n as real);
    }
  }

  /** Healthy from four passes in five, degraded from one in two, unhealthy below; healthy before any check. */
  lemma HealthByCounts(w: Window)
    ensures var p, n := PassCount(w.entries), |w.entries|;
      && (ComputeHealth(w) == Healthy <==> n == 0 || 5 * p >= 4 * n)
      && (ComputeHealth(w) == Unhealthy <==> n > 0 && 2 * p < n)
  {
    if w.entries != [] {
      RateAtLeast(PassCount(w.entries), |w.entries|, 4, 5);
      RateAtLeast(PassCount(w.entries), |w.entries|, 1, 2);
    }
  }

  // ---- Remediation ----

  datatype State = State(restartCount: nat, lastRestartAt: int, isRemediating: bool)

  datatype Action = NoAction | Restart | Rollback

  datatype Result = Result(action: Action, newState: State)

  function CreateState(): State {
    State(0, 0, false)
  }

  function Pow2(n: nat): nat {
    if n == 0 then 1 else 2 * Pow2(n - 1)
  }

  function CalculateBackoffMs(attempt: nat): nat
    requires attempt > 0
  {
    RESTART_BACKOFF_BASE_MS * Pow2(attempt - 1)
  }

  predicate IsBackoffElapsed(s: State, now: int) {
    s.restartCount == 0 || now - s.lastRestartAt >= CalculateBackoffMs(s.restartCount)
  }

  /** `now` is when the decision is made, `restartedAt` when a restart, if any, has been carried out. */
  function Remediate(health: Health, s: State, now: int, restartedAt: int): Result {
    if health == Healthy && s.restartCount > 0 then Result(NoAction, CreateState())
    else if health != Unhealthy then Result(NoAction, s)
    else if s.isRemediating then Result(NoAction, s)
    else if !IsBackoffElapsed(s, now) then Result(NoAction, s)
    else if s.restartCount < MAX_RESTART_ATTEMPTS then Result(Restart, State(s.restartCount + 1, restartedAt, false))
    else Result(Rollback, s.(isRemediating := false))
  }

  // ---- One deployment, check by check ----

  /** What one check sees. */
  datatype Observation = Observation(running: bool, probePassed: bool, timestamp: int, now: int, restartedAt: int)

  datatype Monitored = Monitored(window: Window, remediation: State)

  function Fresh(): Monitored {
    Monitored(Window([], HEALTH_CHECK_WINDOW_SIZE), CreateState())
  }

  function EntryOf(o: Observation): Entry {
    Entry(o.running && o.probePassed, o.timestamp)
  }

  function CheckOne(m: Monitored, o: Observation): Monitored {
    var window := PushEntry(m.window, EntryOf(o));
    Monitored(window, Remediate(ComputeHealth(window), m.remediation, o.now, o.restartedAt).newState)
  }

  /** The state after a history of checks, oldest first. */
  function After(history: seq<Observation>): Monitored {
    if history == [] then Fresh()
    else CheckOne(After(history[..|history| - 1]), history[|history| - 1])
  }

  function HealthAt(history: seq<Observation>, i: nat): Health
    requires i < |history|
  {
    ComputeHealth(After(history[..i + 1]).window)
  }

  function ActionAt(history: seq<Observation>, i: nat): Action
    requires i < |history|
  {
    Remediate(HealthAt(history, i), After(history[..i]).remediation, history[i].now, history[i].restartedAt).action
  }

  lemma AfterStep(history: seq<Observation>, i: nat)
    requires i < |history|
    ensures After(history[..i + 1]) == CheckOne(After(history[..i]), history[i])
    ensures After(history[..i + 1]).remediation
      == Remediate(HealthAt(history, i), After(history[..i]).remediation, history[i].now, history[i].restartedAt).newState
  {
    assert history[..i + 1][..i] == history[..i];
  }

  // ---- The window is the last ten checks ----

  function Entries(history: seq<Observation>): seq<Entry> {
    seq(|history|, i requires 0 <= i < |history| => EntryOf(history[i]))
  }

  function LastOf(entries: seq<Entry>, n: nat): seq<Entry> {
    if |entries| <= n then entries else entries[|entries| - n..]
  }

  lemma {:induction false} WindowIsLastChecks(history: seq<Observation>)
    ensures After(history).window == Window(LastOf(Entries(history), HEALTH_CHECK_WINDOW_SIZE), HEALTH_CHECK_WINDOW_SIZE)
  {
    if history != [] {
      var before := history[..|history| - 1];
      WindowIsLastChecks(before);
      assert Entries(history) == Entries(before) + [EntryOf(history[|history| - 1])];
    }
  }

  // ---- The ladder ----

  /** The restarts of the current episode: since the last healthy verdict that found any. */
  function Restarts(history: seq<Observation>, n: nat): seq<nat>
    requires n <= |history|
  {
    if n == 0 then []
    else
      var earlier := Restarts(history, n - 1);
      if HealthAt(history, n - 1) == Healthy then []
      else if ActionAt(history, n - 1) == Restart then earlier + [n - 1]
      else earlier
  }

  /** Each is a restart, nothing was healthy since the first of them, and restart k + 1 waits for the k-th backoff. */
  ghost predicate Spaced(history: seq<Observation>, restarts: seq<nat>, n: nat)
    requires n <= |history|
  {
    && (forall k :: 0 <= k < |restarts| ==> restarts[k] < n && ActionAt(history, restarts[k]) == Restart)
    && (forall k :: 0 < k < |restarts| ==>
          && restarts[k - 1] < restarts[k] < n
          && history[restarts[k]].now - history[restarts[k - 1]].restartedAt >= CalculateBackoffMs(k))
    && (restarts != [] ==> forall i: nat :: restarts[0] <= i < n ==> HealthAt(history, i) != Healthy)
  }

  lemma SpacedStays(history: seq<Observation>, restarts: seq<nat>, n: nat)
    requires n < |history| && Spaced(history, restarts, n) && HealthAt(history, n) != Healthy
    ensures Spaced(history, restarts, n + 1)
  {
    hide HealthAt, ActionAt, CalculateBackoffMs;
  }

  lemma SpacedSnoc(history: seq<Observation>, restarts: seq<nat>, n: nat)
    requires n < |history| && Spaced(history, restarts, n) && HealthAt(history, n) != Healthy
    requires ActionAt(history, n) == Restart
    requires restarts != [] ==>
      history[n].now - history[restarts[|restarts| - 1]].restartedAt >= CalculateBackoffMs(|restarts|)
    ensures Spaced(history, restarts + [n], n + 1)
  {
    hide HealthAt, ActionAt, CalculateBackoffMs;
    var longer := restarts + [n];
    assert forall k :: 0 <= k < |restarts| ==> longer[k] == restarts[k];
    assert longer[|restarts|] == n;
  }

  /** The stored counter and clock are those of the episode's restarts: at most three, each after its backoff. */
  ghost predicate Ladder(history: seq<Observation>, s: State, restarts: seq<nat>, n: nat)
    requires n <= |history|
  {
    && !s.isRemediating && s.restartCount == |restarts| <= MAX_RESTART_ATTEMPTS
    && Spaced(history, restarts, n)
    && (restarts != [] ==> s.lastRestartAt == history[restarts[|restarts| - 1]].restartedAt)
  }

  lemma LadderStep(history: seq<Observation>, s: State, restarts: seq<nat>, n: nat)
    requires n < |history| && Ladder(history, s, restarts, n)
    requires s == After(history[..n]).remediation
    ensures var s' := Remediate(HealthAt(history, n), s, history[n].now, history[n].restartedAt).newState;
      if HealthAt(history, n) == Healthy then Ladder(history, s', [], n + 1)
      else if ActionAt(history, n) == Restart then Ladder(history, s', restarts + [n], n + 1)
      else Ladder(history, s', restarts, n + 1)
  {
    hide After, HealthAt, Spaced, CalculateBackoffMs;
    if HealthAt(history, n) == Healthy {
      NothingSpaced(history, n + 1);
      assert restarts == [] || s.restartCount > 0;
    } else if ActionAt(history, n) == Restart {
      SpacedSnoc(history, restarts, n);
    } else {
      SpacedStays(history, restarts, n);
    }
  }

  lemma RestartsStep(history: seq<Observation>, n: nat)
    requires n < |history|
    ensures Restarts(history, n + 1) ==
      if HealthAt(history, n) == Healthy then []
      else if ActionAt(history, n) == Restart then Restarts(history, n) + [n]
      else Restarts(history, n)
  {
  }

  lemma LadderStarts(history: seq<Observation>)
    ensures After(history[..0]) == Fresh() && Restarts(history, 0) == []
    ensures Ladder(history, CreateState(), [], 0)
  {
    assert history[..0] == [];
    NothingSpaced(history, 0);
  }

  lemma {:induction false} LadderIsClimbed(history: seq<Observation>, n: nat)
    requires n <= |history|
    ensures Ladder(history, After(history[..n]).remediation, Restarts(history, n), n)
  {
    hide Ladder, HealthAt, ActionAt, After, Remediate, Restarts;
    if n > 0 {
      RestartsStep(history, n - 1);
      LadderIsClimbed(history, n - 1);
      AfterStep(history, n - 1);
      LadderStep(history, After(history[..n - 1]).remediation, Restarts(history, n - 1), n - 1);
    } else {
      LadderStarts(history);
    }
  }

  lemma NothingSpaced(history: seq<Observation>, n: nat)
    requires n <= |history|
    ensures Spaced(history, [], n)
  {
  }

  lemma FirstBackoffs()
    ensures CalculateBackoffMs(1) == 5000 && CalculateBackoffMs(2) == 10000 && CalculateBackoffMs(3) == 20000
  {
    assert Pow2(0) == 1 && Pow2(1) == 2 && Pow2(2) == 4;
  }

  lemma RollbackIsDue(history: seq<Observation>, s: State, j: nat)
    requires j < |history| && ActionAt(history, j) == Rollback && s == After(history[..j]).remediation
    ensures HealthAt(history, j) == Unhealthy && s.restartCount >= MAX_RESTART_ATTEMPTS
    ensures history[j].now - s.lastRestartAt >= CalculateBackoffMs(s.restartCount)
  {
    hide After, HealthAt, CalculateBackoffMs;
  }

  /** A rollback is attempted only after three spaced restarts, with no healthy verdict since the first. */
  lemma RollbackNeedsThreeRestarts(history: seq<Observation>, j: nat) returns (first: nat, second: nat, third: nat)
    requires j < |history| && ActionAt(history, j) == Rollback
    ensures first < second < third < j
    ensures ActionAt(history, first) == ActionAt(history, second) == ActionAt(history, third) == Restart
    ensures forall i: nat :: first <= i <= j ==> HealthAt(history, i) != Healthy
    ensures history[second].now - history[first].restartedAt >= 5000
    ensures history[third].now - history[second].restartedAt >= 10000
    ensures history[j].now - history[third].restartedAt >= 20000
  {
    hide HealthAt, After, ActionAt, Restarts, CalculateBackoffMs;
    LadderIsClimbed(history, j);
    RollbackIsDue(history, After(history[..j]).remediation, j);
    FirstBackoffs();
    var restarts := Restarts(history, j);
    first, second, third := restarts[0], restarts[1], restarts[2];
  }

  /** Consecutive restarts of an episode, wherever they stand in the history. */
  lemma RestartsWait(history: seq<Observation>, n: nat, k: nat)
    requires n <= |history| && 0 < k < |Restarts(history, n)|
    ensures k < MAX_RESTART_ATTEMPTS && Restarts(history, n)[k - 1] < Restarts(history, n)[k] < n
    ensures history[Restarts(history, n)[k]].now - history[Restarts(history, n)[k - 1]].restartedAt
      >= RESTART_BACKOFF_BASE_MS * Pow2(k - 1)
  {
    hide HealthAt, After, ActionAt, Restarts;
    LadderIsClimbed(history, n);
  }

  // ---- What the checks say, counted directly ----

  /** The checks from `lo` up to `hi` that found the container running and its probe passed. */
  function Passing(history: seq<Observation>, lo: nat, hi: nat): set<nat>
    requires lo <= hi <= |history|
  {
    set k: nat | lo <= k < hi && history[k].running && history[k].probePassed
  }

  function PassedEntries(entries: seq<Entry>): set<nat> {
    set k: nat | k < |entries| && entries[k].passed
  }

  /** The count is the number of entries that passed. */
  lemma {:induction false} PassCountCounts(entries: seq<Entry>)
    ensures PassCount(entries) == |PassedEntries(entries)|
  {
    if entries != [] {
      var last := |entries| - 1;
      var before := entries[..last];
      PassCountSnoc(before, entries[last]);
      assert entries == before + [entries[last]];
      PassCountCounts(before);
      if entries[last].passed {
        assert PassedEntries(entries) == PassedEntries(before) + {last};
      } else {
        assert PassedEntries(entries) == PassedEntries(before);
      }
    }
  }

  lemma {:induction false} PassCountSnoc(entries: seq<Entry>, e: Entry)
    ensures PassCount(entries + [e]) == PassCount(entries) + (if e.passed then 1 else 0)
  {
    if entries == [] {
      assert [e][1..] == [];
    } else {
      assert (entries + [e])[1..] == entries[1..] + [e];
      PassCountSnoc(entries[1..], e);
    }
  }

  /** Where the window starts after `n` checks. */
  function WindowStart(n: nat): nat {
    if n <= HEALTH_CHECK_WINDOW_SIZE then 0 else n - HEALTH_CHECK_WINDOW_SIZE
  }

  lemma {:induction false} ShiftedSize(a: set<nat>, b: set<nat>, shift: nat)
    requires forall k: nat :: k in a <==> k + shift in b
    requires forall k: nat :: k in b ==> k >= shift
    ensures |a| == |b|
    decreases |a|
  {
    if a == {} {
      forall k: nat ensures k !in b {
        assert k >= shift ==> (k - shift) + shift == k && k - shift !in a;
      }
      assert b == {};
    } else {
      var k: nat :| k in a;
      var fewer, others := a - {k}, b - {k + shift};
      assert forall j: nat :: j in fewer <==> j + shift in others;
      ShiftedSize(fewer, others, shift);
      assert |a| == |fewer| + 1 && |b| == |others| + 1;
    }
  }

  lemma WindowPasses(history: seq<Observation>, n: nat)
    requires n <= |history|
    ensures |After(history[..n]).window.entries| == n - WindowStart(n)
    ensures PassCount(After(history[..n]).window.entries) == |Passing(history, WindowStart(n), n)|
  {
    var h := history[..n];
    WindowIsLastChecks(h);
    WindowSlice(history, n);
    PassesShift(history, WindowStart(n), n, LastOf(Entries(h), HEALTH_CHECK_WINDOW_SIZE));
    hide After, PassCount, Passing;
  }

  lemma WindowSlice(history: seq<Observation>, n: nat)
    requires n <= |history|
    ensures var entries := LastOf(Entries(history[..n]), HEALTH_CHECK_WINDOW_SIZE);
      && |entries| == n - WindowStart(n)
      && forall k :: 0 <= k < |entries| ==> entries[k] == EntryOf(history[WindowStart(n) + k])
  {
  }

  lemma PassesShift(history: seq<Observation>, lo: nat, n: nat, entries: seq<Entry>)
    requires lo <= n <= |history| && |entries| == n - lo
    requires forall k :: 0 <= k < |entries| ==> entries[k] == EntryOf(history[lo + k])
    ensures PassCount(entries) == |Passing(history, lo, n)|
  {
    PassCountCounts(entries);
    hide PassCount;
    forall k: nat ensures k in PassedEntries(entries) <==> k + lo in Passing(history, lo, n) {
      if k < |entries| {
        assert entries[k] == EntryOf(history[lo + k]);
      }
    }
    ShiftedSize(PassedEntries(entries), Passing(history, lo, n), lo);
  }

  /** The verdict after a check, by the last ten checks: healthy from four in five, unhealthy below one in two. */
  lemma HealthByChecks(history: seq<Observation>, i: nat)
    requires i < |history|
    ensures var lo := WindowStart(i + 1); var passed := |Passing(history, lo, i + 1)|;
      && (HealthAt(history, i) == Healthy <==> 5 * passed >= 4 * (i + 1 - lo))
      && (HealthAt(history, i) == Unhealthy <==> 2 * passed < i + 1 - lo)
  {
    WindowPasses(history, i + 1);
    HealthByCounts(After(history[..i + 1]).window);
    hide After, PassCount, ComputeHealth, Passing;
  }

  /** Nothing is done unless the verdict is unhealthy; a degraded deployment keeps its counter, a healthy one starts over. */
  lemma OnlyUnhealthyIsTreated(history: seq<Observation>, i: nat)
    requires i < |history| && HealthAt(history, i) != Unhealthy
    ensures ActionAt(history, i) == NoAction
    ensures HealthAt(history, i) == Degraded ==> After(history[..i + 1]).remediation == After(history[..i]).remediation
    ensures HealthAt(history, i) == Healthy ==> After(history[..i + 1]).remediation.restartCount == 0
  {
    AfterStep(history, i);
    hide After, HealthAt;
  }

  /** A deployment that passes at least four of its last ten checks in five is left alone. */
  lemma PassingIsLeftAlone(history: seq<Observation>, i: nat)
    requires i < |history|
    requires 5 * |Passing(history, WindowStart(i + 1), i + 1)| >= 4 * (i + 1 - WindowStart(i + 1))
    ensures HealthAt(history, i) == Healthy && ActionAt(history, i) == NoAction
  {
    HealthByChecks(history, i);
    OnlyUnhealthyIsTreated(history, i);
  }

  /** So one that always passes is never restarted and never rolled back. */
  lemma AlwaysPassing(history: seq<Observation>, i: nat)
    requires i < |history| && forall k :: 0 <= k < |history| ==> history[k].running && history[k].probePassed
    ensures HealthAt(history, i) == Healthy && ActionAt(history, i) == NoAction
  {
    var lo := WindowStart(i + 1);
    FullRange(history, lo, i + 1);
    PassingIsLeftAlone(history, i);
  }

  lemma {:induction false} FullRange(history: seq<Observation>, lo: nat, hi: nat)
    requires lo <= hi <= |history| && forall k :: 0 <= k < |history| ==> history[k].running && history[k].probePassed
    ensures |Passing(history, lo, hi)| == hi - lo
    decreases hi
  {
    if lo < hi {
      FullRange(history, lo, hi - 1);
      assert Passing(history, lo, hi) == Passing(history, lo, hi - 1) + {hi - 1};
    } else {
      assert Passing(history, lo, hi) == {};
    }
  }

  // ---- And it is climbed ----

  lemma {:induction false} NeverPassing(history: seq<Observation>, i: nat)
    requires i < |history| && forall k :: 0 <= k < |history| ==> !(history[k].running && history[k].probePassed)
    ensures HealthAt(history, i) == Unhealthy
  {
    var h := history[..i + 1];
    WindowIsLastChecks(h);
    var w := After(h).window;
    assert Entries(h) != [] && forall k :: 0 <= k < |w.entries| ==> !w.entries[k].passed;
    PassCountBound(w.entries);
    HealthByCounts(w);
  }

  /** A deployment that never passes a check, checked at least 20 seconds after each restart, is restarted at its
      first three checks and rolled back at every later one. */
  lemma {:induction false} FailingIsRolledBack(history: seq<Observation>, i: nat)
    requires i < |history| && forall k :: 0 <= k < |history| ==> !(history[k].running && history[k].probePassed)
    requires forall j, k :: 0 <= j < k < |history| ==> history[k].now >= history[j].restartedAt + 20000
    ensures ActionAt(history, i) == if i < 3 then Restart else Rollback
  {
    FailingClimbs(history, i);
    NeverPassing(history, i);
    FirstBackoffs();
    hide After, HealthAt, CalculateBackoffMs;
  }

  lemma {:induction false} FailingClimbs(history: seq<Observation>, i: nat)
    requires i <= |history| && forall k :: 0 <= k < |history| ==> !(history[k].running && history[k].probePassed)
    requires forall j, k :: 0 <= j < k < |history| ==> history[k].now >= history[j].restartedAt + 20000
    ensures var s := After(history[..i]).remediation;
      && !s.isRemediating && s.restartCount == (if i < 3 then i else 3)
      && (i > 0 ==> s.lastRestartAt == history[s.restartCount - 1].restartedAt)
  {
    hide After, HealthAt, CalculateBackoffMs;
    LadderStarts(history);
    if i > 0 {
      FailingClimbs(history, i - 1);
      NeverPassing(history, i - 1);
      AfterStep(history, i - 1);
      FirstBackoffs();
    }
  }
}

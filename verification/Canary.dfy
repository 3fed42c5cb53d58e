/** Canary deploys: staged promotion, then the stable container is replaced behind the canary. */
module Canary {
  import opened CanaryWeights
  import opened Collections
  import opened Docker
  import opened PreviousImage
  import opened SafeSteps

  function BuildLabels(role: string, deployment: string): map<string, string> {
    map["deployx.role" := "app", "deployx.strategy" := "canary", "deployx.canaryRole" := role, "deployx.deployment" := deployment]
  }

  const TO_STABLE: seq<Server> := [Server(Stable, 1)]
  const TO_CANARY: seq<Server> := [Server(Canary, 1)]

  /** The upstreams loaded at a stage. */
  function StageServers(percentage: nat): seq<Server> {
    if percentage >= 100 then TO_CANARY
    else
      var w := CalculateCanaryWeights(percentage);
      [Server(Stable, if w.stable >= 0 then w.stable else 0), Server(Canary, if w.canary >= 0 then w.canary else 0)]
  }

  /** Below 100 a stage splits the traffic in exactly the ratio asked for, in lowest terms; at 100 all of it moves. */
  lemma StageSplitsExactly(percentage: nat)
    requires 0 < percentage <= 100
    ensures percentage == 100 ==> StageServers(percentage) == TO_CANARY
    ensures percentage < 100 ==>
      var servers := StageServers(percentage);
      && |servers| == 2 && servers[0].name == Stable && servers[1].name == Canary
      && servers[0].weight > 0 && servers[1].weight > 0
      && servers[0].weight * percentage == servers[1].weight * (100 - percentage)
      && (forall d: nat :: Divides(d, servers[0].weight) && Divides(d, servers[1].weight) ==> d == 1)
  {
    hide Gcd, CalculateCanaryWeights;
    if percentage < 100 {
      WeightsAreExact(percentage);
    }
  }

  /** What the configuration schema admits. */
  predicate ValidStages(stages: seq<nat>) {
    forall i :: 0 <= i < |stages| ==> 1 <= stages[i] <= 100
  }

  /** Everything a deploy with these stages may load. */
  function Plan(stages: seq<nat>): set<seq<Server>> {
    {TO_STABLE, TO_CANARY} + (set i | 0 <= i < |stages| :: StageServers(stages[i]))
  }

  // ---- Between deploys ----

  /** Either nothing is configured and there is no stable container, or all traffic goes to a running stable
      container, or all of it goes to a running canary and there is no stable container. */
  ghost predicate Settled(c: map<Name, Container>, proxy: Proxy) {
    || (!Configured(proxy) && Stable !in c)
    || (proxy.Up? && proxy.loaded == Some(TO_STABLE) && Runs(c, Stable))
    || (proxy.Up? && proxy.loaded == Some(TO_CANARY) && Runs(c, Canary) && Stable !in c)
  }

  lemma SettledIsSafe(s: Snapshot, plan: set<seq<Server>>)
    requires Settled(s.containers, s.proxy) && TO_STABLE in plan && TO_CANARY in plan
    ensures Safe(s) && (Configured(s.proxy) ==> s.proxy.loaded.value in plan)
  {
  }

  lemma StartSteady(s: Snapshot, trace: seq<Snapshot>, plan: set<seq<Server>>)
    requires Settled(s.containers, s.proxy) && TO_STABLE in plan && TO_CANARY in plan
    ensures Steady(s, trace, |trace|, plan)
  {
    SettledIsSafe(s, plan);
  }

  datatype Outcome =
    | Success
    | FirstUnhealthy
    | CanaryUnhealthy
    | UnhealthyAtStage(index: nat)
    | NewStableUnhealthy

  // ---- firstDeploy ----

  method FirstDeploy(host: Host, image: string, deployment: string, ghost from: nat, ghost plan: set<seq<Server>>)
    returns (r: Outcome)
    requires Settled(host.containers, host.proxy) && Stable !in host.containers && TO_STABLE in plan
    requires Steady(host.Now(), host.trace, from, plan)
    modifies host`containers, host`proxy, host`probes, host`failed, host`trace
    ensures Steady(host.Now(), host.trace, from, plan)
    ensures r == if host.verdict(old(host.probes)) then Success else FirstUnhealthy
    ensures host.probes == old(host.probes) + 1
    ensures r.FirstUnhealthy? ==> host.containers == old(host.containers) && host.proxy == old(host.proxy)
    ensures r.Success? ==>
      && host.containers == old(host.containers)[Stable := Container(image, BuildLabels("stable", deployment), true)]
      && host.proxy == Up(Some(TO_STABLE), Some(TO_STABLE))
  {
    hide Steady;
    StartContainer(host, Stable, image, BuildLabels("stable", deployment), from, plan);
    var passed := Check(host, from, plan);
    if !passed {
      StopContainer(host, Stable, from, plan);
      RemoveContainer(host, Stable, from, plan);
      assert host.containers == old(host.containers);
      return FirstUnhealthy;
    }
    StartProxy(host, from, plan);
    Route(host, TO_STABLE, from, plan);
    r := Success;
  }

  // ---- The stages ----

  /** Stable and canary both run, and nginx points at them as planned. */
  ghost predicate BothRun(c: map<Name, Container>, proxy: Proxy, stable: Container, canary: Container) {
    && Stable in c && c[Stable] == stable && stable.running
    && Canary in c && c[Canary] == canary && canary.running
    && Configured(proxy)
  }

  /** Drop the canary once nginx no longer points at it. */
  method DropCanary(host: Host, ghost from: nat, ghost plan: set<seq<Server>>)
    requires host.proxy.Up? && host.proxy.loaded == Some(TO_STABLE) && Steady(host.Now(), host.trace, from, plan)
    modifies host`containers, host`trace
    ensures host.containers == old(host.containers) - {Canary} && Steady(host.Now(), host.trace, from, plan)
    ensures old(host.trace) <= host.trace
  {
    hide Steady;
    StopContainer(host, Canary, from, plan);
    RemoveContainer(host, Canary, from, plan);
  }

  /** From state `at` on: the config is written, then loaded, then one check is made under it. */
  ghost predicate StageObserved(trace: seq<Snapshot>, at: nat, servers: seq<Server>, probes: nat) {
    && at + 2 < |trace|
    && trace[at].probes == trace[at + 1].probes == probes && trace[at + 2].probes == probes + 1
    && Configured(trace[at + 1].proxy) && trace[at + 1].proxy.loaded.value == servers
    && trace[at + 2].proxy == trace[at + 1].proxy
  }

  /** The first `n` stages have been loaded and observed, one right after the other. */
  ghost predicate LoadedInOrder(trace: seq<Snapshot>, at: nat, stages: seq<nat>, probes: nat, n: nat)
    requires n <= |stages|
  {
    forall k :: 0 <= k < n ==> StageObserved(trace, at + 3 * k, StageServers(stages[k]), probes + k)
  }

  lemma LoadedStays(trace: seq<Snapshot>, longer: seq<Snapshot>, at: nat, stages: seq<nat>, probes: nat, n: nat)
    requires n <= |stages| && LoadedInOrder(trace, at, stages, probes, n) && trace <= longer
    ensures LoadedInOrder(longer, at, stages, probes, n)
  {
    hide StageServers;
  }

  lemma NextStage(trace: seq<Snapshot>, longer: seq<Snapshot>, at: nat, stages: seq<nat>, probes: nat, n: nat)
    requires n < |stages| && LoadedInOrder(trace, at, stages, probes, n) && trace <= longer && |trace| == at + 3 * n
    requires StageObserved(longer, at + 3 * n, StageServers(stages[n]), probes + n)
    ensures LoadedInOrder(longer, at, stages, probes, n + 1)
  {
    LoadedStays(trace, longer, at, stages, probes, n);
    hide StageServers, StageObserved;
  }

  /** Load a stage and observe the canary under it. */
  method ObserveStage(host: Host, percentage: nat, ghost from: nat, ghost plan: set<seq<Server>>) returns (passed: bool)
    requires Runs(host.containers, Stable) && Runs(host.containers, Canary) && host.proxy.Up?
    requires Steady(host.Now(), host.trace, from, plan) && StageServers(percentage) in plan && 1 <= percentage <= 100
    modifies host`proxy, host`probes, host`failed, host`trace
    ensures Steady(host.Now(), host.trace, from, plan) && Configured(host.proxy)
    ensures host.proxy.loaded == Some(StageServers(percentage))
    ensures passed == host.verdict(old(host.probes)) && host.probes == old(host.probes) + 1
    ensures old(host.trace) <= host.trace && |host.trace| == |old(host.trace)| + 3
    ensures StageObserved(host.trace, |old(host.trace)|, StageServers(percentage), old(host.probes))
  {
    hide Steady, CalculateCanaryWeights;
    StageSplitsExactly(percentage);
    Route(host, StageServers(percentage), from, plan);
    passed := Check(host, from, plan);
  }

  /** Stage by stage, each loaded and observed before the next; a failed observation sends all traffic back to stable
      and drops the canary. */
  method Promote(host: Host, stages: seq<nat>, ghost stable: Container, ghost canary: Container,
                 ghost from: nat, ghost plan: set<seq<Server>>)
    returns (failing: Option<nat>)
    requires BothRun(host.containers, host.proxy, stable, canary) && Steady(host.Now(), host.trace, from, plan)
    requires Plan(stages) <= plan && ValidStages(stages)
    modifies host`containers, host`proxy, host`probes, host`failed, host`trace
    ensures Steady(host.Now(), host.trace, from, plan) && old(host.trace) <= host.trace
    ensures failing.None? ==>
      && AllPass(host.verdict, old(host.probes), |stages|) && host.probes == old(host.probes) + |stages|
      && LoadedInOrder(host.trace, |old(host.trace)|, stages, old(host.probes), |stages|)
      && host.containers == old(host.containers) && Configured(host.proxy)
      && (stages != [] ==> host.proxy.loaded == Some(StageServers(stages[|stages| - 1])))
    ensures failing.Some? ==>
      && failing.value < |stages| && FirstFailure(host.verdict, old(host.probes), failing.value)
      && LoadedInOrder(host.trace, |old(host.trace)|, stages, old(host.probes), failing.value + 1)
      && host.containers == old(host.containers) - {Canary}
      && host.proxy == Up(Some(TO_STABLE), Some(TO_STABLE))
  {
    hide Steady, StageServers, StageObserved, AllPass, FirstFailure, LoadedInOrder;
    ghost var at, p := |host.trace|, host.probes;
    NothingObserved(host.trace, at, stages, host.verdict, p);
    for i := 0 to |stages|
      invariant host.containers == old(host.containers) && Configured(host.proxy)
      invariant i > 0 ==> host.proxy.loaded == Some(StageServers(stages[i - 1]))
      invariant host.probes == p + i && AllPass(host.verdict, p, i)
      invariant |host.trace| == at + 3 * i && old(host.trace) <= host.trace
      invariant LoadedInOrder(host.trace, at, stages, p, i)
      invariant Steady(host.Now(), host.trace, from, plan)
    {
      assert StageServers(stages[i]) in Plan(stages);
      OneMoreCheck(host.verdict, p, i);
      ghost var trace := host.trace;
      var passed := ObserveStage(host, stages[i], from, plan);
      NextStage(trace, host.trace, at, stages, p, i);
      if !passed {
        trace := host.trace;
        Route(host, TO_STABLE, from, plan);
        DropCanary(host, from, plan);
        LoadedStays(trace, host.trace, at, stages, p, i + 1);
        return Some(i);
      }
    }
    failing := None;
  }

  lemma NothingObserved(trace: seq<Snapshot>, at: nat, stages: seq<nat>, verdict: nat -> bool, p: nat)
    ensures LoadedInOrder(trace, at, stages, p, 0) && AllPass(verdict, p, 0)
  {
  }

  // ---- promoteCanaryToStable ----

  /** Send everything to the canary, then put a new stable container in the place of the old one. */
  method ReplaceStable(host: Host, image: string, labels: map<string, string>, ghost from: nat, ghost plan: set<seq<Server>>)
    requires Runs(host.containers, Canary) && host.proxy.Up? && TO_CANARY in plan
    requires Steady(host.Now(), host.trace, from, plan)
    modifies host`containers, host`proxy, host`trace
    ensures Steady(host.Now(), host.trace, from, plan) && old(host.trace) <= host.trace
    ensures host.containers == old(host.containers)[Stable := Container(image, labels, true)]
    ensures host.proxy == Up(Some(TO_CANARY), Some(TO_CANARY))
  {
    hide Steady;
    Route(host, TO_CANARY, from, plan);
    StopContainer(host, Stable, from, plan);
    RemoveContainer(host, Stable, from, plan);
    StartContainer(host, Stable, image, labels, from, plan);
    assert host.containers == old(host.containers)[Stable := Container(image, labels, true)];
  }

  /** The canary carries the traffic while the stable container is replaced; it keeps it if the new one is unhealthy. */
  method PromoteCanaryToStable(host: Host, image: string, labels: map<string, string>,
                               ghost stable: Container, ghost canary: Container, ghost from: nat, ghost plan: set<seq<Server>>)
    returns (passed: bool)
    requires BothRun(host.containers, host.proxy, stable, canary) && Steady(host.Now(), host.trace, from, plan)
    requires TO_STABLE in plan && TO_CANARY in plan
    modifies host`containers, host`proxy, host`probes, host`failed, host`trace
    ensures Steady(host.Now(), host.trace, from, plan) && old(host.trace) <= host.trace
    ensures passed == host.verdict(old(host.probes)) && host.probes == old(host.probes) + 1
    ensures passed ==>
      && host.containers == (old(host.containers) - {Canary})[Stable := Container(image, labels, true)]
      && host.proxy == Up(Some(TO_STABLE), Some(TO_STABLE))
    ensures !passed ==>
      && host.containers == old(host.containers) - {Stable}
      && host.proxy == Up(Some(TO_CANARY), Some(TO_CANARY))
  {
    hide Steady;
    ReplaceStable(host, image, labels, from, plan);
    passed := Check(host, from, plan);
    if !passed {
      RemoveContainer(host, Stable, from, plan);
      return;
    }
    Route(host, TO_STABLE, from, plan);
    DropCanary(host, from, plan);
  }

  // ---- deploy ----

  /** The stable container a successful update leaves. */
  function NewStable(outgoing: Container, image: string, deployment: string): Container {
    Successor(Some(outgoing), image, BuildLabels("stable", deployment))
  }

  function NewCanary(outgoing: Container, image: string, deployment: string): Container {
    Successor(Some(outgoing), image, BuildLabels("canary", deployment))
  }

  /** The outcome follows from the checks: the canary's first, one per stage, and the new stable's. */
  ghost predicate ByChecks(r: Outcome, verdict: nat -> bool, p: nat, stages: nat) {
    match r
    case Success => AllPass(verdict, p, stages + 2)
    case CanaryUnhealthy => FirstFailure(verdict, p, 0)
    case UnhealthyAtStage(i) => i < stages && FirstFailure(verdict, p, 1 + i)
    case NewStableUnhealthy => FirstFailure(verdict, p, 1 + stages)
    case FirstUnhealthy => false
  }

  /** How many stages are loaded before this outcome. */
  function StagesTried(r: Outcome, stages: seq<nat>): nat {
    match r
    case UnhealthyAtStage(i) => if i < |stages| then i + 1 else |stages|
    case CanaryUnhealthy => 0
    case FirstUnhealthy => 0
    case _ => |stages|
  }

  /** Somewhere since `start` the stages were loaded and observed in order, as far as the outcome says. */
  ghost predicate StagesFollowed(r: Outcome, trace: seq<Snapshot>, start: nat, stages: seq<nat>, probes: nat) {
    exists at: nat :: start <= at && LoadedInOrder(trace, at, stages, probes, StagesTried(r, stages))
  }

  lemma FirstThenRest(verdict: nat -> bool, p: nat, n: nat)
    requires verdict(p)
    ensures AllPass(verdict, p + 1, n) ==> AllPass(verdict, p, 1 + n)
    ensures FirstFailure(verdict, p + 1, n) ==> FirstFailure(verdict, p, 1 + n)
  {
    ChecksInTwo(verdict, p, 1, n);
  }

  lemma AllAndLast(verdict: nat -> bool, p: nat, n: nat)
    requires verdict(p) && AllPass(verdict, p + 1, n)
    ensures verdict(p + 1 + n) ==> AllPass(verdict, p, n + 2)
    ensures !verdict(p + 1 + n) ==> FirstFailure(verdict, p, 1 + n)
  {
    FirstThenRest(verdict, p, n);
    OneMoreCheck(verdict, p, 1 + n);
  }

  /** What an update from the stable container `outgoing` leaves, outcome by outcome. */
  ghost predicate Updated(r: Outcome, outgoing: Container, image: string, deployment: string, c: map<Name, Container>,
                          proxy: Proxy) {
    && proxy.Up?
    && match r
       case Success =>
         && Stable in c && c[Stable] == NewStable(outgoing, image, deployment)
         && Canary !in c && proxy.loaded == Some(TO_STABLE)
       case NewStableUnhealthy =>
         && Stable !in c && Canary in c && c[Canary] == NewCanary(outgoing, image, deployment)
         && proxy.loaded == Some(TO_CANARY)
       case FirstUnhealthy => false
       case _ => Stable in c && c[Stable] == outgoing && Canary !in c && proxy.loaded == Some(TO_STABLE)
  }

  lemma CanaryFailed(verdict: nat -> bool, p: nat, trace: seq<Snapshot>, start: nat, stages: seq<nat>)
    requires !verdict(p)
    ensures ByChecks(CanaryUnhealthy, verdict, p, |stages|)
    ensures StagesFollowed(CanaryUnhealthy, trace, start, stages, p + 1)
  {
    assert LoadedInOrder(trace, start, stages, p + 1, StagesTried(CanaryUnhealthy, stages));
  }

  lemma StageFailed(verdict: nat -> bool, p: nat, trace: seq<Snapshot>, start: nat, at: nat, stages: seq<nat>, i: nat)
    requires verdict(p) && i < |stages| && FirstFailure(verdict, p + 1, i)
    requires start <= at && LoadedInOrder(trace, at, stages, p + 1, i + 1)
    ensures ByChecks(UnhealthyAtStage(i), verdict, p, |stages|)
    ensures StagesFollowed(UnhealthyAtStage(i), trace, start, stages, p + 1)
  {
    FirstThenRest(verdict, p, i);
    assert LoadedInOrder(trace, at, stages, p + 1, StagesTried(UnhealthyAtStage(i), stages));
  }

  lemma AllStagesPassed(verdict: nat -> bool, p: nat, trace: seq<Snapshot>, start: nat, at: nat, stages: seq<nat>,
                        promoted: bool)
    requires verdict(p) && AllPass(verdict, p + 1, |stages|) && promoted == verdict(p + 1 + |stages|)
    requires start <= at && LoadedInOrder(trace, at, stages, p + 1, |stages|)
    ensures var r := if promoted then Success else NewStableUnhealthy;
      ByChecks(r, verdict, p, |stages|) && StagesFollowed(r, trace, start, stages, p + 1)
  {
    AllAndLast(verdict, p, |stages|);
    var r := if promoted then Success else NewStableUnhealthy;
    assert LoadedInOrder(trace, at, stages, p + 1, StagesTried(r, stages));
  }

  /** Replace any stale canary by one of the new image, and wait for it to become healthy. */
  method StartCanary(host: Host, image: string, labels: map<string, string>, ghost from: nat, ghost plan: set<seq<Server>>)
    returns (passed: bool)
    requires host.proxy.Up? && host.proxy.loaded == Some(TO_STABLE) && Steady(host.Now(), host.trace, from, plan)
    modifies host`containers, host`probes, host`failed, host`trace
    ensures Steady(host.Now(), host.trace, from, plan) && old(host.trace) <= host.trace
    ensures passed == host.verdict(old(host.probes)) && host.probes == old(host.probes) + 1
    ensures host.containers ==
      if passed then old(host.containers)[Canary := Container(image, labels, true)] else old(host.containers) - {Canary}
  {
    hide Steady;
    RemoveContainer(host, Canary, from, plan);
    StartContainer(host, Canary, image, labels, from, plan);
    passed := Check(host, from, plan);
    if !passed {
      DropCanary(host, from, plan);
      assert host.containers == old(host.containers) - {Canary};
    } else {
      assert host.containers == old(host.containers)[Canary := Container(image, labels, true)];
    }
  }

  method Update(host: Host, image: string, deployment: string, stages: seq<nat>, ghost from: nat,
                ghost plan: set<seq<Server>>)
    returns (r: Outcome)
    requires host.proxy.Up? && host.proxy.loaded == Some(TO_STABLE) && Runs(host.containers, Stable)
    requires Steady(host.Now(), host.trace, from, plan) && Plan(stages) <= plan && ValidStages(stages)
    modifies host`containers, host`proxy, host`probes, host`failed, host`trace
    ensures Steady(host.Now(), host.trace, from, plan)
    ensures ByChecks(r, host.verdict, old(host.probes), |stages|)
    ensures StagesFollowed(r, host.trace, |old(host.trace)|, stages, old(host.probes) + 1)
    ensures Updated(r, old(host.containers[Stable]), image, deployment, host.containers, host.proxy)
  {
    hide Steady, ResolvePreviousImage, WithPreviousImageLabel, StageServers, BuildLabels, AllPass, FirstFailure,
      StageObserved, LoadedInOrder, ByChecks, StagesFollowed;
    ghost var p, start := host.probes, |host.trace|;
    var previousImage := ResolvePreviousImage(host.Inspect(Stable), image);
    ghost var stable := host.containers[Stable];
    var passed := StartCanary(host, image, WithPreviousImageLabel(BuildLabels("canary", deployment), previousImage), from, plan);
    if !passed {
      CanaryFailed(host.verdict, p, host.trace, start, stages);
      return CanaryUnhealthy;
    }
    StartProxy(host, from, plan);
    ghost var canary, at := host.containers[Canary], |host.trace|;
    var failing := Promote(host, stages, stable, canary, from, plan);
    if failing.Some? {
      StageFailed(host.verdict, p, host.trace, start, at, stages, failing.value);
      return UnhealthyAtStage(failing.value);
    }
    ghost var trace := host.trace;
    var labels := WithPreviousImageLabel(BuildLabels("stable", deployment), previousImage);
    var promoted := PromoteCanaryToStable(host, image, labels, stable, canary, from, plan);
    LoadedStays(trace, host.trace, at, stages, p + 1, |stages|);
    AllStagesPassed(host.verdict, p, host.trace, start, at, stages, promoted);
    r := if promoted then Success else NewStableUnhealthy;
  }

  method Deploy(host: Host, image: string, deployment: string, stages: seq<nat>, ghost from: nat,
                ghost plan: set<seq<Server>>)
    returns (r: Outcome)
    requires Settled(host.containers, host.proxy) && Steady(host.Now(), host.trace, from, plan)
    requires Plan(stages) <= plan && ValidStages(stages)
    modifies host`containers, host`proxy, host`probes, host`failed, host`trace
    ensures Settled(host.containers, host.proxy) && Steady(host.Now(), host.trace, from, plan)
    ensures old(Configured(host.proxy)) ==> Configured(host.proxy)
    ensures r.Success? ==> Runs(host.containers, Stable) && host.containers[Stable].image == image
    ensures old(Runs(host.containers, Stable)) ==>
      && ByChecks(r, host.verdict, old(host.probes), |stages|)
      && StagesFollowed(r, host.trace, |old(host.trace)|, stages, old(host.probes) + 1)
    ensures !old(Runs(host.containers, Stable)) ==>
      r == if host.verdict(old(host.probes)) then Success else FirstUnhealthy
    ensures old(Runs(host.containers, Stable)) ==>
      Updated(r, old(host.containers[Stable]), image, deployment, host.containers, host.proxy)
    ensures !old(Runs(host.containers, Stable)) && !r.Success? ==>
      host.containers == old(host.containers) && host.proxy == old(host.proxy)
  {
    hide Steady, ByChecks, StagesFollowed;
    if !host.IsRunning(Stable) {
      r := FirstDeploy(host, image, deployment, from, plan);
    } else {
      r := Update(host, image, deployment, stages, from, plan);
    }
  }

  // ---- Any sequence of deploys ----

  datatype Request = Request(image: string, deployment: string, stages: seq<nat>)

  function PlanOf(requests: seq<Request>): set<seq<Server>> {
    if requests == [] then {TO_STABLE, TO_CANARY} else PlanOf(requests[..|requests| - 1]) + Plan(requests[|requests| - 1].stages)
  }

  lemma {:induction false} PlanIsPart(requests: seq<Request>, i: nat)
    requires i < |requests|
    ensures Plan(requests[i].stages) <= PlanOf(requests)
  {
    if i < |requests| - 1 {
      PlanIsPart(requests[..|requests| - 1], i);
    }
  }

  lemma {:induction false} PlanHasPlainRoutes(requests: seq<Request>)
    ensures TO_STABLE in PlanOf(requests) && TO_CANARY in PlanOf(requests)
  {
    if requests != [] {
      PlanHasPlainRoutes(requests[..|requests| - 1]);
    }
  }

  /** Whatever is deployed in whatever order and whatever the health checks say: once nginx has been configured,
      every state has at least one upstream and only running ones, and only planned splits are ever loaded. */
  method DeployAll(host: Host, requests: seq<Request>) returns (outcomes: seq<Outcome>)
    requires Settled(host.containers, host.proxy) && forall i :: 0 <= i < |requests| ==> ValidStages(requests[i].stages)
    modifies host`containers, host`proxy, host`probes, host`failed, host`trace
    ensures |outcomes| == |requests| && Settled(host.containers, host.proxy)
    ensures SafeSince(host.trace, |old(host.trace)|)
    ensures OnlyLoads(host.trace, |old(host.trace)|, PlanOf(requests))
    ensures old(Configured(host.proxy)) || (exists i :: 0 <= i < |outcomes| && outcomes[i].Success?) ==> Configured(host.proxy)
  {
    PlanHasPlainRoutes(requests);
    StartSteady(host.Now(), host.trace, PlanOf(requests));
    outcomes := [];
    for i := 0 to |requests|
      invariant |outcomes| == i && Settled(host.containers, host.proxy)
      invariant Steady(host.Now(), host.trace, |old(host.trace)|, PlanOf(requests))
      invariant old(Configured(host.proxy)) || (exists j :: 0 <= j < i && outcomes[j].Success?) ==> Configured(host.proxy)
    {
      PlanIsPart(requests, i);
      var r := Deploy(host, requests[i].image, requests[i].deployment, requests[i].stages, |old(host.trace)|, PlanOf(requests));
      outcomes := outcomes + [r];
    }
  }
}

/** Blue-green deploys, self-healing rollbacks and stops of one project, one operation at a time. */
module BlueGreen {
  import opened Collections
  import opened Docker
  import opened PreviousImage
  import opened SafeSteps
  import opened SelfHealing

  function BuildLabels(color: Name, deployment: string): map<string, string> {
    map["deployx.role" := "app", "deployx.color" := if color == Blue then "blue" else "green", "deployx.deployment" := deployment]
  }

  /** Everything runs in `color`, and nginx points there. */
  ghost predicate RunsIn(c: map<Name, Container>, proxy: Proxy, color: Name) {
    && (color == Blue || color == Green)
    && Runs(c, color) && Opposite(color) !in c
    && proxy.Up? && proxy.loaded == Some(To(color))
  }

  ghost predicate Stopped(c: map<Name, Container>, proxy: Proxy) {
    Blue !in c && Green !in c && !Configured(proxy)
  }

  /** Between operations at most one colour runs, and a configured proxy points at it. */
  ghost predicate Settled(c: map<Name, Container>, proxy: Proxy) {
    Stopped(c, proxy) || RunsIn(c, proxy, Blue) || RunsIn(c, proxy, Green)
  }

  lemma SettledIsSteady(s: Snapshot, trace: seq<Snapshot>)
    requires Settled(s.containers, s.proxy)
    ensures Steady(s, trace, |trace|, ColorRoutes())
  {
  }

  function CurrentColor(c: map<Name, Container>): Option<Name> {
    if Runs(c, Blue) then Some(Blue)
    else if Runs(c, Green) then Some(Green)
    else None
  }

  /** What a self-healing rollback would go back to. */
  function Target(c: map<Name, Container>): Option<string> {
    if CurrentColor(c).None? then None else ReadPreviousImage(Some(c[CurrentColor(c).value]))
  }

  function Outgoing(c: map<Name, Container>): Option<Container> {
    if CurrentColor(c).None? then None else Some(c[CurrentColor(c).value])
  }

  /** Start a container in a free slot; an unhealthy one is stopped and removed again. */
  method TryContainer(host: Host, name: Name, image: string, labels: map<string, string>, ghost from: nat)
    returns (passed: bool)
    requires name !in host.containers && NotLoaded(host.proxy, name) && Steady(host.Now(), host.trace, from, ColorRoutes())
    modifies host`containers, host`probes, host`failed, host`trace
    ensures Steady(host.Now(), host.trace, from, ColorRoutes())
    ensures passed == host.verdict(old(host.probes)) && host.probes == old(host.probes) + 1
    ensures host.containers == if passed then old(host.containers)[name := Container(image, labels, true)] else old(host.containers)
  {
    hide Steady;
    RemoveContainer(host, name, from, ColorRoutes());
    StartContainer(host, name, image, labels, from, ColorRoutes());
    passed := Check(host, from, ColorRoutes());
    if !passed {
      StopContainer(host, name, from, ColorRoutes());
      RemoveContainer(host, name, from, ColorRoutes());
    }
    assert host.containers - {name} == old(host.containers);
  }

  /** Point the proxy at the new colour, then stop and remove the old one. */
  method CutOver(host: Host, newColor: Name, currentColor: Option<Name>, ghost from: nat)
    requires (newColor == Blue || newColor == Green) && Runs(host.containers, newColor) && currentColor != Some(newColor)
    requires Steady(host.Now(), host.trace, from, ColorRoutes())
    modifies host`containers, host`proxy, host`trace
    ensures Steady(host.Now(), host.trace, from, ColorRoutes())
    ensures host.proxy == Up(Some(To(newColor)), Some(To(newColor)))
    ensures host.containers ==
      if currentColor.Some? && Runs(old(host.containers), currentColor.value)
      then old(host.containers) - {currentColor.value} else old(host.containers)
  {
    hide Steady;
    StartProxy(host, from, ColorRoutes());
    Route(host, To(newColor), from, ColorRoutes());
    if currentColor.Some? && host.IsRunning(currentColor.value) {
      StopContainer(host, currentColor.value, from, ColorRoutes());
      RemoveContainer(host, currentColor.value, from, ColorRoutes());
    }
  }

  /** The colour that does not run can be taken: it has no container, and nginx does not point at it. */
  lemma OtherColorIsFree(c: map<Name, Container>, proxy: Proxy)
    requires Settled(c, proxy)
    ensures var color := if CurrentColor(c) == Some(Blue) then Green else Blue;
      color !in c && NotLoaded(proxy, color)
    ensures CurrentColor(c).Some? ==> Opposite(CurrentColor(c).value) !in c
    ensures CurrentColor(c).None? ==> Blue !in c && Green !in c
  {
  }

  /** Start the other colour, switch to it when healthy, then remove the old one. A failed deploy changes nothing. */
  method Deploy(host: Host, image: string, deployment: string, ghost from: nat) returns (success: bool)
    requires Settled(host.containers, host.proxy) && Steady(host.Now(), host.trace, from, ColorRoutes())
    modifies host`containers, host`proxy, host`probes, host`failed, host`trace
    ensures Settled(host.containers, host.proxy) && Steady(host.Now(), host.trace, from, ColorRoutes())
    ensures success <==> host.verdict(old(host.probes))
    ensures !success ==> host.containers == old(host.containers) && host.proxy == old(host.proxy)
    ensures success ==>
      var was := CurrentColor(old(host.containers));
      var color := if was == Some(Blue) then Green else Blue;
      && RunsIn(host.containers, host.proxy, color)
      && host.containers[color] == Successor(Outgoing(old(host.containers)), image, BuildLabels(color, deployment))
  {
    hide Steady, BuildLabels, WithPreviousImageLabel, ReadPreviousImage, Serves, NotLoaded, ColorRoutes;
    var currentColor := CurrentColor(host.containers);
    var newColor := if currentColor == Some(Blue) then Green else Blue;
    OtherColorIsFree(host.containers, host.proxy);
    var previousImage :=
      if currentColor.Some? then ResolvePreviousImage(host.Inspect(currentColor.value), image) else None;
    var labels := WithPreviousImageLabel(BuildLabels(newColor, deployment), previousImage);
    success := TryContainer(host, newColor, image, labels, from);
    if success {
      CutOver(host, newColor, currentColor, from);
    }
  }

  /** What the health monitor does with the container it finds once its restarts are used up. */
  method Heal(host: Host, deployment: string, ghost from: nat) returns (r: Rollback)
    requires Settled(host.containers, host.proxy) && Steady(host.Now(), host.trace, from, ColorRoutes())
    modifies host`containers, host`proxy, host`probes, host`failed, host`trace
    ensures Settled(host.containers, host.proxy) && Steady(host.Now(), host.trace, from, ColorRoutes())
    ensures if CurrentColor(old(host.containers)).None? then r == NothingToHeal
      else Decided(r, Target(old(host.containers)), host.verdict(old(host.probes)))
    ensures !r.RolledBackTo? ==> host.containers == old(host.containers) && host.proxy == old(host.proxy)
    ensures r.RolledBackTo? ==>
      && Target(old(host.containers)) == Some(r.image) && Target(host.containers) == None
      && CurrentColor(host.containers).Some? && host.containers[CurrentColor(host.containers).value].image == r.image
  {
    hide Steady;
    if host.IsRunning(Blue) {
      r := AttemptRollback(host, Blue, deployment, from);
    } else if host.IsRunning(Green) {
      r := AttemptRollback(host, Green, deployment, from);
    } else {
      r := NothingToHeal;
    }
  }

  /** Both colours go, then the proxy. */
  method Stop(host: Host)
    requires Settled(host.containers, host.proxy)
    modifies host`containers, host`proxy, host`trace
    ensures Stopped(host.containers, host.proxy) && Settled(host.containers, host.proxy) && host.proxy.Absent?
    ensures host.containers == old(host.containers) - {Blue, Green}
  {
    host.RemoveIfExists(Blue);
    host.RemoveIfExists(Green);
    assert host.containers == old(host.containers) - {Blue, Green};
    host.RemoveProxy();
  }

  // ---- Any sequence of operations ----

  datatype Operation = DeployImage(image: string, deployment: string) | SelfHeal(deployment: string) | StopAll

  /** `done`: the deploy or the rollback succeeded. */
  datatype Step = Step(operation: Operation, done: bool)

  ghost predicate HealedAt(steps: seq<Step>, i: int) {
    0 <= i < |steps| && steps[i].operation.SelfHeal? && steps[i].done
  }

  ghost predicate DeployedBetween(steps: seq<Step>, i: int, j: int) {
    exists k :: i < k < j && 0 <= k < |steps| && steps[k].operation.DeployImage? && steps[k].done
  }

  /** Since its last successful rollback nothing has been deployed, so there is no target. */
  ghost predicate NoTargetSinceRollback(steps: seq<Step>, c: map<Name, Container>) {
    forall i :: HealedAt(steps, i) && !DeployedBetween(steps, i, |steps|) ==> Target(c).None?
  }

  /** Between two successful rollbacks there is a successful deploy. */
  ghost predicate DeployBetweenRollbacks(steps: seq<Step>) {
    forall i, j :: i < j && HealedAt(steps, i) && HealedAt(steps, j) ==> DeployedBetween(steps, i, j)
  }

  lemma OneStepMore(steps: seq<Step>, step: Step, c: map<Name, Container>, c': map<Name, Container>)
    requires NoTargetSinceRollback(steps, c) && DeployBetweenRollbacks(steps)
    requires step.operation.SelfHeal? && step.done ==> Target(c).Some? && Target(c').None?
    requires !(step.operation.DeployImage? && step.done) ==> c' == c || Target(c').None?
    ensures NoTargetSinceRollback(steps + [step], c') && DeployBetweenRollbacks(steps + [step])
  {
    hide Target, DeployedBetween;
    var longer := steps + [step];
    assert forall k :: 0 <= k < |steps| ==> longer[k] == steps[k];
    forall i | HealedAt(longer, i) && !DeployedBetween(longer, i, |longer|) ensures Target(c').None? {
      if i < |steps| {
        assert HealedAt(steps, i);
        DeployStaysBetween(steps, step, i, |steps|);
      }
    }
    forall i, j | i < j && HealedAt(longer, i) && HealedAt(longer, j) ensures DeployedBetween(longer, i, j) {
      assert HealedAt(steps, i);
      DeployStaysBetween(steps, step, i, j);
      if j < |steps| {
        assert HealedAt(steps, j);
      }
    }
  }

  lemma DeployStaysBetween(steps: seq<Step>, step: Step, i: int, j: int)
    requires i < j <= |steps|
    ensures DeployedBetween(steps, i, j) ==> DeployedBetween(steps + [step], i, j) && DeployedBetween(steps + [step], i, |steps| + 1)
    ensures 0 <= i && step.operation.DeployImage? && step.done ==> DeployedBetween(steps + [step], i, |steps| + 1)
  {
    var longer := steps + [step];
    assert longer[|steps|] == step;
    if DeployedBetween(steps, i, j) {
      var k :| i < k < j && 0 <= k < |steps| && steps[k].operation.DeployImage? && steps[k].done;
      assert longer[k] == steps[k];
    }
  }

  /** Whatever the health checks say: at most one colour is left running by each operation, nginx points at it, and
      after a successful rollback no further one succeeds before a new deploy has. */
  method RunOperations(host: Host, operations: seq<Operation>) returns (steps: seq<Step>)
    requires Settled(host.containers, host.proxy)
    modifies host`containers, host`proxy, host`probes, host`failed, host`trace
    ensures |steps| == |operations| && forall i :: 0 <= i < |steps| ==> steps[i].operation == operations[i]
    ensures Settled(host.containers, host.proxy) && DeployBetweenRollbacks(steps)
  {
    steps := [];
    for n := 0 to |operations|
      invariant |steps| == n && forall i :: 0 <= i < n ==> steps[i].operation == operations[i]
      invariant Settled(host.containers, host.proxy)
      invariant DeployBetweenRollbacks(steps) && NoTargetSinceRollback(steps, host.containers)
    {
      ghost var c := host.containers;
      var done := RunOperation(host, operations[n]);
      OneStepMore(steps, Step(operations[n], done), c, host.containers);
      steps := steps + [Step(operations[n], done)];
    }
  }

  method RunOperation(host: Host, operation: Operation) returns (done: bool)
    requires Settled(host.containers, host.proxy)
    modifies host`containers, host`proxy, host`probes, host`failed, host`trace
    ensures Settled(host.containers, host.proxy)
    ensures done <==>
      match operation
      case DeployImage(_, _) => host.verdict(old(host.probes))
      case SelfHeal(_) => Target(old(host.containers)).Some? && host.verdict(old(host.probes))
      case StopAll => true
    ensures operation.StopAll? ==> Stopped(host.containers, host.proxy) && host.proxy.Absent?
    ensures operation.DeployImage? && done ==>
      Outgoing(host.containers).Some? && Outgoing(host.containers).value.image == operation.image
    ensures operation.SelfHeal? && done ==>
      Outgoing(host.containers).Some? && Some(Outgoing(host.containers).value.image) == Target(old(host.containers))
    ensures !done ==> host.containers == old(host.containers) && host.proxy == old(host.proxy)
    ensures operation.SelfHeal? && done ==> Target(old(host.containers)).Some? && Target(host.containers).None?
    ensures !(operation.DeployImage? && done) ==> host.containers == old(host.containers) || Target(host.containers).None?
    ensures !operation.StopAll? ==> SafeSince(host.trace, |old(host.trace)|)
  {
    hide Settled;
    ghost var from := |host.trace|;
    SettledIsSteady(host.Now(), host.trace);
    match operation {
      case DeployImage(image, deployment) =>
        done := Deploy(host, image, deployment, from);
      case SelfHeal(deployment) =>
        var r := Heal(host, deployment, from);
        done := r.RolledBackTo?;
      case StopAll =>
        Stop(host);
        done := true;
    }
  }
}

/** Rollback of an unhealthy container to the image its label remembers. */
module SelfHealing {
  import opened Collections
  import opened Docker
  import opened PreviousImage
  import opened SafeSteps

  datatype Rollback = NothingToHeal | NoPreviousImage | StillUnhealthy | RolledBackTo(image: string)

  /** A rollback needs a target, and succeeds exactly when the restored container is found healthy. */
  ghost predicate Decided(r: Rollback, target: Option<string>, healthy: bool) {
    match target
    case None => r == NoPreviousImage
    case Some(image) => r == if healthy then RolledBackTo(image) else StillUnhealthy
  }

  /** The labels of a rollback container: no previous image among them. */
  function RollbackLabels(color: Name, deployment: string): map<string, string> {
    map["deployx.role" := "app", "deployx.color" := if color == Blue then "blue" else "green", "deployx.deployment" := deployment]
  }

  function Opposite(color: Name): Name {
    if color == Blue then Green else Blue
  }

  function To(name: Name): seq<Server> {
    [Server(name, 1)]
  }

  /** All configs that send everything to one colour. */
  function ColorRoutes(): set<seq<Server>> {
    {To(Blue), To(Green)}
  }

  lemma RoutesToColors()
    ensures To(Blue) in ColorRoutes() && To(Green) in ColorRoutes()
  {
  }

  /** Blue-green: start the previous image in the other slot, switch over, remove the broken container. */
  method AttemptRollback(host: Host, broken: Name, deployment: string, ghost from: nat) returns (r: Rollback)
    requires (broken == Blue || broken == Green) && Runs(host.containers, broken) && Opposite(broken) !in host.containers
    requires host.proxy.Up? && host.proxy.loaded == Some(To(broken))
    requires Steady(host.Now(), host.trace, from, ColorRoutes())
    modifies host`containers, host`proxy, host`probes, host`failed, host`trace
    ensures Steady(host.Now(), host.trace, from, ColorRoutes())
    ensures var target := ReadPreviousImage(Some(old(host.containers[broken])));
      && Decided(r, target, host.verdict(old(host.probes)))
      && (r.RolledBackTo? ==>
          && host.containers == (old(host.containers) - {broken})
               [Opposite(broken) := Container(target.value, RollbackLabels(Opposite(broken), deployment), true)]
          && host.proxy == Up(Some(To(Opposite(broken))), Some(To(Opposite(broken)))))
      && (!r.RolledBackTo? ==> host.containers == old(host.containers) && host.proxy == old(host.proxy))
  {
    hide Steady, Serves, ReadPreviousImage, RollbackLabels, ColorRoutes;
    RoutesToColors();
    var previousImageTag := ReadPreviousImage(host.Inspect(broken));
    if previousImageTag.None? {
      return NoPreviousImage;
    }
    var slot := Opposite(broken);
    RemoveContainer(host, slot, from, ColorRoutes());
    StartContainer(host, slot, previousImageTag.value, RollbackLabels(slot, deployment), from, ColorRoutes());
    var passed := Check(host, from, ColorRoutes());
    if !passed {
      RemoveContainer(host, slot, from, ColorRoutes());
      assert host.containers == old(host.containers);
      return StillUnhealthy;
    }
    Route(host, To(slot), from, ColorRoutes());
    StopContainer(host, broken, from, ColorRoutes());
    RemoveContainer(host, broken, from, ColorRoutes());
    r := RolledBackTo(previousImageTag.value);
  }

  /** Rolling and canary: recreate the container under its own name, with its labels but for the previous image. The
      trace gets its stop, removal, start and check, and a reload only after a passed check. */
  method AttemptInPlaceRollback(host: Host, broken: Name) returns (r: Rollback)
    requires broken in host.containers
    requires host.proxy.Up? && host.proxy.written == host.proxy.loaded && Serves(host.containers, host.proxy)
    requires forall i :: 0 <= i < |host.proxy.loaded.value| ==> host.proxy.loaded.value[i].weight > 0
    modifies host`containers, host`proxy, host`probes, host`failed, host`trace
    ensures host.proxy == old(host.proxy) && Serves(host.containers, host.proxy)
    ensures |host.trace| == |old(host.trace)| + match r case RolledBackTo(_) => 5 case StillUnhealthy => 4 case _ => 0
    ensures var was := old(host.containers[broken]);
      var target := ReadPreviousImage(Some(was));
      && Decided(r, target, host.verdict(old(host.probes)))
      && host.containers == (if target.None? then old(host.containers)
                             else old(host.containers)[broken := Container(target.value, was.labels - {PREVIOUS_IMAGE_LABEL}, true)])
  {
    var existing := host.containers[broken];
    var previousImageTag := ReadPreviousImage(Some(existing));
    if previousImageTag.None? {
      return NoPreviousImage;
    }
    host.RemoveIfExists(broken);
    host.Run(broken, previousImageTag.value, existing.labels - {PREVIOUS_IMAGE_LABEL});
    assert host.containers == old(host.containers)[broken := Container(previousImageTag.value, existing.labels - {PREVIOUS_IMAGE_LABEL}, true)];
    var passed := host.CheckHealth();
    forall i | 0 <= i < |host.proxy.loaded.value| ensures Runs(host.containers, host.proxy.loaded.value[i].name) {
      assert Runs(old(host.containers), host.proxy.loaded.value[i].name);
    }
    if !passed {
      return StillUnhealthy;
    }
    host.Reload();
    r := RolledBackTo(previousImageTag.value);
  }

  /** A container put in place by either kind of rollback has no rollback target of its own, healthy or not. */
  lemma RollbackForgets(color: Name, deployment: string, image: string, labels: map<string, string>)
    ensures ReadPreviousImage(Some(Container(image, RollbackLabels(color, deployment), true))).None?
    ensures ReadPreviousImage(Some(Container(image, labels - {PREVIOUS_IMAGE_LABEL}, true))).None?
  {
  }
}

/** Host commands that keep a configured proxy serving, for the deployers that switch traffic between containers. */
module SafeSteps {
  import opened Collections
  import opened Docker

  ghost predicate Configured(proxy: Proxy) {
    proxy.Up? && proxy.loaded.Some?
  }

  /** Once nginx has been configured, it has an upstream and all its upstreams run. */
  ghost predicate Safe(s: Snapshot) {
    Configured(s.proxy) ==> Serves(s.containers, s.proxy)
  }

  ghost predicate SafeSince(trace: seq<Snapshot>, from: nat) {
    forall k :: from <= k < |trace| ==> Safe(trace[k])
  }

  /** Every config loaded since `from` satisfies what the caller planned. */
  ghost predicate OnlyLoads(trace: seq<Snapshot>, from: nat, plan: set<seq<Server>>) {
    forall k :: from <= k < |trace| && Configured(trace[k].proxy) ==> trace[k].proxy.loaded.value in plan
  }

  /** All states since `from` are safe, this one included, and nothing unplanned has been loaded. */
  ghost predicate Steady(s: Snapshot, trace: seq<Snapshot>, from: nat, plan: set<seq<Server>>) {
    && from <= |trace| && SafeSince(trace, from) && OnlyLoads(trace, from, plan)
    && Safe(s) && (Configured(s.proxy) ==> s.proxy.loaded.value in plan)
  }

  ghost predicate NotLoaded(proxy: Proxy, name: Name) {
    Configured(proxy) ==> forall i :: 0 <= i < |proxy.loaded.value| ==> proxy.loaded.value[i].name != name
  }

  lemma SteadySnoc(s: Snapshot, s': Snapshot, trace: seq<Snapshot>, from: nat, plan: set<seq<Server>>)
    requires Steady(s, trace, from, plan)
    requires Safe(s') && (Configured(s'.proxy) ==> s'.proxy.loaded.value in plan)
    ensures Steady(s', trace + [s'], from, plan)
  {
    assert forall k :: 0 <= k < |trace| ==> (trace + [s'])[k] == trace[k];
  }

  /** What happens to a container nginx does not point at does not matter. */
  lemma OtherContainer(s: Snapshot, s': Snapshot, name: Name)
    requires Safe(s) && s'.proxy == s.proxy && NotLoaded(s.proxy, name)
    requires forall x :: x != name ==> (x in s.containers <==> x in s'.containers)
    requires forall x :: x != name && x in s.containers ==> s.containers[x] == s'.containers[x]
    ensures Safe(s')
  {
    if Configured(s.proxy) {
      forall i | 0 <= i < |s.proxy.loaded.value| ensures Runs(s'.containers, s.proxy.loaded.value[i].name) {
        assert Runs(s.containers, s.proxy.loaded.value[i].name);
      }
    }
  }

  method StopContainer(host: Host, name: Name, ghost from: nat, ghost plan: set<seq<Server>>)
    requires Steady(host.Now(), host.trace, from, plan) && NotLoaded(host.proxy, name)
    modifies host`containers, host`trace
    ensures old(host.trace) <= host.trace
    ensures Steady(host.Now(), host.trace, from, plan)
    ensures host.containers ==
      if name in old(host.containers) then old(host.containers)[name := old(host.containers)[name].(running := false)]
      else old(host.containers)
  {
    ghost var s, trace := host.Now(), host.trace;
    host.Stop(name);
    OtherContainer(s, host.Now(), name);
    SteadySnoc(s, host.Now(), trace, from, plan);
  }

  method RemoveContainer(host: Host, name: Name, ghost from: nat, ghost plan: set<seq<Server>>)
    requires Steady(host.Now(), host.trace, from, plan) && NotLoaded(host.proxy, name)
    modifies host`containers, host`trace
    ensures old(host.trace) <= host.trace
    ensures Steady(host.Now(), host.trace, from, plan)
    ensures host.containers == old(host.containers) - {name}
  {
    hide SafeSince, OnlyLoads, Safe;
    ghost var s, trace := host.Now(), host.trace;
    host.RemoveIfExists(name);
    if name in s.containers {
      ghost var stopped := Snapshot(s.containers[name := s.containers[name].(running := false)], s.proxy, s.failed, s.probes);
      OtherContainer(s, stopped, name);
      OtherContainer(stopped, host.Now(), name);
      SteadySnoc(s, stopped, trace, from, plan);
      SteadySnoc(stopped, host.Now(), trace + [stopped], from, plan);
      assert host.trace == trace + [stopped] + [host.Now()];
    } else {
      assert host.containers == s.containers;
    }
  }

  method StartContainer(host: Host, name: Name, image: string, labels: map<string, string>,
                        ghost from: nat, ghost plan: set<seq<Server>>)
    requires Steady(host.Now(), host.trace, from, plan) && name !in host.containers
    modifies host`containers, host`trace
    ensures old(host.trace) <= host.trace
    ensures Steady(host.Now(), host.trace, from, plan)
    ensures host.containers == old(host.containers)[name := Container(image, labels, true)]
  {
    ghost var s, trace := host.Now(), host.trace;
    host.Run(name, image, labels);
    assert NotLoaded(s.proxy, name) by {
      if Configured(s.proxy) {
        forall i | 0 <= i < |s.proxy.loaded.value| ensures s.proxy.loaded.value[i].name != name {
          assert Runs(s.containers, s.proxy.loaded.value[i].name);
        }
      }
    }
    OtherContainer(s, host.Now(), name);
    SteadySnoc(s, host.Now(), trace, from, plan);
  }

  method Check(host: Host, ghost from: nat, ghost plan: set<seq<Server>>) returns (passed: bool)
    requires Steady(host.Now(), host.trace, from, plan)
    modifies host`probes, host`failed, host`trace
    ensures Steady(host.Now(), host.trace, from, plan)
    ensures passed == host.verdict(old(host.probes)) && host.probes == old(host.probes) + 1
    ensures host.trace == old(host.trace) + [host.Now()]
  {
    ghost var s, trace := host.Now(), host.trace;
    passed := host.CheckHealth();
    SteadySnoc(s, host.Now(), trace, from, plan);
  }

  method StartProxy(host: Host, ghost from: nat, ghost plan: set<seq<Server>>)
    requires Steady(host.Now(), host.trace, from, plan)
    modifies host`proxy, host`trace
    ensures old(host.trace) <= host.trace
    ensures Steady(host.Now(), host.trace, from, plan)
    ensures host.proxy == if old(host.proxy).Up? then old(host.proxy) else Up(None, None)
  {
    ghost var s, trace := host.Now(), host.trace;
    host.EnsureProxy();
    if s.proxy.Absent? {
      SteadySnoc(s, host.Now(), trace, from, plan);
    }
  }

  /** Write the config and reload: traffic moves to running containers only. */
  method Route(host: Host, servers: seq<Server>, ghost from: nat, ghost plan: set<seq<Server>>)
    requires Steady(host.Now(), host.trace, from, plan) && host.proxy.Up? && servers != [] && servers in plan
    requires forall i :: 0 <= i < |servers| ==> Runs(host.containers, servers[i].name) && servers[i].weight > 0
    modifies host`proxy, host`trace
    ensures Steady(host.Now(), host.trace, from, plan)
    ensures host.proxy == Up(Some(servers), Some(servers))
    ensures host.trace == old(host.trace)
      + [Snapshot(host.containers, old(host.proxy).(written := Some(servers)), host.failed, host.probes)] + [host.Now()]
  {
    ghost var s, trace := host.Now(), host.trace;
    host.WriteConfig(servers);
    ghost var written, longer := host.Now(), host.trace;
    SteadySnoc(s, written, trace, from, plan);
    host.Reload();
    SteadySnoc(written, host.Now(), longer, from, plan);
  }
}

/** Rolling updates: batches drained from nginx, replaced, health-checked, and rolled back on the first failure. */
module Rolling {
  import opened Arithmetic
  import opened Collections
  import opened Docker
  import opened PreviousImage

  const ROLLING_MAX_INSTANCES := 10

  datatype Plan = Plan(
    image: string,
    deployment: string,
    instanceCount: nat,
    previousImage: Option<string>,
    outgoingPreviousImageLabel: Option<string>)

  function BuildLabels(deployment: string): map<string, string> {
    map["deployx.role" := "app", "deployx.strategy" := "rolling", "deployx.deployment" := deployment]
  }

  function NewContainer(plan: Plan): Container {
    Container(plan.image, WithPreviousImageLabel(BuildLabels(plan.deployment), plan.previousImage), true)
  }

  /** What a rolled-back ordinal runs: the outgoing image with the outgoing label, if one is known. */
  function RestoredContainer(plan: Plan): Container {
    if plan.previousImage.None? then NewContainer(plan)
    else Container(plan.previousImage.value,
                   WithPreviousImageLabel(BuildLabels(plan.deployment), plan.outgoingPreviousImageLabel), true)
  }

  // ---- Fleets ----

  type Containers = map<Name, Container>

  /** Ordinals 0..n-1 run one image and there are no others. */
  ghost predicate Fleet(c: Containers, n: nat, image: string) {
    && (forall i: nat :: i < n ==> Runs(c, Instance(i)) && c[Instance(i)].image == image)
    && (forall i: nat :: i >= n ==> Instance(i) !in c)
  }

  /** Midway: ordinals below `done` are `renewed`, those up to `end` are missing, the rest are as in `before`. */
  ghost predicate Midway(c: Containers, before: Containers, n: nat, renewed: Container, done: nat, end: nat) {
    && done <= end <= n
    && (forall i: nat :: i < done ==> Instance(i) in c && c[Instance(i)] == renewed)
    && (forall i: nat :: done <= i < end ==> Instance(i) !in c)
    && (forall i: nat :: end <= i < n ==> Instance(i) in c && Instance(i) in before && c[Instance(i)] == before[Instance(i)])
    && (forall i: nat :: i >= n ==> Instance(i) !in c)
  }

  ghost predicate AllRun(c: Containers, n: nat) {
    forall i: nat :: i < n ==> Runs(c, Instance(i))
  }

  /** The proxy has at least `least` different upstreams loaded, all of them running. */
  ghost predicate Serving(c: Containers, proxy: Proxy, least: int) {
    && Serves(c, proxy) && Distinct(proxy.loaded.value) && |proxy.loaded.value| >= least
  }

  /** No loaded upstream is an ordinal of the batch. */
  ghost predicate Avoids(proxy: Proxy, b: nat, e: nat) {
    && proxy.Up? && proxy.loaded.Some?
    && forall i :: 0 <= i < |proxy.loaded.value| ==>
         !(proxy.loaded.value[i].name.Instance? && b <= proxy.loaded.value[i].name.ordinal < e)
  }

  /** Serving, and not through the batch: what is promised when some instances stay up (`least > 0`). */
  ghost predicate ServingWithout(c: Containers, proxy: Proxy, b: nat, e: nat, least: int) {
    proxy.Up? && (least > 0 ==> Serving(c, proxy, least) && Avoids(proxy, b, e))
  }

  /** Every state since `from` serves, until a health check has failed. */
  ghost predicate ServedSince(trace: seq<Snapshot>, from: nat, least: int) {
    least > 0 ==>
      forall k :: from <= k < |trace| && !trace[k].failed ==> Serving(trace[k].containers, trace[k].proxy, least)
  }

  lemma ServedSnoc(trace: seq<Snapshot>, s: Snapshot, from: nat, least: int)
    requires ServedSince(trace, from, least)
    requires s.failed || (least > 0 ==> Serving(s.containers, s.proxy, least))
    ensures ServedSince(trace + [s], from, least)
  {
    hide Serving;
    assert forall k :: 0 <= k < |trace| ==> (trace + [s])[k] == trace[k];
  }

  /** The two maps differ at most at one name. */
  ghost predicate SameBut(c: Containers, d: Containers, name: Name) {
    forall x :: x != name ==> (x in c <==> x in d) && (x in c ==> c[x] == d[x])
  }

  lemma ServingSurvives(c: Containers, d: Containers, proxy: Proxy, b: nat, e: nat, ordinal: nat, least: int)
    requires ServingWithout(c, proxy, b, e, least) && b <= ordinal < e
    requires SameBut(c, d, Instance(ordinal))
    ensures ServingWithout(d, proxy, b, e, least)
  {
    if least > 0 {
      forall i | 0 <= i < |proxy.loaded.value| ensures Runs(d, proxy.loaded.value[i].name) {
        assert Runs(c, proxy.loaded.value[i].name);
        assert proxy.loaded.value[i].name != Instance(ordinal);
      }
    }
  }

  // ---- The names nginx is pointed at ----

  /** The running ordinals below `k` that are not excluded, in order. */
  function RunningNames(c: Containers, k: nat, exclude: seq<nat>): seq<Name> {
    if k == 0 then []
    else
      var below := RunningNames(c, k - 1, exclude);
      if k - 1 in exclude || !Runs(c, Instance(k - 1)) then below else below + [Instance(k - 1)]
  }

  function Batch(b: nat, e: nat): seq<nat>
    requires b <= e
  {
    seq(e - b, j requires 0 <= j => b + j)
  }

  lemma InBatch(b: nat, e: nat, i: nat)
    requires b <= e
    ensures i in Batch(b, e) <==> b <= i < e
  {
    if b <= i < e {
      assert Batch(b, e)[i - b] == i;
    }
  }

  lemma {:induction false} RunningNamesRun(c: Containers, k: nat, exclude: seq<nat>)
    ensures forall i :: 0 <= i < |RunningNames(c, k, exclude)| ==>
      var x := RunningNames(c, k, exclude)[i]; x.Instance? && x.ordinal < k && x.ordinal !in exclude && Runs(c, x)
    ensures Distinct(RunningNames(c, k, exclude))
  {
    if k > 0 {
      RunningNamesRun(c, k - 1, exclude);
    }
  }

  lemma {:induction false} RunningIsAmongNames(c: Containers, k: nat, exclude: seq<nat>, i: nat)
    requires i < k && i !in exclude && Runs(c, Instance(i))
    ensures Instance(i) in RunningNames(c, k, exclude)
  {
    var below, names := RunningNames(c, k - 1, exclude), RunningNames(c, k, exclude);
    if i < k - 1 {
      RunningIsAmongNames(c, k - 1, exclude, i);
      assert below <= names;
    } else {
      assert names == below + [Instance(i)];
    }
  }

  lemma ServerIsListed(names: seq<Name>, x: Name)
    requires x in names
    ensures Server(x, 1) in Servers(names)
  {
    var j :| 0 <= j < |names| && names[j] == x;
    assert Servers(names)[j] == Server(x, 1);
  }

  /** Ordinals below `k` outside the batch. */
  function Outside(k: nat, b: nat, e: nat): nat
    requires b <= e
  {
    if k <= b then k else if k <= e then b else k - (e - b)
  }

  lemma {:induction false} CountOutside(c: Containers, n: nat, k: nat, b: nat, e: nat)
    requires b <= e && k <= n && forall i: nat :: i < n && !(b <= i < e) ==> Runs(c, Instance(i))
    ensures |RunningNames(c, k, Batch(b, e))| == Outside(k, b, e)
  {
    if k > 0 {
      CountOutside(c, n, k - 1, b, e);
      InBatch(b, e, k - 1);
    }
  }

  lemma {:induction false} NamesAbove(c: Containers, n: nat, k: nat, exclude: seq<nat>)
    requires n <= k && forall i: nat :: i >= n ==> Instance(i) !in c
    ensures RunningNames(c, k, exclude) == RunningNames(c, n, exclude)
  {
    if k > n {
      NamesAbove(c, n, k - 1, exclude);
    }
  }

  function AllNames(n: nat): seq<Name> {
    seq(n, i requires 0 <= i => Instance(i))
  }

  lemma {:induction false} AllRunningNames(c: Containers, n: nat)
    requires AllRun(c, n)
    ensures RunningNames(c, n, []) == AllNames(n)
  {
    if n > 0 {
      AllRunningNames(c, n - 1);
      assert AllNames(n) == AllNames(n - 1) + [Instance(n - 1)];
    }
  }

  lemma DistinctServers(names: seq<Name>)
    requires Distinct(names)
    ensures Distinct(Servers(names))
  {
  }

  // ---- updateNginxForRunningInstances ----

  function Scanned(n: nat): nat {
    if n < ROLLING_MAX_INSTANCES then ROLLING_MAX_INSTANCES else n
  }

  /** The new proxy and the states on the way: the file is written, then loaded, or nothing happens. */
  ghost predicate Repointed(c: Containers, n: nat, exclude: seq<nat>, failed: bool, probes: nat, proxy: Proxy, proxy': Proxy,
                            trace: seq<Snapshot>, trace': seq<Snapshot>)
    requires proxy.Up?
  {
    var names := RunningNames(c, Scanned(n), exclude);
    if names == [] then proxy' == proxy && trace' == trace
    else
      && proxy' == Up(Some(Servers(names)), Some(Servers(names)))
      && trace' == trace + [Snapshot(c, Up(Some(Servers(names)), proxy.loaded), failed, probes)]
        + [Snapshot(c, proxy', failed, probes)]
  }

  /** Point nginx at every running instance outside `exclude`; leave it alone when that would be none. */
  method UpdateNginx(host: Host, n: nat, exclude: seq<nat>)
    requires host.proxy.Up?
    modifies host`proxy, host`trace
    ensures Repointed(host.containers, n, exclude, host.failed, host.probes, old(host.proxy), host.proxy, old(host.trace), host.trace)
    ensures forall i: nat :: (i < n || i < 10) && i !in exclude && Runs(host.containers, Instance(i)) ==>
      host.proxy.loaded.Some? && Server(Instance(i), 1) in host.proxy.loaded.value
  {
    var names := [];
    for i := 0 to Scanned(n)
      invariant names == RunningNames(host.containers, i, exclude)
    {
      if i !in exclude && host.IsRunning(Instance(i)) {
        names := names + [Instance(i)];
      }
    }
    forall i: nat | (i < n || i < 10) && i !in exclude && Runs(host.containers, Instance(i))
      ensures Instance(i) in names && Server(Instance(i), 1) in Servers(names)
    {
      RunningIsAmongNames(host.containers, Scanned(n), exclude, i);
      ServerIsListed(names, Instance(i));
    }
    if |names| == 0 {
      return;
    }
    RunningNamesRun(host.containers, Scanned(n), exclude);
    host.WriteConfig(Servers(names));
    host.Reload();
    assert host.trace == old(host.trace)
      + [Snapshot(host.containers, Up(Some(Servers(names)), old(host.proxy).loaded), host.failed, host.probes)]
      + [host.Now()];
  }

  /** Taking a batch out leaves all the others, and none of the batch. */
  lemma ExcludeBatch(c: Containers, n: nat, b: nat, e: nat)
    requires b <= e <= n && AllRun(c, n) && (forall i: nat :: i >= n ==> Instance(i) !in c)
    ensures |RunningNames(c, Scanned(n), Batch(b, e))| == n - (e - b)
    ensures var servers := Servers(RunningNames(c, Scanned(n), Batch(b, e)));
      e - b < n ==> ServingWithout(c, Up(Some(servers), Some(servers)), b, e, n - (e - b))
  {
    var names := RunningNames(c, Scanned(n), Batch(b, e));
    RunningNamesRun(c, Scanned(n), Batch(b, e));
    NamesAbove(c, n, Scanned(n), Batch(b, e));
    CountOutside(c, n, n, b, e);
    forall i | 0 <= i < |names| ensures !(b <= names[i].ordinal < e) {
      InBatch(b, e, names[i].ordinal);
    }
    DistinctServers(names);
  }

  /** With nothing excluded, all `n` instances are loaded. */
  lemma IncludeAll(c: Containers, n: nat)
    requires n > 0 && AllRun(c, n) && (forall i: nat :: i >= n ==> Instance(i) !in c)
    ensures RunningNames(c, Scanned(n), []) == AllNames(n) && AllNames(n) != []
    ensures Serving(c, Up(Some(Servers(AllNames(n))), Some(Servers(AllNames(n)))), n)
  {
    RunningNamesRun(c, Scanned(n), []);
    NamesAbove(c, n, Scanned(n), []);
    AllRunningNames(c, n);
    DistinctServers(AllNames(n));
  }

  // ---- replaceBatch ----

  /** Stop and remove one running ordinal of the batch. */
  method TakeDown(host: Host, ordinal: nat, ghost b: nat, ghost e: nat, ghost from: nat, ghost least: int)
    requires b <= ordinal < e && Runs(host.containers, Instance(ordinal))
    requires ServingWithout(host.containers, host.proxy, b, e, least) && ServedSince(host.trace, from, least)
    modifies host`containers, host`trace
    ensures host.containers == old(host.containers) - {Instance(ordinal)}
    ensures ServingWithout(host.containers, host.proxy, b, e, least) && ServedSince(host.trace, from, least)
    ensures old(host.trace) + [StoppedSnapshot(old(host.containers), host.proxy, host.failed, host.probes, ordinal)] <= host.trace
  {
    hide ServingWithout, ServedSince, Serving;
    var name := Instance(ordinal);
    if host.IsRunning(name) {
      ghost var c := host.containers;
      host.Stop(name);
      ServingSurvives(c, host.containers, host.proxy, b, e, ordinal, least);
      ServedWithout(c[name := c[name].(running := false)], host.proxy, b, e, least);
      ServedSnoc(old(host.trace), host.Now(), from, least);
      ghost var stopped := host.Now();
      ghost var trace := host.trace;
      host.RemoveIfExists(name);
      ServingSurvives(stopped.containers, host.containers, host.proxy, b, e, ordinal, least);
      ServedWithout(host.containers, host.proxy, b, e, least);
      assert stopped.containers[name := stopped.containers[name].(running := false)] == stopped.containers;
      ServedSnoc(trace, stopped, from, least);
      ServedSnoc(trace + [stopped], host.Now(), from, least);
      assert host.trace == trace + [stopped] + [host.Now()];
    }
  }

  ghost function StoppedSnapshot(c: Containers, proxy: Proxy, failed: bool, probes: nat, ordinal: nat): Snapshot
    requires Instance(ordinal) in c
  {
    Snapshot(c[Instance(ordinal) := c[Instance(ordinal)].(running := false)], proxy, failed, probes)
  }

  lemma ServedWithout(c: Containers, proxy: Proxy, b: nat, e: nat, least: int)
    requires ServingWithout(c, proxy, b, e, least)
    ensures least > 0 ==> Serving(c, proxy, least)
  {
  }

  method Drain(host: Host, n: nat, b: nat, e: nat, ghost before: Containers, ghost renewed: Container,
               ghost from: nat, ghost least: int)
    requires b < e <= n && AllRun(before, n) && Midway(host.containers, before, n, renewed, b, b)
    requires ServingWithout(host.containers, host.proxy, b, e, least) && ServedSince(host.trace, from, least)
    modifies host`containers, host`trace
    ensures Midway(host.containers, before, n, renewed, b, e)
    ensures ServingWithout(host.containers, host.proxy, b, e, least) && ServedSince(host.trace, from, least)
    ensures old(Instance(b) in host.containers)
    ensures old(host.trace) + [StoppedSnapshot(old(host.containers), host.proxy, host.failed, host.probes, b)] <= host.trace
  {
    hide ServingWithout, ServedSince;
    for j := b to e
      invariant Midway(host.containers, before, n, renewed, b, j)
      invariant ServingWithout(host.containers, host.proxy, b, e, least) && ServedSince(host.trace, from, least)
      invariant j == b ==> host.containers == old(host.containers) && host.trace == old(host.trace)
      invariant j > b ==>
        old(host.trace) + [StoppedSnapshot(old(host.containers), host.proxy, host.failed, host.probes, b)] <= host.trace
    {
      assert Runs(before, Instance(j));
      TakeDown(host, j, b, e, from, least);
    }
  }

  // ---- startAndVerifyInstance, rollbackInstances ----

  /** During a rollback: ordinals below `k` are restored, those up to `f` still run the new image. */
  ghost predicate RollingBack(c: Containers, before: Containers, plan: Plan, k: nat, f: nat, e: nat) {
    && k <= f + 1 <= e <= plan.instanceCount
    && (forall i: nat :: i < k ==> Instance(i) in c && c[Instance(i)] == RestoredContainer(plan))
    && (forall i: nat :: k <= i <= f ==> Instance(i) in c && c[Instance(i)] == NewContainer(plan))
    && (forall i: nat :: f < i < e ==> Instance(i) !in c)
    && (forall i: nat :: e <= i < plan.instanceCount ==>
          Instance(i) in c && Instance(i) in before && c[Instance(i)] == before[Instance(i)])
    && (forall i: nat :: i >= plan.instanceCount ==> Instance(i) !in c)
  }

  /** Recreate the given ordinals from the previous image; the batch members not yet started are not among them. */
  method RollbackInstances(host: Host, plan: Plan, ordinals: seq<nat>, ghost f: nat, ghost e: nat,
                           ghost before: Containers, ghost from: nat, ghost least: int)
    requires ordinals == Batch(0, f + 1) && Midway(host.containers, before, plan.instanceCount, NewContainer(plan), f + 1, e)
    requires host.failed && ServedSince(host.trace, from, least)
    modifies host`containers, host`trace
    ensures Midway(host.containers, before, plan.instanceCount, RestoredContainer(plan), f + 1, e)
    ensures ServedSince(host.trace, from, least) && old(host.trace) <= host.trace
  {
    if plan.previousImage.None? {
      return;
    }
    hide ServedSince;
    for k := 0 to |ordinals|
      invariant RollingBack(host.containers, before, plan, k, f, e)
      invariant ServedSince(host.trace, from, least) && old(host.trace) <= host.trace
    {
      var name := Instance(ordinals[k]);
      ghost var trace, c := host.trace, host.containers;
      host.RemoveIfExists(name);
      ServedFailed(trace, host.trace, from, least);
      trace := host.trace;
      host.Run(name, plan.previousImage.value,
               WithPreviousImageLabel(BuildLabels(plan.deployment), plan.outgoingPreviousImageLabel));
      ServedFailed(trace, host.trace, from, least);
      assert host.containers == c[name := RestoredContainer(plan)];
    }
  }

  /** Once a check has failed, nothing more is promised of the states in between. */
  lemma ServedFailed(trace: seq<Snapshot>, longer: seq<Snapshot>, from: nat, least: int)
    requires ServedSince(trace, from, least) && trace <= longer
    requires forall k :: |trace| <= k < |longer| ==> longer[k].failed
    ensures ServedSince(longer, from, least)
  {
    assert forall k :: 0 <= k < |trace| ==> longer[k] == trace[k];
  }

  method StartAndVerify(host: Host, plan: Plan, ordinal: nat, updated: seq<nat>, ghost b: nat, ghost e: nat,
                        ghost before: Containers, ghost from: nat, ghost least: int)
    returns (passed: bool)
    requires b <= ordinal < e && updated == Batch(0, ordinal) && !host.failed
    requires Midway(host.containers, before, plan.instanceCount, NewContainer(plan), ordinal, e)
    requires ServingWithout(host.containers, host.proxy, b, e, least) && ServedSince(host.trace, from, least)
    modifies host`containers, host`proxy, host`probes, host`failed, host`trace
    ensures passed == host.verdict(old(host.probes)) && host.probes == old(host.probes) + 1
    ensures ServedSince(host.trace, from, least) && old(host.trace) <= host.trace && host.failed == !passed
    ensures passed ==>
      && Midway(host.containers, before, plan.instanceCount, NewContainer(plan), ordinal + 1, e)
      && host.proxy == old(host.proxy) && ServingWithout(host.containers, host.proxy, b, e, least)
    ensures !passed ==>
      && Midway(host.containers, before, plan.instanceCount, RestoredContainer(plan), ordinal + 1, e)
      && PointsAtAllRunning(host.containers, host.proxy, plan.instanceCount)
  {
    hide ServingWithout, ServedSince, Serving, Midway, PointsAtAllRunning;
    var name := Instance(ordinal);
    ghost var c, trace := host.containers, host.trace;
    StartedOne(c, before, plan.instanceCount, NewContainer(plan), ordinal, e);
    host.Run(name, plan.image, WithPreviousImageLabel(BuildLabels(plan.deployment), plan.previousImage));
    ServingSurvives(c, host.containers, host.proxy, b, e, ordinal, least);
    ServedWithout(host.containers, host.proxy, b, e, least);
    ServedSnoc(trace, host.Now(), from, least);
    trace := host.trace;
    passed := host.CheckHealth();
    ServedSnoc(trace, host.Now(), from, least);
    if !passed {
      UpWhenServing(c, host.proxy, b, e, least);
      BackOut(host, plan, updated + [ordinal], ordinal, e, before, from, least);
    }
  }

  lemma StartedOne(c: Containers, before: Containers, n: nat, renewed: Container, ordinal: nat, e: nat)
    requires ordinal < e && Midway(c, before, n, renewed, ordinal, e)
    ensures Instance(ordinal) !in c && Midway(c[Instance(ordinal) := renewed], before, n, renewed, ordinal + 1, e)
  {
  }

  /** What follows a failed check: roll back what has been replaced, then point nginx at whatever runs. */
  method BackOut(host: Host, plan: Plan, rolledBack: seq<nat>, ordinal: nat, ghost e: nat,
                 ghost before: Containers, ghost from: nat, ghost least: int)
    requires rolledBack == Batch(0, ordinal) + [ordinal] && host.failed && host.proxy.Up?
    requires ordinal < e && Midway(host.containers, before, plan.instanceCount, NewContainer(plan), ordinal + 1, e)
    requires ServedSince(host.trace, from, least)
    modifies host`containers, host`proxy, host`trace
    ensures ServedSince(host.trace, from, least) && old(host.trace) <= host.trace
    ensures Midway(host.containers, before, plan.instanceCount, RestoredContainer(plan), ordinal + 1, e)
    ensures PointsAtAllRunning(host.containers, host.proxy, plan.instanceCount)
  {
    hide ServedSince;
    assert rolledBack == Batch(0, ordinal + 1);
    RollbackInstances(host, plan, rolledBack, ordinal, e, before, from, least);
    ghost var trace := host.trace;
    UpdateNginx(host, plan.instanceCount, []);
    ServedFailed(trace, host.trace, from, least);
    SomeInstanceRuns(host.containers, plan.instanceCount, ordinal);
  }

  lemma UpWhenServing(c: Containers, proxy: Proxy, b: nat, e: nat, least: int)
    requires ServingWithout(c, proxy, b, e, least)
    ensures proxy.Up?
  {
  }

  ghost predicate PointsAtAllRunning(c: Containers, proxy: Proxy, n: nat) {
    && proxy.Up? && proxy.loaded == Some(Servers(RunningNames(c, Scanned(n), [])))
    && RunningNames(c, Scanned(n), []) != []
  }

  lemma {:induction false} RunningIsListed(c: Containers, k: nat, ordinal: nat)
    requires ordinal < k && Runs(c, Instance(ordinal))
    ensures RunningNames(c, k, []) != []
  {
    if ordinal < k - 1 {
      RunningIsListed(c, k - 1, ordinal);
    }
  }

  lemma SomeInstanceRuns(c: Containers, n: nat, ordinal: nat)
    requires ordinal < n && Runs(c, Instance(ordinal))
    ensures RunningNames(c, Scanned(n), []) != []
  {
    RunningIsListed(c, Scanned(n), ordinal);
  }

  lemma RepointServes(c: Containers, proxy: Proxy, proxy': Proxy, trace: seq<Snapshot>, trace': seq<Snapshot>,
                      from: nat, least: int, probes: nat, written: Option<seq<Server>>)
    requires ServedSince(trace, from, least) && proxy.Up?
    requires least > 0 ==> Serving(c, proxy, least) && Serving(c, proxy', least)
    requires trace' == trace + [Snapshot(c, Up(written, proxy.loaded), false, probes)] + [Snapshot(c, proxy', false, probes)]
    ensures ServedSince(trace', from, least)
  {
    ServedSnoc(trace, Snapshot(c, Up(written, proxy.loaded), false, probes), from, least);
    ServedSnoc(trace + [Snapshot(c, Up(written, proxy.loaded), false, probes)], Snapshot(c, proxy', false, probes), from, least);
  }

  /** Draining a batch from the proxy. */
  lemma BatchTakenOut(c: Containers, n: nat, b: nat, e: nat, probes: nat, proxy: Proxy, proxy': Proxy,
                      trace: seq<Snapshot>, trace': seq<Snapshot>, from: nat, least: int)
    requires b < e <= n && AllRun(c, n) && (forall i: nat :: i >= n ==> Instance(i) !in c)
    requires proxy.Up? && Serving(c, proxy, least) && ServedSince(trace, from, least) && least <= n - (e - b)
    requires Repointed(c, n, Batch(b, e), false, probes, proxy, proxy', trace, trace')
    ensures ServingWithout(c, proxy', b, e, least) && ServedSince(trace', from, least) && trace <= trace'
    ensures e - b == n ==> proxy' == proxy && trace' == trace
  {
    hide ServedSince;
    ExcludeBatch(c, n, b, e);
    hide RunningNames;
    if e - b < n {
      RepointServes(c, proxy, proxy', trace, trace', from, least, probes, proxy'.written);
    }
  }

  /** Back to all instances. */
  lemma EveryoneTakenIn(c: Containers, n: nat, probes: nat, proxy: Proxy, proxy': Proxy,
                        trace: seq<Snapshot>, trace': seq<Snapshot>, from: nat, least: int)
    requires 0 < n && AllRun(c, n) && (forall i: nat :: i >= n ==> Instance(i) !in c)
    requires proxy.Up? && (least > 0 ==> Serving(c, proxy, least)) && ServedSince(trace, from, least) && least <= n
    requires Repointed(c, n, [], false, probes, proxy, proxy', trace, trace')
    ensures proxy' == Up(Some(Servers(AllNames(n))), Some(Servers(AllNames(n))))
    ensures Serving(c, proxy', n) && ServedSince(trace', from, least) && trace <= trace'
  {
    hide ServedSince;
    IncludeAll(c, n);
    hide RunningNames;
    RepointServes(c, proxy, proxy', trace, trace', from, least, probes, proxy'.written);
  }

  lemma NoCheckYet(verdict: nat -> bool, p: nat)
    ensures AllPass(verdict, p, 0)
  {
  }

  /** Start the batch, instance by instance. */
  method StartBatch(host: Host, plan: Plan, b: nat, e: nat, updated: seq<nat>,
                    ghost before: Containers, ghost from: nat, ghost least: int)
    returns (failing: Option<nat>, grown: seq<nat>)
    requires b < e <= plan.instanceCount && updated == Batch(0, b) && !host.failed
    requires Midway(host.containers, before, plan.instanceCount, NewContainer(plan), b, e)
    requires ServingWithout(host.containers, host.proxy, b, e, least) && ServedSince(host.trace, from, least)
    modifies host`containers, host`proxy, host`probes, host`failed, host`trace
    ensures ServedSince(host.trace, from, least) && host.failed == failing.Some? && old(host.trace) <= host.trace
    ensures failing.None? ==> AllPass(host.verdict, old(host.probes), e - b) && host.probes == old(host.probes) + (e - b)
    ensures failing.Some? ==> failing.value >= b && FirstFailure(host.verdict, old(host.probes), failing.value - b)
    ensures failing.None? ==>
      && grown == Batch(0, e) && Midway(host.containers, before, plan.instanceCount, NewContainer(plan), e, e)
      && ServingWithout(host.containers, host.proxy, b, e, least)
    ensures failing.Some? ==>
      && b <= failing.value < e
      && Midway(host.containers, before, plan.instanceCount, RestoredContainer(plan), failing.value + 1, e)
      && PointsAtAllRunning(host.containers, host.proxy, plan.instanceCount)
  {
    hide ServingWithout, ServedSince, Serving, Midway, PointsAtAllRunning, AllPass, FirstFailure;
    NoCheckYet(host.verdict, host.probes);
    grown := updated;
    for j := b to e
      invariant host.probes == old(host.probes) + (j - b) && AllPass(host.verdict, old(host.probes), j - b)
      invariant grown == Batch(0, j) && !host.failed && old(host.trace) <= host.trace
      invariant Midway(host.containers, before, plan.instanceCount, NewContainer(plan), j, e)
      invariant ServingWithout(host.containers, host.proxy, b, e, least) && ServedSince(host.trace, from, least)
    {
      OneMoreCheck(host.verdict, old(host.probes), j - b);
      var passed := StartAndVerify(host, plan, j, grown, b, e, before, from, least);
      if !passed {
        return Some(j), grown;
      }
      grown := grown + [j];
      assert grown == Batch(0, j + 1);
    }
    failing := None;
  }

  lemma AllUpToDate(c: Containers, before: Containers, n: nat, renewed: Container, done: nat)
    requires AllRun(before, n) && Midway(c, before, n, renewed, done, done) && renewed.running
    ensures AllRun(c, n) && forall i: nat :: i >= n ==> Instance(i) !in c
  {
    assert forall i: nat :: done <= i < n ==> Runs(before, Instance(i));
  }

  /** One batch: on success its ordinals run the new image and nginx has everyone again. */
  method ReplaceBatch(host: Host, plan: Plan, b: nat, e: nat, updated: seq<nat>,
                      ghost before: Containers, ghost from: nat, ghost least: int)
    returns (failing: Option<nat>, grown: seq<nat>)
    requires b < e <= plan.instanceCount && updated == Batch(0, b) && !host.failed && least <= plan.instanceCount - (e - b)
    requires AllRun(before, plan.instanceCount)
    requires Midway(host.containers, before, plan.instanceCount, NewContainer(plan), b, b)
    requires host.proxy.Up? && Serving(host.containers, host.proxy, least) && ServedSince(host.trace, from, least)
    modifies host`containers, host`proxy, host`probes, host`failed, host`trace
    ensures ServedSince(host.trace, from, least) && host.failed == failing.Some? && old(host.trace) <= host.trace
    ensures failing.None? ==> AllPass(host.verdict, old(host.probes), e - b) && host.probes == old(host.probes) + (e - b)
    ensures failing.Some? ==> failing.value >= b && FirstFailure(host.verdict, old(host.probes), failing.value - b)
    ensures failing.None? ==>
      && grown == Batch(0, e) && Midway(host.containers, before, plan.instanceCount, NewContainer(plan), e, e)
      && host.proxy == Up(Some(Servers(AllNames(plan.instanceCount))), Some(Servers(AllNames(plan.instanceCount))))
      && Serving(host.containers, host.proxy, plan.instanceCount)
    ensures failing.Some? ==>
      && b <= failing.value < e
      && Midway(host.containers, before, plan.instanceCount, RestoredContainer(plan), failing.value + 1, e)
      && PointsAtAllRunning(host.containers, host.proxy, plan.instanceCount)
    ensures e - b == plan.instanceCount ==>
      && old(Instance(b) in host.containers)
      && old(host.trace) + [StoppedSnapshot(old(host.containers), old(host.proxy), false, old(host.probes), b)] <= host.trace
  {
    hide ServingWithout, ServedSince, Serving, Midway, AllRun, PointsAtAllRunning, Servers, AllNames, RunningNames, Repointed,
      AllPass, FirstFailure;
    var n := plan.instanceCount;
    ghost var trace, proxy := host.trace, host.proxy;
    AllUpToDate(host.containers, before, n, NewContainer(plan), b);
    UpdateNginx(host, n, Batch(b, e));
    BatchTakenOut(host.containers, n, b, e, host.probes, proxy, host.proxy, trace, host.trace, from, least);
    UpWhenServing(host.containers, host.proxy, b, e, least);
    Drain(host, n, b, e, before, NewContainer(plan), from, least);
    failing, grown := StartBatch(host, plan, b, e, updated, before, from, least);
    if failing.Some? {
      return;
    }
    AllUpToDate(host.containers, before, n, NewContainer(plan), e);
    trace, proxy := host.trace, host.proxy;
    ServedWithout(host.containers, host.proxy, b, e, least);
    UpWhenServing(host.containers, host.proxy, b, e, least);
    UpdateNginx(host, n, []);
    EveryoneTakenIn(host.containers, n, host.probes, proxy, host.proxy, trace, host.trace, from, least);
  }

  // ---- deploy ----

  datatype Outcome = Success | InstanceUnhealthy(ordinal: nat)

  /** `n` instances run one image and nginx has them all: what an update starts from, and what a success leaves. */
  ghost predicate Ready(c: Containers, proxy: Proxy, n: nat, image: string) {
    && Fleet(c, n, image)
    && proxy.Up? && proxy.loaded == Some(Servers(AllNames(n)))
  }

  function Min(a: nat, b: nat): nat {
    if a <= b then a else b
  }

  function PlanFor(outgoing: Container, image: string, deployment: string, n: nat): Plan {
    Plan(image, deployment, n, ResolvePreviousImage(Some(outgoing), image), ReadPreviousImage(Some(outgoing)))
  }

  /** The end of the batch an ordinal belongs to. */
  function BatchEnd(ordinal: nat, size: nat, n: nat): nat
    requires size > 0
  {
    Min((ordinal / size + 1) * size, n)
  }

  lemma BatchOf(ordinal: nat, size: nat, k: nat, b: nat, n: nat)
    requires size > 0 && b == k * size && b <= ordinal < Min(b + size, n)
    ensures BatchEnd(ordinal, size, n) == Min(b + size, n)
  {
    QuotientIs(ordinal, k, size);
    assert (k + 1) * size == b + size;
  }

  /** After a failure at `ordinal`: the ordinals up to it run the previous image, the rest of its batch is missing,
      the later ones are as they were, and nginx has every instance that runs. */
  ghost predicate RolledBack(c: Containers, proxy: Proxy, before: Containers, plan: Plan, ordinal: nat, size: nat)
    requires size > 0
  {
    && ordinal < plan.instanceCount
    && Midway(c, before, plan.instanceCount, RestoredContainer(plan), ordinal + 1, BatchEnd(ordinal, size, plan.instanceCount))
    && PointsAtAllRunning(c, proxy, plan.instanceCount)
  }

  lemma ReadyServes(c: Containers, proxy: Proxy, n: nat, image: string)
    requires n > 0 && Ready(c, proxy, n, image)
    ensures AllRun(c, n) && Serving(c, proxy, n) && proxy.Up? && Instance(0) in c
  {
    DistinctServers(AllNames(n));
  }

  /** Between batches: ordinals below `done` are replaced, the others untouched, and all are loaded and running. */
  ghost predicate Replaced(now: Snapshot, start: Snapshot, plan: Plan, updated: seq<nat>, done: nat) {
    var n := plan.instanceCount;
    && !now.failed && updated == Batch(0, done) && AllRun(start.containers, n)
    && Midway(now.containers, start.containers, n, NewContainer(plan), done, done)
    && Serving(now.containers, now.proxy, n) && now.proxy.loaded == Some(Servers(AllNames(n)))
  }

  lemma UpdateStarts(start: Snapshot, plan: Plan, image: string)
    requires plan.instanceCount > 0 && !start.failed
    requires Ready(start.containers, start.proxy, plan.instanceCount, image)
    ensures Replaced(start, start, plan, [], 0) && Instance(0) in start.containers
  {
    ReadyServes(start.containers, start.proxy, plan.instanceCount, image);
  }

  lemma ReplacedSoFar(now: Snapshot, start: Snapshot, plan: Plan, updated: seq<nat>, i: nat, least: int)
    requires Replaced(now, start, plan, updated, i) && least <= plan.instanceCount
    ensures !now.failed && updated == Batch(0, i) && AllRun(start.containers, plan.instanceCount)
    ensures Midway(now.containers, start.containers, plan.instanceCount, NewContainer(plan), i, i)
    ensures now.proxy.Up? && Serving(now.containers, now.proxy, least)
  {
  }

  lemma BatchReplaced(now: Snapshot, start: Snapshot, plan: Plan, updated: seq<nat>, end: nat)
    requires !now.failed && updated == Batch(0, end) && AllRun(start.containers, plan.instanceCount)
    requires Midway(now.containers, start.containers, plan.instanceCount, NewContainer(plan), end, end)
    requires now.proxy == Up(Some(Servers(AllNames(plan.instanceCount))), Some(Servers(AllNames(plan.instanceCount))))
    requires Serving(now.containers, now.proxy, plan.instanceCount)
    ensures Replaced(now, start, plan, updated, end)
  {
  }

  lemma AllReplaced(now: Snapshot, start: Snapshot, plan: Plan, updated: seq<nat>)
    requires Replaced(now, start, plan, updated, plan.instanceCount)
    ensures Midway(now.containers, start.containers, plan.instanceCount, NewContainer(plan), plan.instanceCount, plan.instanceCount)
    ensures Ready(now.containers, now.proxy, plan.instanceCount, plan.image) && Serves(now.containers, now.proxy)
  {
  }

  ghost function Times(k: nat, size: nat): nat {
    k * size
  }

  lemma NextMultiple(k: nat, size: nat)
    ensures Times(k + 1, size) == Times(k, size) + size && Times(0, size) == 0
  {
  }

  lemma FailureRollsBack(c: Containers, proxy: Proxy, before: Containers, plan: Plan, ordinal: nat, size: nat, k: nat,
                         b: nat)
    requires size > 0 && b == Times(k, size) && b <= ordinal < Min(b + size, plan.instanceCount)
    requires Midway(c, before, plan.instanceCount, RestoredContainer(plan), ordinal + 1, Min(b + size, plan.instanceCount))
    requires PointsAtAllRunning(c, proxy, plan.instanceCount)
    ensures RolledBack(c, proxy, before, plan, ordinal, size)
  {
    hide Midway, PointsAtAllRunning;
    BatchOf(ordinal, size, k, b, plan.instanceCount);
  }

  /** The batch loop. */
  method ReplaceAll(host: Host, plan: Plan, size: nat, ghost start: Snapshot, ghost trace: seq<Snapshot>)
    returns (failing: Option<nat>)
    requires 0 < size <= plan.instanceCount && host.Now() == start && host.trace == trace
    requires Replaced(start, start, plan, [], 0) && Instance(0) in start.containers
    modifies host`containers, host`proxy, host`probes, host`failed, host`trace
    ensures ServedSince(host.trace, |trace|, plan.instanceCount - size)
    ensures size == plan.instanceCount ==>
      trace + [StoppedSnapshot(start.containers, start.proxy, false, start.probes, 0)] <= host.trace
    ensures failing.None? ==>
      && Checked(host.verdict, start.probes, host.probes, plan.instanceCount)
      && Replaced(host.Now(), start, plan, Batch(0, plan.instanceCount), plan.instanceCount)
    ensures failing.Some? ==>
      && failing.value < plan.instanceCount && FirstFailure(host.verdict, start.probes, failing.value)
      && RolledBack(host.containers, host.proxy, start.containers, plan, failing.value, size)
  {
    hide ServedSince, Replaced, RolledBack, NewContainer, RestoredContainer, AllRun, Midway, Serving, PointsAtAllRunning,
      BatchEnd, StoppedSnapshot, Servers, AllNames, RunningNames, Serves, Times, AllPass, FirstFailure, Checked, Batch;
    var n := plan.instanceCount;
    ghost var least := n - size;
    NoneChecked(host.verdict, start.probes);
    ServedNothing(trace, least);
    var updated := [];
    var i := 0;
    ghost var k := 0;
    NextMultiple(0, size);
    while i < n
      invariant i == Times(k, size) && (i == 0 ==> host.Now() == start && host.trace == trace)
      invariant Replaced(host.Now(), start, plan, updated, Min(i, n))
      invariant Checked(host.verdict, start.probes, host.probes, Min(i, n))
      invariant ServedSince(host.trace, |trace|, least) && trace <= host.trace
      invariant size == n && i > 0 ==>
        trace + [StoppedSnapshot(start.containers, start.proxy, false, start.probes, 0)] <= host.trace
      decreases n - i
    {
      var end := i + Min(size, n - i);
      ReplacedSoFar(host.Now(), start, plan, updated, i, least);
      CheckedMeans(host.verdict, start.probes, host.probes, i);
      var batchFailing, grown := ReplaceBatch(host, plan, i, end, updated, start.containers, |trace|, least);
      BatchChecked(host.verdict, start.probes, host.probes, i, end, batchFailing);
      if batchFailing.Some? {
        FailureRollsBack(host.containers, host.proxy, start.containers, plan, batchFailing.value, size, k, i);
        return batchFailing;
      }
      BatchReplaced(host.Now(), start, plan, grown, end);
      updated := grown;
      NextMultiple(k, size);
      i := i + size;
      k := k + 1;
    }
    ReplacedSoFar(host.Now(), start, plan, updated, n, least);
    failing := None;
  }

  method Update(host: Host, image: string, deployment: string, n: nat, maxUnavailable: nat, outgoing: Container,
                ghost oldImage: string)
    returns (r: Outcome)
    requires n > 0 && maxUnavailable > 0 && Ready(host.containers, host.proxy, n, oldImage) && !host.failed
    requires host.Inspect(Instance(0)) == Some(outgoing)
    modifies host`containers, host`proxy, host`probes, host`failed, host`trace
    ensures maxUnavailable < n ==> ServedSince(host.trace, |old(host.trace)|, n - maxUnavailable)
    ensures maxUnavailable >= n ==>
      |host.trace| > |old(host.trace)| && !host.trace[|old(host.trace)|].failed
      && !Serves(host.trace[|old(host.trace)|].containers, host.trace[|old(host.trace)|].proxy)
    ensures r.Success? ==> AllPass(host.verdict, old(host.probes), n)
    ensures r.InstanceUnhealthy? ==> r.ordinal < n && FirstFailure(host.verdict, old(host.probes), r.ordinal)
    ensures r.Success? ==> Ready(host.containers, host.proxy, n, image) && Serves(host.containers, host.proxy)
    ensures var plan := PlanFor(outgoing, image, deployment, n);
      if r.Success?
      then Midway(host.containers, old(host.containers), n, NewContainer(plan), n, n)
      else RolledBack(host.containers, host.proxy, old(host.containers), plan, r.ordinal, Min(maxUnavailable, n))
  {
    var size := Min(maxUnavailable, n);
    var plan := PlanFor(outgoing, image, deployment, n);
    ghost var start, trace := host.Now(), host.trace;
    UpdateStarts(start, plan, oldImage);
    hide Ready, ServedSince, Replaced, RolledBack, NewContainer, RestoredContainer, Midway, PlanFor, BatchEnd,
      StoppedSnapshot, Serves, AllPass, FirstFailure, Checked, Batch;
    var failing := ReplaceAll(host, plan, size, start, trace);
    if size == n {
      NotServedWhenAllStop(trace, host.trace, start, n, oldImage);
    }
    if failing.Some? {
      return InstanceUnhealthy(failing.value);
    }
    CheckedMeans(host.verdict, start.probes, host.probes, n);
    AllReplaced(host.Now(), start, plan, Batch(0, n));
    r := Success;
  }

  /** The checks of the ordinals below `done`, one each, have all passed. */
  ghost predicate Checked(verdict: nat -> bool, start: nat, probes: nat, done: nat) {
    probes == start + done && AllPass(verdict, start, done)
  }

  lemma BatchChecked(verdict: nat -> bool, start: nat, probes: nat, i: nat, end: nat, failing: Option<nat>)
    requires i <= end && AllPass(verdict, start, i)
    requires failing.None? ==> AllPass(verdict, start + i, end - i) && probes == start + i + (end - i)
    requires failing.Some? ==> failing.value >= i && FirstFailure(verdict, start + i, failing.value - i)
    ensures failing.None? ==> Checked(verdict, start, probes, end)
    ensures failing.Some? ==> FirstFailure(verdict, start, failing.value)
  {
    if failing.Some? {
      ChecksInTwo(verdict, start, i, failing.value - i);
    } else {
      ChecksInTwo(verdict, start, i, end - i);
    }
  }

  lemma CheckedMeans(verdict: nat -> bool, start: nat, probes: nat, done: nat)
    requires Checked(verdict, start, probes, done)
    ensures probes == start + done && AllPass(verdict, start, done)
  {
  }

  lemma NoneChecked(verdict: nat -> bool, start: nat)
    ensures Checked(verdict, start, start, 0)
  {
  }

  lemma ServedNothing(trace: seq<Snapshot>, least: int)
    ensures ServedSince(trace, |trace|, least)
  {
  }

  /** When all instances may be unavailable the reload is skipped, and nginx keeps a stopped upstream. */
  lemma NotServedWhenAllStop(trace: seq<Snapshot>, longer: seq<Snapshot>, start: Snapshot, n: nat, image: string)
    requires n > 0 && Ready(start.containers, start.proxy, n, image) && Instance(0) in start.containers
    requires trace + [StoppedSnapshot(start.containers, start.proxy, false, start.probes, 0)] <= longer
    ensures |longer| > |trace| && !longer[|trace|].failed
    ensures !Serves(longer[|trace|].containers, longer[|trace|].proxy)
  {
    var stopped := StoppedSnapshot(start.containers, start.proxy, false, start.probes, 0);
    assert longer[|trace|] == (trace + [stopped])[|trace|];
    assert start.proxy.loaded.value[0].name == Instance(0);
  }

  /** A new instance remembers the image it replaced, or what the outgoing one remembered of an earlier image. */
  lemma NewInstanceRemembers(outgoing: Container, image: string, deployment: string, n: nat)
    requires outgoing.image != ""
    ensures var c := NewContainer(PlanFor(outgoing, image, deployment, n));
      && c.image == image && c.running
      && ReadPreviousImage(Some(c))
         == if outgoing.image != image then Some(outgoing.image) else ReadPreviousImage(Some(outgoing))
  {
    LabelReadsBack(image, BuildLabels(deployment), ResolvePreviousImage(Some(outgoing), image), true);
  }

  /** A rolled-back instance is like the outgoing one again: its image, and its memory. */
  lemma RestoredInstanceForgets(outgoing: Container, image: string, deployment: string, n: nat)
    requires outgoing.image != "" && outgoing.image != image
    ensures var c := RestoredContainer(PlanFor(outgoing, image, deployment, n));
      c.image == outgoing.image && c.running && ReadPreviousImage(Some(c)) == ReadPreviousImage(Some(outgoing))
  {
    LabelReadsBack(outgoing.image, BuildLabels(deployment), ReadPreviousImage(Some(outgoing)), true);
  }

  /** A failed update leaves at most `size - 1` ordinals missing: the rest of the failed batch. */
  lemma MissingAfterFailure(c: Containers, proxy: Proxy, before: Containers, plan: Plan, ordinal: nat, size: nat)
    requires size > 0 && RolledBack(c, proxy, before, plan, ordinal, size)
    ensures forall i: nat :: i < plan.instanceCount ==>
      (Instance(i) !in c <==> ordinal < i < BatchEnd(ordinal, size, plan.instanceCount))
    ensures BatchEnd(ordinal, size, plan.instanceCount) - ordinal - 1 <= size - 1
  {
    hide PointsAtAllRunning;
    assert (ordinal / size + 1) * size == ordinal / size * size + size;
  }

  /** And it leaves the new image nowhere exactly when that image was not running before, or all remaining ordinals
      were in the failed batch and got another image. */
  lemma ImageAfterFailure(c: Containers, before: Containers, plan: Plan, ordinal: nat, end: nat, oldImage: string)
    requires ordinal < end && Midway(c, before, plan.instanceCount, RestoredContainer(plan), ordinal + 1, end)
    requires oldImage != "" && Fleet(before, plan.instanceCount, oldImage)
    requires Instance(0) in before && plan == PlanFor(before[Instance(0)], plan.image, plan.deployment, plan.instanceCount)
    ensures (forall i: nat :: i < plan.instanceCount && Instance(i) in c ==> c[Instance(i)].image != plan.image) <==>
      plan.image != oldImage || (end == plan.instanceCount && RestoredContainer(plan).image != plan.image)
  {
    assert Runs(before, Instance(0));
    assert c[Instance(0)] == RestoredContainer(plan);
    if end < plan.instanceCount {
      assert Runs(before, Instance(end)) && c[Instance(end)] == before[Instance(end)];
    }
  }

  /** No instance runs yet: start them one by one, and remove them all again when one is unhealthy. */
  method FirstDeploy(host: Host, image: string, deployment: string, n: nat) returns (r: Outcome)
    requires n > 0 && !host.failed
    requires (forall i: nat :: i < n ==> !Runs(host.containers, Instance(i)))
    requires (forall i: nat :: i >= n ==> Instance(i) !in host.containers)
    modifies host`containers, host`proxy, host`probes, host`failed, host`trace
    ensures r.Success? ==> AllPass(host.verdict, old(host.probes), n)
    ensures r.InstanceUnhealthy? ==> r.ordinal < n && FirstFailure(host.verdict, old(host.probes), r.ordinal)
    ensures r.Success? ==> Ready(host.containers, host.proxy, n, image) && Serves(host.containers, host.proxy)
    ensures r.Success? ==> forall i: nat :: i < n ==>
      Instance(i) in host.containers && ReadPreviousImage(Some(host.containers[Instance(i)])).None?
    ensures r.InstanceUnhealthy? ==>
      && r.ordinal < n && host.proxy == old(host.proxy)
      && (forall i: nat :: !Runs(host.containers, Instance(i)))
      && (forall i: nat :: i <= r.ordinal ==> Instance(i) !in host.containers)
  {
    hide FirstFailure, AllPass;
    NoCheckYet(host.verdict, host.probes);
    var container := Container(image, BuildLabels(deployment), true);
    for i := 0 to n
      invariant host.proxy == old(host.proxy)
      invariant host.probes == old(host.probes) + i && AllPass(host.verdict, old(host.probes), i)
      invariant forall j: nat :: j < i ==> Instance(j) in host.containers && host.containers[Instance(j)] == container
      invariant forall j: nat :: i <= j < n ==> !Runs(host.containers, Instance(j))
      invariant forall j: nat :: j >= n ==> Instance(j) !in host.containers
    {
      host.RemoveIfExists(Instance(i));
      host.Run(Instance(i), image, BuildLabels(deployment));
      OneMoreCheck(host.verdict, old(host.probes), i);
      var passed := host.CheckHealth();
      if !passed {
        RemoveUpTo(host, i);
        return InstanceUnhealthy(i);
      }
    }
    host.EnsureProxy();
    assert forall i :: 0 <= i < n ==> Runs(host.containers, AllNames(n)[i]);
    host.WriteConfig(Servers(AllNames(n)));
    assert host.proxy.written.value[0] == Servers(AllNames(n))[0];
    host.Reload();
    r := Success;
  }

  method RemoveUpTo(host: Host, last: nat)
    modifies host`containers, host`trace
    ensures forall i: nat :: i <= last ==> Instance(i) !in host.containers
    ensures forall x: Name :: !(x.Instance? && x.ordinal <= last) ==>
      (x in host.containers <==> x in old(host.containers)) && (x in host.containers ==> host.containers[x] == old(host.containers)[x])
  {
    for j := 0 to last + 1
      invariant forall i: nat :: i < j ==> Instance(i) !in host.containers
      invariant forall x: Name :: !(x.Instance? && x.ordinal < j) ==>
        (x in host.containers <==> x in old(host.containers)) && (x in host.containers ==> host.containers[x] == old(host.containers)[x])
    {
      host.RemoveIfExists(Instance(j));
    }
  }

  method Discover(host: Host) returns (running: seq<nat>)
    ensures forall i :: 0 <= i < |running| ==> Runs(host.containers, Instance(running[i]))
    ensures running == [] ==> forall i: nat :: i < ROLLING_MAX_INSTANCES ==> !Runs(host.containers, Instance(i))
    ensures Runs(host.containers, Instance(0)) ==> running != [] && running[0] == 0
  {
    running := [];
    for i := 0 to ROLLING_MAX_INSTANCES
      invariant forall j :: 0 <= j < |running| ==> Runs(host.containers, Instance(running[j]))
      invariant running == [] ==> forall j: nat :: j < i ==> !Runs(host.containers, Instance(j))
      invariant i == 0 ==> running == []
      invariant i > 0 && Runs(host.containers, Instance(0)) ==> running != [] && running[0] == 0
    {
      if host.IsRunning(Instance(i)) {
        running := running + [i];
      }
    }
  }

  /** After an update the instances remember the image that was replaced; after a failed one those rolled back are
      like the outgoing instance. */
  ghost predicate LabelsFollow(r: Outcome, c: Containers, n: nat, outgoing: Container, image: string) {
    && (r.Success? ==> forall i: nat :: i < n && Instance(i) in c ==>
          ReadPreviousImage(Some(c[Instance(i)]))
          == if outgoing.image != image then Some(outgoing.image) else ReadPreviousImage(Some(outgoing)))
    && (r.InstanceUnhealthy? && outgoing.image != image ==> forall i: nat :: i <= r.ordinal ==>
          && Runs(c, Instance(i)) && c[Instance(i)].image == outgoing.image
          && ReadPreviousImage(Some(c[Instance(i)])) == ReadPreviousImage(Some(outgoing)))
  }

  lemma LabelsAfterUpdate(r: Outcome, c: Containers, proxy: Proxy, before: Containers, outgoing: Container,
                          image: string, deployment: string, n: nat, size: nat)
    requires outgoing.image != "" && size > 0
    requires var plan := PlanFor(outgoing, image, deployment, n);
      if r.Success? then Midway(c, before, n, NewContainer(plan), n, n) else RolledBack(c, proxy, before, plan, r.ordinal, size)
    ensures LabelsFollow(r, c, n, outgoing, image)
  {
    hide PointsAtAllRunning, ReadPreviousImage, NewContainer, RestoredContainer, BatchEnd;
    NewInstanceRemembers(outgoing, image, deployment, n);
    if outgoing.image != image {
      RestoredInstanceForgets(outgoing, image, deployment, n);
    }
  }

  /** Either no instance runs, or a fleet of `n` on one image does. */
  method Deploy(host: Host, image: string, deployment: string, n: nat, maxUnavailable: nat,
                ghost oldImage: Option<string>)
    returns (r: Outcome)
    requires 0 < n <= ROLLING_MAX_INSTANCES && maxUnavailable > 0
    requires oldImage.Some? ==> oldImage.value != "" && Ready(host.containers, host.proxy, n, oldImage.value)
    requires oldImage.None? ==>
      forall i: nat :: !Runs(host.containers, Instance(i)) && (i >= n ==> Instance(i) !in host.containers)
    modifies host`containers, host`proxy, host`probes, host`failed, host`trace
    ensures r.Success? <==> AllPass(host.verdict, old(host.probes), n)
    ensures r.InstanceUnhealthy? ==> r.ordinal < n && FirstFailure(host.verdict, old(host.probes), r.ordinal)
    ensures r.Success? ==> Ready(host.containers, host.proxy, n, image) && Serves(host.containers, host.proxy)
    ensures oldImage.Some? && maxUnavailable < n ==> ServedSince(host.trace, |old(host.trace)|, n - maxUnavailable)
    ensures oldImage.Some? && r.InstanceUnhealthy? ==>
      && old(Instance(0) in host.containers)
      && var plan := PlanFor(old(host.containers[Instance(0)]), image, deployment, n);
         RolledBack(host.containers, host.proxy, old(host.containers), plan, r.ordinal, Min(maxUnavailable, n))
    ensures oldImage.Some? ==>
      && old(Instance(0) in host.containers)
      && LabelsFollow(r, host.containers, n, old(host.containers[Instance(0)]), image)
    ensures oldImage.None? && r.InstanceUnhealthy? ==>
      host.proxy == old(host.proxy) && forall i: nat :: !Runs(host.containers, Instance(i))
    ensures oldImage.None? && r.Success? ==> forall i: nat :: i < n ==>
      Instance(i) in host.containers && ReadPreviousImage(Some(host.containers[Instance(i)])).None?
  {
    hide ServedSince, RolledBack, AllNames, Servers, Serves, PlanFor, Min, AllPass, FirstFailure, LabelsFollow, Midway,
      NewContainer, ReadPreviousImage;
    host.Begin();
    var existing := Discover(host);
    if |existing| == 0 {
      r := FirstDeploy(host, image, deployment, n);
    } else {
      assert Runs(host.containers, Instance(existing[0]));
      var outgoing := host.containers[Instance(existing[0])];
      r := Update(host, image, deployment, n, maxUnavailable, outgoing, oldImage.value);
      MinPositive(maxUnavailable, n);
      LabelsAfterUpdate(r, host.containers, host.proxy, old(host.containers), outgoing, image, deployment, n,
                        Min(maxUnavailable, n));
    }
    if r.InstanceUnhealthy? {
      FirstFailureExcludes(host.verdict, old(host.probes), r.ordinal, n);
    }
  }

  lemma MinPositive(a: nat, b: nat)
    requires a > 0 && b > 0
    ensures Min(a, b) > 0
  {
  }
}

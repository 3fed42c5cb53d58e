/** One project's containers and proxy on the Docker host, and every state its commands pass through. */
module Docker {
  import opened Collections

  datatype Name = Instance(ordinal: nat) | Stable | Canary | Blue | Green

  datatype Container = Container(image: string, labels: map<string, string>, running: bool)

  datatype Server = Server(name: Name, weight: nat)

  /** The proxy container: the config file as written, and the one nginx has loaded. */
  datatype Proxy = Absent | Up(written: Option<seq<Server>>, loaded: Option<seq<Server>>)

  /** What holds after one command; `failed` says whether a health check of the current operation has failed, and
      `probes` how many checks there have been. */
  datatype Snapshot = Snapshot(containers: map<Name, Container>, proxy: Proxy, failed: bool, probes: nat)

  predicate Runs(containers: map<Name, Container>, name: Name) {
    name in containers && containers[name].running
  }

  /** nginx has loaded upstreams, and each of them is a running container. */
  ghost predicate Serves(containers: map<Name, Container>, proxy: Proxy) {
    && proxy.Up? && proxy.loaded.Some? && proxy.loaded.value != []
    && forall i :: 0 <= i < |proxy.loaded.value| ==> Runs(containers, proxy.loaded.value[i].name)
  }

  function Servers(names: seq<Name>): seq<Server> {
    seq(|names|, i requires 0 <= i < |names| => Server(names[i], 1))
  }

  /** The first `n` checks from number `p` on all pass. */
  ghost predicate AllPass(verdict: nat -> bool, p: nat, n: nat) {
    forall j: nat :: p <= j < p + n ==> verdict(j)
  }

  /** Check `k`, counted from number `p`, is the first to fail. */
  ghost predicate FirstFailure(verdict: nat -> bool, p: nat, k: nat) {
    AllPass(verdict, p, k) && !verdict(p + k)
  }

  /** One more check. */
  lemma OneMoreCheck(verdict: nat -> bool, p: nat, n: nat)
    requires AllPass(verdict, p, n)
    ensures verdict(p + n) ==> AllPass(verdict, p, n + 1)
    ensures !verdict(p + n) ==> FirstFailure(verdict, p, n)
  {
  }

  /** Checks made in two stretches. */
  lemma ChecksInTwo(verdict: nat -> bool, p: nat, m: nat, n: nat)
    requires AllPass(verdict, p, m)
    ensures AllPass(verdict, p + m, n) ==> AllPass(verdict, p, m + n)
    ensures FirstFailure(verdict, p + m, n) ==> FirstFailure(verdict, p, m + n)
  {
  }

  /** Either all checks pass or one is the first to fail, not both. */
  lemma FirstFailureExcludes(verdict: nat -> bool, p: nat, k: nat, n: nat)
    requires FirstFailure(verdict, p, k) && k < n
    ensures !AllPass(verdict, p, n)
  {
  }

  class Host {
    /** What the health checks will find, one after the other: any function at all. */
    const verdict: nat -> bool
    var containers: map<Name, Container>
    var proxy: Proxy
    var probes: nat
    ghost var failed: bool
    ghost var trace: seq<Snapshot>

    constructor (verdict: nat -> bool)
      ensures containers == map[] && proxy == Absent && !failed && trace == []
    {
      this.verdict := verdict;
      containers, proxy, probes := map[], Absent, 0;
      failed, trace := false, [];
    }

    ghost function Now(): Snapshot
      reads this
    {
      Snapshot(containers, proxy, failed, probes)
    }

    /** A new operation has seen no failed check yet. */
    ghost method Begin()
      modifies this`failed
      ensures !failed
    {
      failed := false;
    }

    /** `docker run --name`: refused when the name is taken. */
    method Run(name: Name, image: string, labels: map<string, string>)
      requires name !in containers
      modifies this`containers, this`trace
      ensures containers == old(containers)[name := Container(image, labels, true)]
      ensures trace == old(trace) + [Now()]
    {
      containers := containers[name := Container(image, labels, true)];
      trace := trace + [Now()];
    }

    /** `docker stop`: nothing to do for an unknown name. */
    method Stop(name: Name)
      modifies this`containers, this`trace
      ensures containers ==
        if name in old(containers) then old(containers)[name := old(containers)[name].(running := false)] else old(containers)
      ensures trace == old(trace) + [Now()]
    {
      if name in containers {
        containers := containers[name := containers[name].(running := false)];
      }
      trace := trace + [Now()];
    }

    /** `docker rm -f`. */
    method Remove(name: Name)
      modifies this`containers, this`trace
      ensures containers == old(containers) - {name}
      ensures trace == old(trace) + [Now()]
    {
      containers := containers - {name};
      trace := trace + [Now()];
    }

    method RemoveIfExists(name: Name)
      modifies this`containers, this`trace
      ensures containers == old(containers) - {name}
      ensures name !in old(containers) ==> trace == old(trace)
      ensures name in old(containers) ==>
        trace == old(trace)
          + [Snapshot(old(containers)[name := old(containers)[name].(running := false)], proxy, failed, probes), Now()]
    {
      if name in containers {
        Stop(name);
        Remove(name);
      }
    }

    function Inspect(name: Name): Option<Container>
      reads this
    {
      if name in containers then Some(containers[name]) else None
    }

    function IsRunning(name: Name): bool
      reads this
    {
      Runs(containers, name)
    }

    /** Wait for a container to become healthy, or probe it: the next verdict. */
    method CheckHealth() returns (passed: bool)
      modifies this`probes, this`failed, this`trace
      ensures passed == verdict(old(probes)) && probes == old(probes) + 1
      ensures failed == (old(failed) || !passed)
      ensures trace == old(trace) + [Now()]
    {
      passed := verdict(probes);
      probes := probes + 1;
      failed := failed || !passed;
      trace := trace + [Now()];
    }

    /** Start the proxy container unless it runs. */
    method EnsureProxy()
      modifies this`proxy, this`trace
      ensures proxy == if old(proxy).Up? then old(proxy) else Up(None, None)
      ensures trace == if old(proxy).Up? then old(trace) else old(trace) + [Now()]
    {
      if proxy.Absent? {
        proxy := Up(None, None);
        trace := trace + [Now()];
      }
    }

    method WriteConfig(servers: seq<Server>)
      requires proxy.Up?
      modifies this`proxy, this`trace
      ensures proxy == old(proxy).(written := Some(servers))
      ensures trace == old(trace) + [Now()]
    {
      proxy := proxy.(written := Some(servers));
      trace := trace + [Now()];
    }

    /** `nginx -t` refuses an empty upstream block, a weight of 0 and names that do not resolve; otherwise the
        written config is loaded. */
    method Reload()
      requires proxy.Up? && proxy.written.Some? && proxy.written.value != []
      requires forall i :: 0 <= i < |proxy.written.value| ==>
        Runs(containers, proxy.written.value[i].name) && proxy.written.value[i].weight > 0
      modifies this`proxy, this`trace
      ensures proxy == old(proxy).(loaded := old(proxy).written)
      ensures trace == old(trace) + [Now()]
    {
      proxy := proxy.(loaded := proxy.written);
      trace := trace + [Now()];
    }

    method RemoveProxy()
      modifies this`proxy, this`trace
      ensures proxy == Absent
      ensures trace == old(trace) + [Now()]
    {
      proxy := Absent;
      trace := trace + [Now()];
    }
  }
}

/** The monitor loop: what it keeps about each deployment from one tick to the next. */
module HealthMonitoring {
  import opened Collections
  import opened Remediation

  /** A running application container, as found by its labels. */
  datatype Discovered = Discovered(deploymentId: string, containerName: string, imageTag: string, previousImage: Option<string>)

  datatype DeploymentRef = DeploymentRef(containerName: string, currentImageTag: string, previousImageTag: Option<string>)

  datatype Deployment = Deployment(ref: DeploymentRef, health: Monitored)

  function RefOf(d: Discovered): DeploymentRef {
    DeploymentRef(d.containerName, d.imageTag, d.previousImage)
  }

  /** The last container found for a deployment is the one that is watched. */
  function LastRef(found: seq<Discovered>, id: string): Option<DeploymentRef> {
    if found == [] then None
    else if found[|found| - 1].deploymentId == id then Some(RefOf(found[|found| - 1]))
    else LastRef(found[..|found| - 1], id)
  }

  /** The checks of one deployment since it was last missing from a tick. */
  type History = seq<Observation>

  /** What is remembered of a deployment; one that was not there before starts anew. */
  function HistoryOf(histories: map<string, History>, id: string): History {
    if id in histories then histories[id] else []
  }

  lemma OneCheckMore(history: History, o: Observation)
    ensures After(history + [o]) == CheckOne(After(history), o)
  {
    assert (history + [o])[..|history|] == history;
  }

  lemma NothingChecked()
    ensures After([]) == Fresh()
  {
  }

  class HealthMonitor {
    var deployments: map<string, Deployment>
    var isChecking: bool
    /** Every check of each deployment since it was discovered. */
    ghost var histories: map<string, History>

    ghost predicate Valid()
      reads this
    {
      && deployments.Keys == histories.Keys
      && forall id :: id in deployments ==> deployments[id].health == After(histories[id])
    }

    constructor ()
      ensures Valid() && deployments == map[] && !isChecking
    {
      deployments, isChecking, histories := map[], false, map[];
    }

    /** Known deployments keep their window and ladder, new ones start fresh, missing ones are dropped. */
    method Reconcile(found: seq<Discovered>) returns (next: map<string, Deployment>)
      ensures forall id :: id in next <==> LastRef(found, id).Some?
      ensures forall id :: id in next ==>
        && next[id].ref == LastRef(found, id).value
        && next[id].health == if id in deployments then deployments[id].health else Fresh()
    {
      next := map[];
      for i := 0 to |found|
        invariant forall id :: id in next <==> LastRef(found[..i], id).Some?
        invariant forall id :: id in next ==>
          && next[id].ref == LastRef(found[..i], id).value
          && next[id].health == if id in deployments then deployments[id].health else Fresh()
      {
        assert found[..i + 1][..i] == found[..i];
        var d := found[i];
        var health := if d.deploymentId in deployments then deployments[d.deploymentId].health else Fresh();
        next := next[d.deploymentId := Deployment(RefOf(d), health)];
      }
      assert found[..|found|] == found;
    }

    /** Check each deployment once. */
    method CheckAll(reconciled: map<string, Deployment>, look: string -> Observation)
      returns (updated: map<string, Deployment>)
      ensures updated.Keys == reconciled.Keys
      ensures forall id :: id in updated ==>
        updated[id] == reconciled[id].(health := CheckOne(reconciled[id].health, look(id)))
    {
      updated := map[];
      var rest := reconciled.Keys;
      while rest != {}
        invariant rest <= reconciled.Keys && updated.Keys == reconciled.Keys - rest
        invariant forall id :: id in updated ==>
          updated[id] == reconciled[id].(health := CheckOne(reconciled[id].health, look(id)))
        decreases |rest|
      {
        var id :| id in rest;
        updated := updated[id := reconciled[id].(health := CheckOne(reconciled[id].health, look(id)))];
        rest := rest - {id};
      }
    }

    /** One tick. A tick that starts while another runs does nothing; a failed discovery changes nothing. Otherwise
        the state kept for every deployment still found is the fold over one more check. */
    method Tick(discovery: Option<seq<Discovered>>, look: string -> Observation)
      requires Valid()
      modifies this
      ensures Valid() && isChecking == old(isChecking)
      ensures old(isChecking) || discovery.None? ==> deployments == old(deployments) && histories == old(histories)
      ensures !old(isChecking) && discovery.Some? ==>
        && (forall id :: id in deployments <==> LastRef(discovery.value, id).Some?)
        && (forall id :: id in deployments ==>
            && deployments[id].ref == LastRef(discovery.value, id).value
            && histories[id] == HistoryOf(old(histories), id) + [look(id)])
    {
      hide After, CheckOne, RefOf;
      NothingChecked();
      if isChecking {
        return;
      }
      isChecking := true;
      if discovery.Some? {
        var reconciled := Reconcile(discovery.value);
        var updated := CheckAll(reconciled, look);
        ghost var grown := map id | id in updated :: HistoryOf(histories, id) + [look(id)];
        forall id | id in updated ensures updated[id].health == After(grown[id]) {
          OneCheckMore(HistoryOf(histories, id), look(id));
        }
        deployments := updated;
        histories := grown;
      }
      isChecking := false;
    }

    /** So at any time the monitor's state obeys the ladder: never more than three restarts, each after its backoff,
        and a window of the last ten checks. */
    lemma StateObeysTheLadder(id: string)
      requires Valid() && id in deployments
      ensures id in histories
      ensures deployments[id].health.remediation.restartCount <= MAX_RESTART_ATTEMPTS
      ensures Spaced(histories[id], Restarts(histories[id], |histories[id]|), |histories[id]|)
      ensures deployments[id].health.window.entries == LastOf(Entries(histories[id]), HEALTH_CHECK_WINDOW_SIZE)
    {
      var h := histories[id];
      assert h[..|h|] == h;
      LadderIsClimbed(h, |h|);
      WindowIsLastChecks(h);
      hide After, Restarts, Spaced;
    }
  }
}

/**
 * Safety of pipeline runs, over every interleaving, every verdict and every
 * moment of cancellation.
 */
module ExecutorSafety {
  import opened Collections
  import opened Dag
  import opened DagGroups
  import opened StatusTables
  import opened TaskMachine
  import opened Executor

  // ---- Facts about the plan ----

  lemma {:induction false} FlattenSplit<T>(ss: seq<seq<T>>, g: nat)
    requires g <= |ss|
    ensures Flatten(ss) == Flatten(ss[..g]) + Flatten(ss[g..])
  {
    if g == 0 {
      assert ss[0..] == ss;
    } else {
      FlattenSplit(ss[1..], g - 1);
      assert ss[..g][1..] == ss[1..][..g - 1];
      assert ss[1..][g - 1..] == ss[g..];
    }
  }

  lemma {:induction false} FlattenHas<T>(ss: seq<seq<T>>, h: nat, x: T)
    requires h < |ss| && x in ss[h]
    ensures x in Flatten(ss)
  {
    if h > 0 {
      FlattenHas(ss[1..], h - 1, x);
    }
  }

  lemma GroupIsFresh<T>(before: seq<T>, group: seq<T>, after: seq<T>)
    requires Distinct(before + group + after)
    ensures Distinct(group) && forall x :: x in group ==> x !in before
  {
    var all := before + group + after;
    assert forall i :: 0 <= i < |before| ==> all[i] == before[i];
    assert forall i :: 0 <= i < |group| ==> all[|before| + i] == group[i];
  }

  lemma GroupDepsAreEarlier(c: Config, g: nat, x: string, d: string)
    requires Levels(c.t, c.groups) && g < |c.groups| && x in c.groups[g] && d in Deps(c, x)
    ensures d in Flatten(c.groups[..g])
  {
    assert Grounded(c.t, c.groups, g, x);
    assert InEarlierGroup(c.groups, g, d);
    var h :| 0 <= h < g && d in c.groups[h];
    FlattenHas(c.groups[..g], h, d);
  }

  lemma GroupFacts(c: Config, g: nat)
    requires c.Valid() && g < |c.groups|
    ensures Distinct(c.groups[g])
    ensures forall x :: x in Before(c, g + 1) <==> x in Before(c, g) || x in c.groups[g]
    ensures forall x :: x in c.groups[g] ==> x in c.t.deps && x !in Before(c, g)
    ensures forall x, d :: x in c.groups[g] && d in Deps(c, x) ==> d in Before(c, g)
  {
    PrefixSnoc(c.groups, g);
    FlattenSnoc(c.groups[..g], c.groups[g]);
    FlattenSplit(c.groups, g + 1);
    GroupIsFresh(Flatten(c.groups[..g]), c.groups[g], Flatten(c.groups[g + 1..]));
    hide Distinct, Flatten;
    forall x | x in c.groups[g] ensures x in c.t.deps {
      assert Grounded(c.t, c.groups, g, x);
    }
    forall x, d | x in c.groups[g] && d in Deps(c, x) ensures d in Before(c, g) {
      GroupDepsAreEarlier(c, g, x, d);
    }
  }

  // ---- Advancing the run ----

  lemma InvDomain(c: Config, s: State)
    requires Inv(c, s)
    ensures s.pcs.Keys == s.rows.Keys == c.specs.Keys == c.t.deps.Keys
  {
  }

  lemma InitHolds(c: Config)
    requires c.Valid()
    ensures Inv(c, Init(c))
  {
    assert c.groups[..0] == [];
  }

  ghost predicate Extends(o: map<string, Outcome>, o': map<string, Outcome>) {
    forall x :: x in o ==> x in o' && o'[x] == o[x]
  }

  lemma BlockedStays(c: Config, o: map<string, Outcome>, o': map<string, Outcome>, x: string)
    requires Extends(o, o')
    ensures Blocked(c, o, x) ==> Blocked(c, o', x)
    ensures DepsDecided(c, o, x) && Blocked(c, o', x) ==> Blocked(c, o, x)
  {
    if Blocked(c, o, x) {
      var d :| d in Deps(c, x) && d in o && o[d] != Success;
      assert d in o' && o'[d] != Success;
    }
    if DepsDecided(c, o, x) && Blocked(c, o', x) {
      var d :| d in Deps(c, x) && d in o' && o'[d] != Success;
      assert d in o && o[d] != Success;
    }
  }

  lemma SucceededStays(c: Config, o: map<string, Outcome>, o': map<string, Outcome>, x: string)
    requires Extends(o, o') && DepsSucceeded(c, o, x)
    ensures DepsSucceeded(c, o', x)
  {
  }

  lemma OutcomeStays(c: Config, o: map<string, Outcome>, o': map<string, Outcome>,
                     pcs: map<string, Pc>, pcs': map<string, Pc>, x: string)
    requires Extends(o, o') && x in o && OutcomeOk(c, o, pcs, x)
    requires x in pcs' && pcs'[x] == pcs[x]
    ensures OutcomeOk(c, o', pcs', x)
  {
    hide Blocked, DepsSucceeded;
    if o[x] == Skipped {
      BlockedStays(c, o, o', x);
    } else {
      SucceededStays(c, o, o', x);
    }
  }

  lemma PcChange(c: Config, outcomes: map<string, Outcome>, pcs: map<string, Pc>, pcs': map<string, Pc>)
    requires OutcomesInv(c, outcomes, pcs)
    requires forall x :: x in outcomes && x in pcs ==> x in pcs' && pcs'[x] == pcs[x]
    ensures OutcomesInv(c, outcomes, pcs')
  {
    forall x | x in outcomes ensures OutcomeOk(c, outcomes, pcs', x) {
      assert OutcomeOk(c, outcomes, pcs, x);
      hide Blocked, DepsSucceeded;
    }
  }

  /** Recording that `x` is skipped leaves the decided tasks alone. */
  lemma SkipOutcome(c: Config, outcomes: map<string, Outcome>, pcs: map<string, Pc>, x: string)
    requires OutcomesInv(c, outcomes, pcs) && x !in outcomes && x in pcs && pcs[x] == Ended(Skipped)
    requires Blocked(c, outcomes, x)
    ensures OutcomesInv(c, outcomes[x := Skipped], pcs)
  {
    var after := outcomes[x := Skipped];
    assert Extends(outcomes, after);
    hide Blocked, DepsSucceeded, Extends;
    forall y | y in after ensures OutcomeOk(c, after, pcs, y) {
      if y == x {
        BlockedStays(c, outcomes, after, x);
      } else {
        assert OutcomeOk(c, outcomes, pcs, y);
        OutcomeStays(c, outcomes, after, pcs, pcs, y);
      }
    }
  }

  lemma EnterGroupHolds(c: Config, s: State)
    requires c.Valid() && Inv(c, s) && s.phase.NextGroup?
    ensures Inv(c, EnterGroup(c, s, s.phase.g).value)
  {
    var g := s.phase.g;
    if g == |c.groups| {
      assert c.groups[..g] == c.groups;
    } else if !s.aborted {
      SkippingStarts(c, s.outcomes, s.pcs, g);
    }
    hide Blocked, DepsSucceeded, LocalInv, Replay, Flatten, RunsAfterDependencies, Config.Valid;
  }

  lemma SkippingStarts(c: Config, outcomes: map<string, Outcome>, pcs: map<string, Pc>, g: nat)
    requires c.Valid() && g < |c.groups|
    requires outcomes.Keys == Before(c, g) && OthersIdle(outcomes, pcs, {})
    ensures SkippingInv(c, outcomes, pcs, g, FilterBlocked(c, outcomes, c.groups[g], true), 0)
  {
    hide Config.Valid, Blocked, Before, Distinct;
    GroupFacts(c, g);
    var blocked := FilterBlocked(c, outcomes, c.groups[g], true);
    forall x | x in c.groups[g] ensures MemberOk(c, outcomes, blocked, x) {
    }
    assert blocked[..0] == [];
    assert blocked != [] ==> blocked[0] in c.groups[g];
  }

  lemma StartSkip(c: Config, outcomes: map<string, Outcome>, pcs: map<string, Pc>, g: nat, blocked: seq<string>, k: nat)
    requires SkippingInv(c, outcomes, pcs, g, blocked, k) && k < |blocked|
    ensures SkippingInv(c, outcomes, pcs[blocked[k] := SkipTask], g, blocked, k)
  {
    hide MemberOk, Before, Distinct;
  }

  lemma CurrentIsUndecided(c: Config, outcomes: map<string, Outcome>, pcs: map<string, Pc>,
                           g: nat, blocked: seq<string>, k: nat)
    requires c.Valid() && SkippingInv(c, outcomes, pcs, g, blocked, k) && k < |blocked|
    ensures blocked[k] !in outcomes && blocked[k] in c.t.deps && Blocked(c, outcomes, blocked[k])
  {
    hide Config.Valid, Before;
    GroupFacts(c, g);
    assert blocked[k] !in blocked[..k];
    assert MemberOk(c, outcomes, blocked, blocked[k]);
  }

  lemma RecordSkip(c: Config, outcomes: map<string, Outcome>, pcs: map<string, Pc>, g: nat, blocked: seq<string>,
                   k: nat)
    requires c.Valid() && SkippingInv(c, outcomes, pcs, g, blocked, k) && k < |blocked|
    requires blocked[k] in pcs && pcs[blocked[k]] == Ended(Skipped)
    ensures SkippingInv(c, outcomes[blocked[k] := Skipped], pcs, g, blocked, k + 1)
  {
    hide Config.Valid, Before, Blocked;
    CurrentIsUndecided(c, outcomes, pcs, g, blocked, k);
    GroupFacts(c, g);
    PrefixSnoc(blocked, k);
    var after := outcomes[blocked[k] := Skipped];
    assert k + 1 < |blocked| ==> blocked[k + 1] !in blocked[..k + 1] && blocked[k + 1] !in Before(c, g);
    forall x | x in c.groups[g] ensures MemberOk(c, after, blocked, x) {
      assert MemberOk(c, outcomes, blocked, x);
      BlockedStays(c, outcomes, after, x);
    }
    hide MemberOk, Distinct;
  }

  lemma SkippingHolds(c: Config, s: State)
    requires c.Valid() && Inv(c, s) && s.phase.Skipping?
    requires AdvanceSkipping(c, s, s.phase.g, s.phase.blocked, s.phase.k).Some?
    ensures Inv(c, AdvanceSkipping(c, s, s.phase.g, s.phase.blocked, s.phase.k).value)
  {
    hide Config.Valid, Blocked, OutcomesInv, Replay, RunsAfterDependencies, SkippingInv, RunningInv, LocalInv;
    var g, blocked, k := s.phase.g, s.phase.blocked, s.phase.k;
    SkippingIndex(c, s.outcomes, s.pcs, g, blocked, k);
    if k == |blocked| {
      LaunchLocals(c, s);
      LaunchPhase(c, s.outcomes, s.pcs, g, blocked);
    } else {
      CurrentIsUndecided(c, s.outcomes, s.pcs, g, blocked, k);
      if s.pcs[blocked[k]] == Unstarted {
        var x := blocked[k];
        UnstartedMayBegin(c.specs[x], s.aborted, s.rows[x]);
        StartSkip(c, s.outcomes, s.pcs, g, blocked, k);
        PcChange(c, s.outcomes, s.pcs, s.pcs[blocked[k] := SkipTask]);
      } else {
        RecordSkip(c, s.outcomes, s.pcs, g, blocked, k);
        SkipOutcome(c, s.outcomes, s.pcs, blocked[k]);
      }
    }
  }

  lemma SkippingIndex(c: Config, outcomes: map<string, Outcome>, pcs: map<string, Pc>, g: nat, blocked: seq<string>,
                      k: nat)
    requires SkippingInv(c, outcomes, pcs, g, blocked, k)
    ensures g < |c.groups| && k <= |blocked|
  {
  }

  lemma UnblockedSucceeded(c: Config, outcomes: map<string, Outcome>, x: string)
    requires DepsDecided(c, outcomes, x) && !Blocked(c, outcomes, x)
    ensures DepsSucceeded(c, outcomes, x)
  {
  }

  lemma RunnableMember(c: Config, outcomes: map<string, Outcome>, pcs: map<string, Pc>,
                       g: nat, blocked: seq<string>, x: string)
    requires c.Valid() && SkippingInv(c, outcomes, pcs, g, blocked, |blocked|)
    requires x in c.groups[g]
    ensures x !in outcomes <==> !Blocked(c, outcomes, x)
    ensures x !in outcomes ==> DepsSucceeded(c, outcomes, x) && (x in pcs ==> pcs[x] == Unstarted)
  {
    hide Config.Valid, Before, Distinct, Blocked, DepsSucceeded, DepsDecided;
    GroupFacts(c, g);
    assert blocked[..|blocked|] == blocked;
    assert MemberOk(c, outcomes, blocked, x);
    if x !in outcomes {
      UnblockedSucceeded(c, outcomes, x);
    }
  }

  lemma LaunchPhase(c: Config, outcomes: map<string, Outcome>, pcs: map<string, Pc>, g: nat, blocked: seq<string>)
    requires c.Valid() && SkippingInv(c, outcomes, pcs, g, blocked, |blocked|)
    ensures var runnable := FilterBlocked(c, outcomes, c.groups[g], false);
      && RunningInv(c, outcomes, Launch(pcs, runnable), g, runnable)
      && (forall x :: x in runnable && x in pcs ==> x !in outcomes && pcs[x] == Unstarted)
  {
    hide Config.Valid, Before, Distinct, Blocked, DepsSucceeded, MemberOk, FilterBlocked;
    GroupFacts(c, g);
    var runnable := FilterBlocked(c, outcomes, c.groups[g], false);
    assert blocked[..|blocked|] == blocked;
    forall x | x in c.groups[g]
      ensures x in runnable <==> x !in outcomes
      ensures x !in outcomes ==> DepsSucceeded(c, outcomes, x) && (x in pcs ==> pcs[x] == Unstarted)
    {
      RunnableMember(c, outcomes, pcs, g, blocked, x);
    }
  }

  lemma LaunchLocals(c: Config, s: State)
    requires c.Valid() && Inv(c, s) && s.phase.Skipping? && s.phase.k == |s.phase.blocked|
    ensures var pcs := Launch(s.pcs, FilterBlocked(c, s.outcomes, c.groups[s.phase.g], false));
      LocalsInv(c, s.aborted, pcs, s.rows) && OutcomesInv(c, s.outcomes, pcs)
  {
    hide Config.Valid, Blocked, OutcomesInv, Replay, RunsAfterDependencies, RunningInv, FilterBlocked;
    var runnable := FilterBlocked(c, s.outcomes, c.groups[s.phase.g], false);
    LaunchPhase(c, s.outcomes, s.pcs, s.phase.g, s.phase.blocked);
    PcChange(c, s.outcomes, s.pcs, Launch(s.pcs, runnable));
  }

  // ---- Finishing a group ----

  lemma RunningHolds(c: Config, s: State)
    requires c.Valid() && Inv(c, s) && s.phase.Running?
    requires AdvanceRunning(s, s.phase.g, s.phase.runnable).Some?
    ensures Inv(c, AdvanceRunning(s, s.phase.g, s.phase.runnable).value)
  {
    hide Config.Valid, Blocked, OutcomesInv, Replay, RunsAfterDependencies, LocalsInv, Before;
    var g, runnable := s.phase.g, s.phase.runnable;
    CollectOutcomes(c, s.outcomes, s.pcs, runnable);
    var after := Collect(s.outcomes, s.pcs, runnable);
    assert after.Keys == Before(c, g + 1);
    assert OthersIdle(after, s.pcs, {});
  }

  lemma CollectOutcomes(c: Config, outcomes: map<string, Outcome>, pcs: map<string, Pc>, runnable: seq<string>)
    requires OutcomesInv(c, outcomes, pcs)
    requires forall x :: x in runnable ==> x in pcs && pcs[x].Ended? && !SkipPath(pcs[x])
    requires forall x :: x in runnable ==> x !in outcomes && DepsSucceeded(c, outcomes, x)
    ensures OutcomesInv(c, Collect(outcomes, pcs, runnable), pcs)
  {
    hide Blocked, DepsSucceeded, Extends;
    var after := Collect(outcomes, pcs, runnable);
    assert Extends(outcomes, after) by {
      CollectExtends(outcomes, pcs, runnable);
    }
    forall x | x in after ensures OutcomeOk(c, after, pcs, x) {
      if x in runnable {
        SucceededStays(c, outcomes, after, x);
      } else {
        assert OutcomeOk(c, outcomes, pcs, x);
        OutcomeStays(c, outcomes, after, pcs, pcs, x);
      }
    }
  }

  lemma CollectExtends(outcomes: map<string, Outcome>, pcs: map<string, Pc>, runnable: seq<string>)
    requires forall x :: x in runnable ==> x in pcs && pcs[x].Ended? && x !in outcomes
    ensures Extends(outcomes, Collect(outcomes, pcs, runnable))
  {
  }

  // ---- After the groups ----

  lemma EverythingIsInAGroup(c: Config)
    requires c.Valid()
    ensures Elements(Flatten(c.groups)) == c.t.deps.Keys && Distinct(Flatten(c.groups))
  {
    hide Levels;
  }

  lemma CancellationStarts(c: Config, s: State)
    requires c.Valid() && Inv(c, s) && s.phase.AfterLoop? && s.aborted
    ensures var todo := Missing(Flatten(c.groups), s.outcomes);
      CancelInv(c, s.(phase := CancelUnstarted(todo, 0)), todo, 0)
  {
    hide Config.Valid, Blocked, OutcomesInv, Replay, RunsAfterDependencies, LocalInv, Distinct, Flatten, Missing;
    EverythingIsInAGroup(c);
    InvDomain(c, s);
    hide LocalsInv;
    var todo := Missing(Flatten(c.groups), s.outcomes);
    forall x ensures x in todo <==> x in c.t.deps && x !in s.outcomes {
      assert x in Flatten(c.groups) <==> x in Elements(Flatten(c.groups));
    }
    assert todo != [] ==> todo[0] in todo && todo[0] in s.pcs;
  }

  lemma AfterLoopHolds(c: Config, s: State)
    requires c.Valid() && Inv(c, s) && s.phase.AfterLoop?
    ensures Inv(c, Advanced(c, s).value)
  {
    hide Config.Valid, Blocked, OutcomesInv, Replay, RunsAfterDependencies, LocalsInv, Distinct, Flatten, CancelInv, Missing;
    if s.aborted {
      CancellationStarts(c, s);
    } else {
      InvDomain(c, s);
      DecidedAreEnded(c, s.outcomes, s.pcs);
    }
  }

  lemma DecidedAreEnded(c: Config, outcomes: map<string, Outcome>, pcs: map<string, Pc>)
    requires OutcomesInv(c, outcomes, pcs)
    ensures forall x :: x in outcomes ==> x in pcs && pcs[x] == Ended(outcomes[x])
  {
    hide Blocked, DepsSucceeded;
    forall x | x in outcomes ensures x in pcs && pcs[x] == Ended(outcomes[x]) {
      assert OutcomeOk(c, outcomes, pcs, x);
    }
  }

  lemma StartCancelHolds(c: Config, s: State)
    requires c.Valid() && Inv(c, s) && s.phase.CancelUnstarted? && s.phase.k < |s.phase.todo|
    requires PcOf(s, s.phase.todo[s.phase.k]) == Unstarted
    ensures Inv(c, AdvanceCancelling(c, s, s.phase.todo, s.phase.k).value)
  {
    hide Config.Valid, Blocked, OutcomesInv, Replay, RunsAfterDependencies, LocalInv, Flatten;
    var todo, k := s.phase.todo, s.phase.k;
    var x := todo[k];
    assert x in todo;
    UnstartedMayBegin(c.specs[x], s.aborted, s.rows[x]);
    PcChange(c, s.outcomes, s.pcs, s.pcs[x := Cancelling(StepsFrom(0, c.specs[x].steps), true)]);
    hide LocalsInv;
    assert CancelInv(c, AdvanceCancelling(c, s, todo, k).value, todo, k);
  }

  lemma FinishCancelHolds(c: Config, s: State)
    requires c.Valid() && Inv(c, s) && s.phase.CancelUnstarted? && s.phase.k == |s.phase.todo|
    ensures AllEnded(s.pcs)
  {
    hide Config.Valid, Blocked, OutcomesInv, Replay, RunsAfterDependencies, LocalInv, Flatten, Distinct;
    DecidedAreEnded(c, s.outcomes, s.pcs);
    var todo := s.phase.todo;
    forall x | x in s.pcs ensures s.pcs[x].Ended? {
      if x !in s.outcomes {
        assert x in todo;
        var i :| 0 <= i < |todo| && todo[i] == x;
        assert PcOf(s, todo[i]).Ended?;
      }
    }
  }

  lemma CancellingHolds(c: Config, s: State)
    requires c.Valid() && Inv(c, s) && s.phase.CancelUnstarted?
    requires AdvanceCancelling(c, s, s.phase.todo, s.phase.k).Some?
    ensures Inv(c, AdvanceCancelling(c, s, s.phase.todo, s.phase.k).value)
  {
    hide Config.Valid, Blocked, OutcomesInv, Replay, RunsAfterDependencies, LocalsInv, Flatten, Distinct;
    var todo, k := s.phase.todo, s.phase.k;
    if k == |todo| {
      FinishCancelHolds(c, s);
    } else if PcOf(s, todo[k]) == Unstarted {
      StartCancelHolds(c, s);
    } else {
      assert CancelInv(c, AdvanceCancelling(c, s, todo, k).value, todo, k + 1);
    }
  }

  lemma AdvanceHolds(c: Config, s: State)
    requires c.Valid() && Inv(c, s) && Advanced(c, s).Some?
    ensures Inv(c, Advanced(c, s).value)
  {
    hide Config.Valid, Blocked, OutcomesInv, Replay, RunsAfterDependencies, LocalsInv, Flatten, CancelInv, RunningInv, SkippingInv;
    match s.phase
    case NextGroup(_) => EnterGroupHolds(c, s);
    case Skipping(_, _, _) => SkippingHolds(c, s);
    case Running(_, _) => RunningHolds(c, s);
    case AfterLoop => AfterLoopHolds(c, s);
    case CancelUnstarted(_, _) => CancellingHolds(c, s);
    case Returned =>
    case Finished(_) =>
  }

  // ---- Moves of a task ----

  lemma MoveKeepsSkipping(c: Config, outcomes: map<string, Outcome>, pcs: map<string, Pc>,
                          g: nat, blocked: seq<string>, k: nat, x: string, pc: Pc)
    requires SkippingInv(c, outcomes, pcs, g, blocked, k) && x in pcs && x !in outcomes
    requires pcs[x] != Unstarted && pc != Unstarted && SkipPath(pc) == SkipPath(pcs[x])
    ensures SkippingInv(c, outcomes, pcs[x := pc], g, blocked, k)
  {
    hide MemberOk, Before, Distinct;
  }

  lemma MoveKeepsRunning(c: Config, outcomes: map<string, Outcome>, pcs: map<string, Pc>,
                         g: nat, runnable: seq<string>, x: string, pc: Pc)
    requires RunningInv(c, outcomes, pcs, g, runnable) && x in pcs && x !in outcomes
    requires pcs[x] != Unstarted && pc != Unstarted && SkipPath(pc) == SkipPath(pcs[x])
    ensures RunningInv(c, outcomes, pcs[x := pc], g, runnable)
  {
    hide DepsSucceeded, Before;
  }

  lemma MoveKeepsCancel(c: Config, s: State, todo: seq<string>, k: nat, x: string, pc: Pc)
    requires CancelInv(c, s, todo, k) && x in s.pcs && x in c.t.deps && x !in s.outcomes
    requires s.pcs[x] != Unstarted && !s.pcs[x].Ended? && (CancelPath(s.pcs[x]) ==> CancelPath(pc))
    ensures CancelInv(c, s.(pcs := s.pcs[x := pc]), todo, k)
  {
    assert x in todo;
  }

  /** A moving task is neither decided nor idle, so the phase knows about it. */
  lemma MoveKeepsPhase(c: Config, s: State, x: string, choice: Choice)
    requires Inv(c, s) && x in s.pcs
    requires x in c.specs && LocalMove(c.specs[x], s.aborted, s.pcs[x], choice).Some?
    ensures x !in s.outcomes
    ensures PhaseInv(c, s.(pcs := s.pcs[x := LocalMove(c.specs[x], s.aborted, s.pcs[x], choice).value.pc]))
  {
    hide Config.Valid, Blocked, Replay, RunsAfterDependencies, LocalInv, Flatten, OutcomesInv, LocalMove,
      SkippingInv, RunningInv, CancelInv, FinalVerdict, Distinct;
    InvDomain(c, s);
    PathsAreClosed(c.specs[x], s.aborted, s.pcs[x], choice);
    DecidedAreEnded(c, s.outcomes, s.pcs);
    hide LocalsInv;
    var pc := LocalMove(c.specs[x], s.aborted, s.pcs[x], choice).value.pc;
    match s.phase
    case Skipping(g, blocked, k) => MoveKeepsSkipping(c, s.outcomes, s.pcs, g, blocked, k, x, pc);
    case Running(g, runnable) => MoveKeepsRunning(c, s.outcomes, s.pcs, g, runnable, x, pc);
    case CancelUnstarted(todo, k) => MoveKeepsCancel(c, s, todo, k, x, pc);
    case _ =>
  }

  lemma MoveKeepsRows(c: Config, s: State, x: string, choice: Choice)
    requires Inv(c, s) && x in s.pcs && x in s.rows
    requires x in c.specs && LocalMove(c.specs[x], s.aborted, s.pcs[x], choice).Some?
    ensures var s' := Moved(s, x, LocalMove(c.specs[x], s.aborted, s.pcs[x], choice).value);
      LocalsInv(c, s'.aborted, s'.pcs, s'.rows) && Replay(c, s'.log) == Some(s'.rows)
  {
    hide Config.Valid, Blocked, RunsAfterDependencies, LocalInv, Flatten, OutcomesInv, LocalMove, PhaseInv;
    LocalMoveIsLegal(c.specs[x], s.aborted, s.pcs[x], s.rows[x], choice);
    var m := LocalMove(c.specs[x], s.aborted, s.pcs[x], choice).value;
    var s' := Moved(s, x, m);
    if m.report.Some? {
      assert s'.log[..|s.log|] == s.log;
    }
  }

  /** Outcomes propagate along dependencies. */
  lemma {:induction false} WalkSucceeded(c: Config, outcomes: map<string, Outcome>, pcs: map<string, Pc>,
                                         x: string, w: seq<string>, i: nat)
    requires OutcomesInv(c, outcomes, pcs) && DepsSucceeded(c, outcomes, x)
    requires WalkFrom(c.t, x, w) && 0 < i < |w|
    ensures w[i] in outcomes && outcomes[w[i]] == Success
  {
    if i > 1 {
      WalkSucceeded(c, outcomes, pcs, x, w, i - 1);
      assert OutcomeOk(c, outcomes, pcs, w[i - 1]);
    }
    assert w[i] in Deps(c, w[i - 1]);
  }

  /** What a row says was reported. */
  lemma {:induction false} RowWasReported(c: Config, log: seq<Entry>, d: string)
    requires Replay(c, log).Some? && d in Replay(c, log).value
    requires Replay(c, log).value[d].task == TaskSuccess
    ensures SucceededIn(log, d)
  {
    if log != [] {
      var rest, last := log[..|log| - 1], log[|log| - 1];
      var rows := Replay(c, rest).value;
      assert log == rest + [last];
      if d in rows && rows[d].task == TaskSuccess {
        RowWasReported(c, rest, d);
      }
    }
  }

  lemma SuccessIsLogged(c: Config, s: State, d: string)
    requires Inv(c, s) && d in s.outcomes && s.outcomes[d] == Success
    ensures SucceededIn(s.log, d)
  {
    hide Config.Valid, Blocked, RunsAfterDependencies, Flatten, PhaseInv, Replay;
    DecidedAreEnded(c, s.outcomes, s.pcs);
    assert LocalInv(c.specs[d], s.aborted, s.pcs[d], s.rows[d]);
    RowWasReported(c, s.log, d);
  }

  lemma RunningTaskMayRun(c: Config, s: State, x: string, choice: Choice)
    requires Inv(c, s) && x in s.pcs && x in c.specs
    requires LocalMove(c.specs[x], s.aborted, s.pcs[x], choice).Some?
    requires LocalMove(c.specs[x], s.aborted, s.pcs[x], choice).value.report == Some(TaskReport(TaskRunning))
    ensures DepsSucceeded(c, s.outcomes, x)
  {
    hide Config.Valid, Blocked, Replay, RunsAfterDependencies, LocalInv, Flatten, OutcomesInv, LocalMove, MemberOk, Before,
      DepsSucceeded, FinalVerdict, Distinct;
    InvDomain(c, s);
    PathsAreClosed(c.specs[x], s.aborted, s.pcs[x], choice);
    DecidedAreEnded(c, s.outcomes, s.pcs);
  }

  lemma MoveKeepsOrder(c: Config, s: State, x: string, choice: Choice)
    requires Inv(c, s) && x in s.pcs && x in s.rows && x in c.specs
    requires LocalMove(c.specs[x], s.aborted, s.pcs[x], choice).Some?
    ensures RunsAfterDependencies(c, Moved(s, x, LocalMove(c.specs[x], s.aborted, s.pcs[x], choice).value).log)
  {
    hide Config.Valid, Blocked, Replay, LocalInv, Flatten, LocalMove, PhaseInv, Walk, SucceededIn;
    var m := LocalMove(c.specs[x], s.aborted, s.pcs[x], choice).value;
    var log := Moved(s, x, m).log;
    forall i, d | 0 <= i < |log| && log[i].report == TaskReport(TaskRunning) && TransitiveDependency(c.t, log[i].task, d)
      ensures SucceededIn(log[..i], d)
    {
      if i < |s.log| {
        assert log[..i] == s.log[..i];
      } else {
        assert log[..i] == s.log;
        RunningTaskMayRun(c, s, x, choice);
        var w :| WalkFrom(c.t, x, w) && |w| > 1 && w[|w| - 1] == d;
        WalkSucceeded(c, s.outcomes, s.pcs, x, w, |w| - 1);
        SuccessIsLogged(c, s, d);
      }
    }
  }

  lemma TaskMoveHolds(c: Config, s: State, x: string, choice: Choice)
    requires Inv(c, s) && Step(c, s, TaskMove(x, choice)).Some?
    ensures Inv(c, Step(c, s, TaskMove(x, choice)).value)
  {
    hide Config.Valid, Blocked, Replay, LocalInv, Flatten, LocalMove, OutcomesInv, RunsAfterDependencies, LocalsInv;
    MoveKeepsPhase(c, s, x, choice);
    MoveKeepsRows(c, s, x, choice);
    MoveKeepsOrder(c, s, x, choice);
    var m := LocalMove(c.specs[x], s.aborted, s.pcs[x], choice).value;
    PcChange(c, s.outcomes, s.pcs, s.pcs[x := m.pc]);
    PhaseIgnoresRows(c, s.(pcs := s.pcs[x := m.pc]), Moved(s, x, m));
  }

  lemma PhaseIgnoresRows(c: Config, s: State, s': State)
    requires PhaseInv(c, s)
    requires s'.phase == s.phase && s'.aborted == s.aborted && s'.outcomes == s.outcomes && s'.pcs == s.pcs
    ensures PhaseInv(c, s')
  {
    hide SkippingInv, RunningInv, OthersIdle;
  }

  lemma AbortHolds(c: Config, s: State)
    requires Inv(c, s) && !s.aborted && !s.phase.Finished?
    ensures Inv(c, s.(aborted := true))
  {
    hide Config.Valid, Blocked, Replay, LocalInv, Flatten, OutcomesInv, RunsAfterDependencies, RunningInv, SkippingInv, OthersIdle;
    forall x | x in s.pcs ensures LocalInv(c.specs[x], true, s.pcs[x], s.rows[x]) {
      AbortKeepsLocal(c.specs[x], s.pcs[x], s.rows[x]);
    }
  }

  // ---- Main results ----

  /** Every state of every run satisfies the invariant. */
  lemma {:induction false} InvariantHolds(c: Config, events: seq<Event>)
    requires c.Valid() && Run(c, events).Some?
    ensures Inv(c, Run(c, events).value)
  {
    hide Config.Valid, Inv, Init, Advanced;
    if events == [] {
      InitHolds(c);
    } else {
      var s, e := Run(c, events[..|events| - 1]).value, events[|events| - 1];
      InvariantHolds(c, events[..|events| - 1]);
      match e
      case Abort => AbortHolds(c, s);
      case Advance => AdvanceHolds(c, s);
      case TaskMove(x, choice) => TaskMoveHolds(c, s, x, choice);
    }
  }

  /** The control plane never has to refuse a report. */
  lemma EveryReportIsAccepted(c: Config, events: seq<Event>)
    requires c.Valid() && Run(c, events).Some?
    ensures Replay(c, Run(c, events).value.log).Some?
  {
    hide Config.Valid;
    InvariantHolds(c, events);
  }

  /** A task is marked running only after all its transitive dependencies succeeded. */
  lemma RunningOnlyAfterDependencies(c: Config, events: seq<Event>, i: nat, d: string)
    requires c.Valid() && Run(c, events).Some?
    requires i < |Run(c, events).value.log|
    requires Run(c, events).value.log[i].report == TaskReport(TaskRunning)
    requires TransitiveDependency(c.t, Run(c, events).value.log[i].task, d)
    ensures Entry(d, TaskReport(TaskSuccess)) in Run(c, events).value.log[..i]
  {
    hide Config.Valid, Replay, TransitiveDependency;
    InvariantHolds(c, events);
    hide LocalsInv, OutcomesInv, PhaseInv;
    assert SucceededIn(Run(c, events).value.log[..i], d);
  }

  /** However a run ends, the control plane is left with terminal tasks and steps only. */
  lemma FinishedRunsAreTerminal(c: Config, events: seq<Event>)
    requires c.Valid() && Run(c, events).Some? && Run(c, events).value.phase.Finished?
    ensures var rows := Replay(c, Run(c, events).value.log);
      && rows.Some? && rows.value.Keys == c.t.deps.Keys
      && forall x :: x in rows.value ==> RowTerminal(rows.value[x])
  {
    hide Config.Valid, Replay, Run, OutcomesInv, RunsAfterDependencies, LocalInv;
    InvariantHolds(c, events);
    var s := Run(c, events).value;
    forall x | x in s.rows ensures RowTerminal(s.rows[x]) {
      EndedIsTerminal(c.specs[x], s.aborted, s.pcs[x], s.rows[x]);
    }
  }

  lemma EndedIsTerminal(spec: TaskSpec, aborted: bool, pc: Pc, row: Row)
    requires LocalInv(spec, aborted, pc, row) && pc.Ended?
    ensures RowTerminal(row) && row.task == StatusOf(pc.outcome)
    ensures pc == Ended(Cancelled) ==> aborted
  {
  }

  lemma FinishedState(c: Config, s: State)
    requires c.Valid() && Inv(c, s) && s.phase.Finished? && !s.aborted
    ensures s.rows.Keys == s.outcomes.Keys == c.t.deps.Keys
    ensures forall x :: x in s.rows ==> s.rows[x].task == StatusOf(s.outcomes[x]) && s.outcomes[x] != Cancelled
    ensures s.phase.verdict == FinalVerdict(s)
  {
    hide Config.Valid, Replay, RunsAfterDependencies, LocalInv, FinalVerdict, StatusOf;
    DecidedAreEnded(c, s.outcomes, s.pcs);
    forall x | x in s.rows ensures s.rows[x].task == StatusOf(s.outcomes[x]) && s.outcomes[x] != Cancelled {
      EndedIsTerminal(c.specs[x], s.aborted, s.pcs[x], s.rows[x]);
    }
  }

  lemma OutcomeAt(c: Config, outcomes: map<string, Outcome>, pcs: map<string, Pc>, x: string)
    requires OutcomesInv(c, outcomes, pcs) && x in outcomes
    ensures OutcomeOk(c, outcomes, pcs, x)
  {
  }

  lemma SkippedIffDependency(c: Config, outcomes: map<string, Outcome>, pcs: map<string, Pc>, x: string)
    requires Closed(c.t) && OutcomesInv(c, outcomes, pcs) && outcomes.Keys == c.t.deps.Keys && x in outcomes
    ensures outcomes[x] == Skipped <==>
      exists d :: d in outcomes && TransitiveDependency(c.t, x, d) && outcomes[d] != Success
  {
    hide OutcomesInv;
    assert OutcomeOk(c, outcomes, pcs, x) by { OutcomeAt(c, outcomes, pcs, x); }
    if outcomes[x] == Skipped {
      var d :| d in Deps(c, x) && d in outcomes && outcomes[d] != Success;
      assert WalkFrom(c.t, x, [x, d]);
      assert TransitiveDependency(c.t, x, d);
    } else {
      forall d | d in outcomes && TransitiveDependency(c.t, x, d) ensures outcomes[d] == Success {
        var w :| WalkFrom(c.t, x, w) && |w| > 1 && w[|w| - 1] == d;
        WalkSucceeded(c, outcomes, pcs, x, w, |w| - 1);
      }
    }
  }

  lemma PlansAreClosed(c: Config)
    requires c.Valid()
    ensures Closed(c.t)
  {
    hide Distinct, Levels;
    forall x, d | x in c.t.deps && d in c.t.deps[x] ensures d in c.t.deps {
      assert x in Elements(Flatten(c.groups));
      InFlatten(c.groups, x);
      var g :| 0 <= g < |c.groups| && x in c.groups[g];
      LevelsCloseGroup(c, g, x, d);
    }
  }

  lemma LevelsCloseGroup(c: Config, g: nat, x: string, d: string)
    requires c.Valid() && g < |c.groups| && x in c.groups[g] && d in Deps(c, x)
    ensures d in c.t.deps
  {
    hide Config.Valid;
    GroupFacts(c, g);
    GroupedTasksExist(c, g, d);
  }

  lemma GroupedTasksExist(c: Config, g: nat, x: string)
    requires c.Valid() && g <= |c.groups| && x in Before(c, g)
    ensures x in c.t.deps
  {
    hide Config.Valid;
    FlattenSplit(c.groups, g);
    EverythingIsInAGroup(c);
    assert x in Elements(Flatten(c.groups));
  }

  ghost predicate DependencyDidNotSucceed(c: Config, rows: map<string, Row>, x: string) {
    exists d :: d in rows && TransitiveDependency(c.t, x, d) && rows[d].task != TaskSuccess
  }

  /**
   * In a run that was never cancelled, a task is skipped exactly when one of
   * its transitive dependencies did not succeed, and the verdict is success
   * exactly when every task succeeded.
   */
  lemma UncancelledRuns(c: Config, events: seq<Event>)
    requires c.Valid() && Run(c, events).Some?
    requires Run(c, events).value.phase.Finished? && !Run(c, events).value.aborted
    ensures var s := Run(c, events).value; var rows := Replay(c, s.log);
      && rows.Some? && rows.value.Keys == c.t.deps.Keys
      && (forall x :: x in rows.value ==> rows.value[x].task in {TaskSuccess, TaskFailed, TaskSkipped})
      && (forall x :: x in rows.value ==>
            (rows.value[x].task == TaskSkipped <==> DependencyDidNotSucceed(c, rows.value, x)))
      && s.phase.verdict == Some(
           if forall x :: x in rows.value ==> rows.value[x].task == TaskSuccess then PipelineSuccess else PipelineFailed)
  {
    hide Config.Valid, Replay, Run, RunsAfterDependencies, LocalInv, TransitiveDependency, OutcomesInv;
    InvariantHolds(c, events);
    var s := Run(c, events).value;
    FinishedState(c, s);
    PlansAreClosed(c);
    hide Inv;
    assert Replay(c, s.log) == Some(s.rows) by { InvReplay(c, s); }
    forall x | x in s.rows ensures s.rows[x].task == TaskSkipped <==> DependencyDidNotSucceed(c, s.rows, x) {
      InvOutcomes(c, s);
      SkippedIffDependency(c, s.outcomes, s.pcs, x);
    }
  }

  lemma InvReplay(c: Config, s: State)
    requires Inv(c, s)
    ensures Replay(c, s.log) == Some(s.rows)
  {
  }

  lemma InvOutcomes(c: Config, s: State)
    requires Inv(c, s)
    ensures OutcomesInv(c, s.outcomes, s.pcs)
  {
  }

  /** A cancelled run reports no verdict, an uncancelled one always does. */
  lemma VerdictUnlessCancelled(c: Config, events: seq<Event>)
    requires c.Valid() && Run(c, events).Some? && Run(c, events).value.phase.Finished?
    ensures Run(c, events).value.phase.verdict.None? <==> Run(c, events).value.aborted
  {
    hide Config.Valid, Run;
    InvariantHolds(c, events);
  }

  /** No run gets stuck: until it is finished, something other than a cancellation can happen. */
  lemma RunsNeverGetStuck(c: Config, events: seq<Event>) returns (e: Event)
    requires c.Valid() && Run(c, events).Some? && !Run(c, events).value.phase.Finished?
    ensures e != Abort && Run(c, events + [e]).Some?
  {
    hide Config.Valid, Replay, RunsAfterDependencies, LocalInv, OutcomesInv, LocalMove;
    InvariantHolds(c, events);
    var s := Run(c, events).value;
    e := EnabledEvent(c, s);
    assert (events + [e])[..|events|] == events;
  }

  lemma EnabledEvent(c: Config, s: State) returns (e: Event)
    requires c.Valid() && Inv(c, s) && !s.phase.Finished?
    ensures e != Abort && Step(c, s, e).Some?
  {
    hide Config.Valid, Replay, RunsAfterDependencies, LocalInv, OutcomesInv, LocalMove, MemberOk, Before, Blocked,
      DepsSucceeded;
    InvDomain(c, s);
    e := Advance;
    match s.phase
    case Skipping(g, blocked, k) =>
      if k < |blocked| {
        CurrentIsUndecided(c, s.outcomes, s.pcs, g, blocked, k);
        e := TaskOrAdvance(c, s, blocked[k]);
      }
    case Running(g, runnable) =>
      if x :| x in runnable && !PcOf(s, x).Ended? {
        assert x in Before(c, g + 1);
        GroupedTasksExist(c, g + 1, x);
        e := TaskOrAdvance(c, s, x);
      } else {
        assert forall x :: x in runnable ==> x in s.pcs && s.pcs[x].Ended?;
      }
    case CancelUnstarted(todo, k) =>
      if k < |todo| {
        assert todo[k] in todo;
        e := TaskOrAdvance(c, s, todo[k]);
      }
    case _ =>
  }

  /** The task's next move if it is under way, otherwise the run's. */
  lemma TaskOrAdvance(c: Config, s: State, x: string) returns (e: Event)
    requires Inv(c, s) && x in c.t.deps
    ensures e != Abort
    ensures PcOf(s, x).Unstarted? || PcOf(s, x).Ended? ==> e == Advance
    ensures !(PcOf(s, x).Unstarted? || PcOf(s, x).Ended?) ==> Step(c, s, e).Some?
  {
    hide LocalMove, LocalInv;
    InvDomain(c, s);
    e := Advance;
    if !s.pcs[x].Unstarted? && !s.pcs[x].Ended? {
      var choice := NeverStuck(c.specs[x], s.aborted, s.pcs[x]);
      e := TaskMove(x, choice);
    }
  }
}

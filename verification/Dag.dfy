/**
 * The dependency graph of a pipeline: validation and resolution into parallel
 * groups, two different shapes of Kahn's algorithm.
 */
module Dag {
  import opened Collections

  /**
   * The tasks object: its keys in enumeration order and, for each key, the
   * `depends_on` list (empty when absent).
   */
  datatype TaskTable = TaskTable(names: seq<string>, deps: map<string, seq<string>>) {
    ghost predicate Valid() {
      Distinct(names) && deps.Keys == Elements(names)
    }
  }

  datatype DagError =
    | MissingDependency(task: string, dependency: string)
    | SelfDependency(task: string)
    | CycleAmong(tasks: seq<string>)

  datatype Resolution =
    | Resolved(groups: seq<seq<string>>, order: seq<string>)
    | Invalid(errors: seq<DagError>)
    | SafetyNet(remaining: seq<string>)

  // ---- Reference definitions: walks, cycles, chains ----

  /** A walk follows `depends_on` from task to task. */
  ghost predicate Walk(t: TaskTable, w: seq<string>) {
    && w != []
    && (forall i :: 0 <= i < |w| ==> w[i] in t.deps)
    && (forall i, j :: 0 <= i < j < |w| && j == i + 1 ==> w[j] in t.deps[w[i]])
  }

  ghost predicate WalkFrom(t: TaskTable, x: string, w: seq<string>) {
    Walk(t, w) && w[0] == x
  }

  ghost predicate Closed(t: TaskTable) {
    forall x, d :: x in t.deps && d in t.deps[x] ==> d in t.deps
  }

  ghost predicate DuplicateFree(t: TaskTable) {
    forall x :: x in t.deps ==> Distinct(t.deps[x])
  }

  /** No walk visits a task twice. */
  ghost predicate Acyclic(t: TaskTable) {
    forall w :: Walk(t, w) ==> Distinct(w)
  }

  ghost predicate Accepted(t: TaskTable) {
    Closed(t) && DuplicateFree(t) && Acyclic(t)
  }

  ghost predicate CycleReachable(t: TaskTable, x: string) {
    exists w :: WalkFrom(t, x, w) && !Distinct(w)
  }

  ghost predicate RepeatedDependencyReachable(t: TaskTable, x: string) {
    exists w :: WalkFrom(t, x, w) && !Distinct(t.deps[w[|w| - 1]])
  }

  /** The longest chain of dependencies below `x` has exactly `depth` edges. */
  ghost predicate LongestChain(t: TaskTable, x: string, depth: nat) {
    && (exists w :: WalkFrom(t, x, w) && |w| == depth + 1)
    && (forall w :: WalkFrom(t, x, w) ==> |w| <= depth + 1)
  }

  // ---- Kahn's invariant ----

  /** Every task of `done` has a duplicate-free list of dependencies that all come earlier in `done`. */
  ghost predicate KahnOrder(t: TaskTable, done: seq<string>) {
    && Distinct(done)
    && (forall i :: 0 <= i < |done| ==> done[i] in t.deps && Distinct(t.deps[done[i]]))
    && (forall i, d :: 0 <= i < |done| && d in t.deps[done[i]] ==> d in done[..i])
  }

  ghost predicate Exhausted(t: TaskTable, done: seq<string>) {
    forall x :: x in t.deps && x !in done ==>
      !Distinct(t.deps[x]) || exists d :: d in t.deps[x] && d !in done
  }

  /** The in-degree left once the tasks of `done` have been processed. */
  ghost function Degree(t: TaskTable, x: string, done: set<string>): int
    requires x in t.deps
  {
    |t.deps[x]| - |Elements(t.deps[x]) * done|
  }

  lemma DegreeZero(t: TaskTable, x: string, done: set<string>)
    requires x in t.deps
    ensures Degree(t, x, done) >= 0
    ensures Degree(t, x, done) == 0 <==> Distinct(t.deps[x]) && forall d :: d in t.deps[x] ==> d in done
  {
    var ds := t.deps[x];
    ElementsSize(ds);
    SubsetSize(Elements(ds) * done, Elements(ds));
    if Distinct(ds) && forall d :: d in ds ==> d in done {
      assert Elements(ds) * done == Elements(ds);
    }
    if Degree(t, x, done) == 0 {
      assert Elements(ds) * done == Elements(ds);
      forall d | d in ds ensures d in done {
        assert d in Elements(ds) * done;
      }
    }
  }

  lemma DegreeStep(t: TaskTable, x: string, done: set<string>, current: string)
    requires x in t.deps && current !in done
    ensures Degree(t, x, done + {current}) == Degree(t, x, done) - (if current in t.deps[x] then 1 else 0)
  {
    var ds := Elements(t.deps[x]);
    if current in t.deps[x] {
      assert ds * (done + {current}) == ds * done + {current};
    } else {
      assert ds * (done + {current}) == ds * done;
    }
  }

  // ---- What a Kahn order means ----

  ghost function Position(s: seq<string>, x: string): nat
    requires x in s
    ensures Position(s, x) < |s| && s[Position(s, x)] == x
  {
    if s[0] == x then 0 else 1 + Position(s[1..], x)
  }

  lemma PositionOf(s: seq<string>, i: nat)
    requires Distinct(s) && i < |s|
    ensures Position(s, s[i]) == i
  {
  }

  /** Along a walk from a processed task, positions strictly decrease. */
  lemma {:induction false} ProcessedWalk(t: TaskTable, done: seq<string>, w: seq<string>, i: nat, j: nat)
    requires KahnOrder(t, done) && Walk(t, w) && w[0] in done
    requires i <= j < |w|
    ensures w[i] in done && w[j] in done
    ensures i < j ==> Position(done, w[j]) < Position(done, w[i])
    decreases i + j
  {
    if j > 0 {
      ProcessedWalk(t, done, w, if i == j then i - 1 else i, j - 1);
      var p := Position(done, w[j - 1]);
      assert w[j] in t.deps[done[p]];
      assert w[j] in done[..p];
      var q :| 0 <= q < p && done[q] == w[j];
      PositionOf(done, q);
    }
  }

  lemma ProcessedIsSafe(t: TaskTable, done: seq<string>, x: string)
    requires KahnOrder(t, done) && x in done
    ensures !CycleReachable(t, x) && !RepeatedDependencyReachable(t, x)
  {
    forall w | WalkFrom(t, x, w)
      ensures Distinct(w) && Distinct(t.deps[w[|w| - 1]])
    {
      forall i, j | 0 <= i < j < |w| ensures w[i] != w[j] {
        ProcessedWalk(t, done, w, i, j);
      }
      ProcessedWalk(t, done, w, |w| - 1, |w| - 1);
    }
  }

  /** From a stuck task there is a walk of any length through stuck tasks, unless a repeated dependency is met. */
  lemma {:induction false} StuckWalk(t: TaskTable, done: seq<string>, x: string, n: nat) returns (w: seq<string>)
    requires Closed(t) && Exhausted(t, done)
    requires x in t.deps && x !in done
    ensures WalkFrom(t, x, w)
    ensures |w| == n + 1 || !Distinct(t.deps[w[|w| - 1]])
    decreases n
  {
    w := [x];
    if n > 0 && Distinct(t.deps[x]) {
      var d :| d in t.deps[x] && d !in done;
      var v := StuckWalk(t, done, d, n - 1);
      w := [x] + v;
    }
  }

  lemma StuckIsBlocked(t: TaskTable, done: seq<string>, x: string)
    requires t.Valid() && Closed(t) && Exhausted(t, done)
    requires x in t.deps && x !in done
    ensures CycleReachable(t, x) || RepeatedDependencyReachable(t, x)
  {
    var w := StuckWalk(t, done, x, |t.deps.Keys|);
    if |w| == |t.deps.Keys| + 1 {
      Pigeonhole(w, t.deps.Keys);
    }
  }

  lemma KahnDecides(t: TaskTable, done: seq<string>)
    requires t.Valid() && Closed(t) && KahnOrder(t, done) && Exhausted(t, done)
    ensures forall x :: x in t.deps ==>
      (x !in done <==> CycleReachable(t, x) || RepeatedDependencyReachable(t, x))
    ensures |done| == |t.names| <==> Elements(done) == t.deps.Keys
    ensures |done| == |t.names| <==> DuplicateFree(t) && Acyclic(t)
  {
    forall x | x in t.deps
      ensures x !in done <==> CycleReachable(t, x) || RepeatedDependencyReachable(t, x)
    {
      if x in done {
        ProcessedIsSafe(t, done, x);
      } else {
        StuckIsBlocked(t, done, x);
      }
    }
    ElementsSize(t.names);
    ElementsSize(done);
    DistinctBound(done, t.deps.Keys);
    if Elements(done) == t.deps.Keys {
      forall x | x in t.deps ensures Distinct(t.deps[x]) {
        assert x in Elements(done);
        assert WalkFrom(t, x, [x]);
      }
      forall w | Walk(t, w) ensures Distinct(w) {
        assert w[0] in Elements(done);
        assert WalkFrom(t, w[0], w);
      }
    }
    if DuplicateFree(t) && Acyclic(t) {
      forall x | x in t.deps ensures x in done {
      }
      assert Elements(done) == t.deps.Keys;
    }
  }

  // ---- Reference errors ----

  function DependencyErrors(t: TaskTable, x: string, ds: seq<string>): seq<DagError> {
    if ds == [] then []
    else
      (if ds[0] !in t.deps then [MissingDependency(x, ds[0])] else [])
      + (if ds[0] == x then [SelfDependency(x)] else [])
      + DependencyErrors(t, x, ds[1..])
  }

  lemma {:induction false} DependencyErrorsSnoc(t: TaskTable, x: string, ds: seq<string>, d: string)
    ensures DependencyErrors(t, x, ds + [d]) == DependencyErrors(t, x, ds) + DependencyErrors(t, x, [d])
  {
    if ds == [] {
      assert [] + [d] == [d];
    } else {
      assert (ds + [d])[1..] == ds[1..] + [d];
      DependencyErrorsSnoc(t, x, ds[1..], d);
    }
  }

  lemma {:induction false} DependencyErrorsMeaning(t: TaskTable, x: string, ds: seq<string>, e: DagError)
    ensures e in DependencyErrors(t, x, ds) <==>
      || (e.MissingDependency? && e.task == x && e.dependency in ds && e.dependency !in t.deps)
      || (e == SelfDependency(x) && x in ds)
  {
    if ds != [] {
      DependencyErrorsMeaning(t, x, ds[1..], e);
      assert ds == [ds[0]] + ds[1..];
    }
  }

  /** The errors about references, one entry per offending reference. */
  ghost predicate IsReferenceError(t: TaskTable, e: DagError) {
    || (e.MissingDependency? && e.task in t.deps && e.dependency in t.deps[e.task] && e.dependency !in t.deps)
    || (e.SelfDependency? && e.task in t.deps && e.task in t.deps[e.task])
  }

  method ReferenceErrors(t: TaskTable) returns (errors: seq<DagError>)
    requires t.Valid()
    ensures forall e :: e in errors <==> IsReferenceError(t, e)
  {
    errors := [];
    for i := 0 to |t.names|
      invariant forall e :: e in errors <==> IsReferenceError(t, e) && e.task in t.names[..i]
    {
      var x := t.names[i];
      var ds := t.deps[x];
      ghost var before := errors;
      for j := 0 to |ds|
        invariant errors == before + DependencyErrors(t, x, ds[..j])
      {
        DependencyErrorsSnoc(t, x, ds[..j], ds[j]);
        assert ds[..j] + [ds[j]] == ds[..j + 1];
        if ds[j] !in t.deps {
          errors := errors + [MissingDependency(x, ds[j])];
        }
        if ds[j] == x {
          errors := errors + [SelfDependency(x)];
        }
      }
      assert ds[..|ds|] == ds;
      forall e ensures e in errors <==> IsReferenceError(t, e) && e.task in t.names[..i + 1] {
        DependencyErrorsMeaning(t, x, ds, e);
        assert e in errors <==> e in before || e in DependencyErrors(t, x, ds);
        assert t.names[..i + 1] == t.names[..i] + [x];
      }
    }
    assert t.names[..|t.names|] == t.names;
  }

  function Unprocessed(names: seq<string>, inDegree: map<string, int>): (r: seq<string>)
    requires forall x :: x in names ==> x in inDegree
    ensures forall x :: x in r <==> x in names && inDegree[x] > 0
  {
    if names == [] then []
    else (if inDegree[names[0]] > 0 then [names[0]] else []) + Unprocessed(names[1..], inDegree)
  }

  function Ready(names: seq<string>, inDegree: map<string, int>): (r: seq<string>)
    requires forall x :: x in names ==> x in inDegree
    ensures forall x :: x in r <==> x in names && inDegree[x] == 0
    ensures Distinct(names) ==> Distinct(r)
  {
    if names == [] then []
    else (if inDegree[names[0]] == 0 then [names[0]] else []) + Ready(names[1..], inDegree)
  }

  // ---- validateDAG ----

  ghost predicate DegreesAre(t: TaskTable, inDegree: map<string, int>, done: set<string>) {
    inDegree.Keys == t.deps.Keys && forall x :: x in t.deps ==> inDegree[x] == Degree(t, x, done)
  }

  /** The processed tasks followed by the queue: exactly the tasks without in-degree, each once. */
  ghost predicate Queued(t: TaskTable, inDegree: map<string, int>, done: seq<string>, queue: seq<string>) {
    && inDegree.Keys == t.deps.Keys
    && Distinct(done + queue)
    && (forall x :: x in done || x in queue ==> x in t.deps)
    && (forall x :: x in t.deps ==> (inDegree[x] == 0 <==> x in done || x in queue))
  }

  lemma QueuedStep(t: TaskTable, inDegree: map<string, int>, done: seq<string>, queue: seq<string>, x: string)
    requires Queued(t, inDegree, done, queue) && x in t.deps && inDegree[x] > 0
    ensures var d := inDegree[x] - 1;
      Queued(t, inDegree[x := d], done, if d == 0 then queue + [x] else queue)
  {
    assert done + (queue + [x]) == (done + queue) + [x];
  }

  /** The first `i` tasks of `names` have been told that `current` is processed. */
  ghost predicate Releasing(t: TaskTable, inDegree: map<string, int>, done: seq<string>, current: string, i: nat) {
    && inDegree.Keys == t.deps.Keys
    && forall k :: 0 <= k < |t.names| && t.names[k] in t.deps ==>
         inDegree[t.names[k]] == Degree(t, t.names[k], if k < i then Elements(done) + {current} else Elements(done))
  }

  lemma ReleasingStep(t: TaskTable, inDegree: map<string, int>, done: seq<string>, current: string, i: nat)
    requires t.Valid() && current !in done && i < |t.names|
    requires Releasing(t, inDegree, done, current, i)
    ensures var x := t.names[i]; var d := inDegree[x];
      && (current in t.deps[x] ==> d > 0 && Releasing(t, inDegree[x := d - 1], done, current, i + 1))
      && (current !in t.deps[x] ==> Releasing(t, inDegree, done, current, i + 1))
  {
    var x := t.names[i];
    DegreeStep(t, x, Elements(done), current);
    DegreeZero(t, x, Elements(done) + {current});
  }

  lemma ReleasedAll(t: TaskTable, inDegree: map<string, int>, done: seq<string>, current: string)
    requires t.Valid() && Releasing(t, inDegree, done, current, |t.names|)
    ensures DegreesAre(t, inDegree, Elements(done + [current]))
  {
    assert Elements(done + [current]) == Elements(done) + {current};
    forall x | x in t.deps ensures inDegree[x] == Degree(t, x, Elements(done) + {current}) {
      var k :| 0 <= k < |t.names| && t.names[k] == x;
    }
  }

  /** Every task that depends on `current` loses one in-degree; those left with none are queued. */
  method ReleaseDependents(t: TaskTable, ghost done: seq<string>, current: string,
                           degrees: map<string, int>, pending: seq<string>)
    returns (inDegree: map<string, int>, queue: seq<string>)
    requires t.Valid() && current !in done
    requires DegreesAre(t, degrees, Elements(done))
    requires Queued(t, degrees, done + [current], pending)
    ensures DegreesAre(t, inDegree, Elements(done + [current]))
    ensures Queued(t, inDegree, done + [current], queue)
  {
    inDegree, queue := degrees, pending;
    hide Distinct, Degree;
    for i := 0 to |t.names|
      invariant Releasing(t, inDegree, done, current, i)
      invariant Queued(t, inDegree, done + [current], queue)
    {
      var name := t.names[i];
      ReleasingStep(t, inDegree, done, current, i);
      if current in t.deps[name] {
        QueuedStep(t, inDegree, done + [current], queue, name);
        var newDegree := inDegree[name] - 1;
        inDegree := inDegree[name := newDegree];
        if newDegree == 0 {
          queue := queue + [name];
        }
      }
    }
    ReleasedAll(t, inDegree, done, current);
  }

  /** Process the queue: count a task, release its dependents, until the queue is empty. The count tells whether the
      graph is duplicate-free and acyclic, and the in-degrees left tell which tasks are blocked. */
  method DrainQueue(t: TaskTable) returns (processed: nat, inDegree: map<string, int>)
    requires t.Valid() && Closed(t)
    ensures processed == |t.names| <==> DuplicateFree(t) && Acyclic(t)
    ensures inDegree.Keys == t.deps.Keys
    ensures forall x :: x in t.deps ==>
      (inDegree[x] > 0 <==> CycleReachable(t, x) || RepeatedDependencyReachable(t, x))
  {
    hide CycleReachable, RepeatedDependencyReachable, Acyclic;
    inDegree := map x | x in t.deps :: |t.deps[x]|;
    var queue := Ready(t.names, inDegree);
    processed := 0;
    ghost var done := [];
    InitialDegrees(t, inDegree, queue);
    while |queue| > 0
      invariant processed == |done| <= |t.names|
      invariant KahnOrder(t, done)
      invariant DegreesAre(t, inDegree, Elements(done))
      invariant Queued(t, inDegree, done, queue)
      decreases |t.names| - |done|
    {
      var current := queue[0];
      QueuedPop(t, inDegree, done, queue);
      inDegree, queue := ReleaseDependents(t, done, current, inDegree, queue[1..]);
      processed := processed + 1;
      done := done + [current];
    }
    KahnDrained(t, done, inDegree, queue);
    KahnDecides(t, done);
  }

  lemma InitialDegrees(t: TaskTable, inDegree: map<string, int>, queue: seq<string>)
    requires t.Valid()
    requires inDegree == map x | x in t.deps :: |t.deps[x]|
    requires Distinct(queue) && forall x :: x in queue <==> x in t.names && inDegree[x] == 0
    ensures DegreesAre(t, inDegree, Elements([])) && Queued(t, inDegree, [], queue)
  {
    assert forall x :: x in t.deps ==> Elements(t.deps[x]) * Elements([]) == {};
    assert [] + queue == queue;
  }

  lemma QueuedPop(t: TaskTable, inDegree: map<string, int>, done: seq<string>, queue: seq<string>)
    requires t.Valid() && queue != [] && KahnOrder(t, done)
    requires DegreesAre(t, inDegree, Elements(done)) && Queued(t, inDegree, done, queue)
    ensures queue[0] in t.deps && queue[0] !in done && |done| < |t.names|
    ensures Queued(t, inDegree, done + [queue[0]], queue[1..])
    ensures KahnOrder(t, done + [queue[0]])
  {
    var all := done + queue;
    assert all[|done|] == queue[0];
    assert done + [queue[0]] + queue[1..] == all;
    assert queue[0] !in done by {
      assert forall i :: 0 <= i < |done| ==> all[i] == done[i];
    }
    DegreeZero(t, queue[0], Elements(done));
    KahnExtend(t, done, queue[0]);
    DistinctBound(done + [queue[0]], t.deps.Keys);
    ElementsSize(t.names);
  }

  method ValidateDag(t: TaskTable) returns (errors: seq<DagError>)
    requires t.Valid()
    ensures errors == [] <==> Accepted(t)
    ensures (exists e :: IsReferenceError(t, e)) ==> forall e :: e in errors <==> IsReferenceError(t, e)
    ensures errors != [] && (forall e :: !IsReferenceError(t, e)) ==>
      && |errors| == 1 && errors[0].CycleAmong?
      && forall x :: x in errors[0].tasks <==>
           x in t.deps && (CycleReachable(t, x) || RepeatedDependencyReachable(t, x))
    ensures errors != [] && (forall e :: !IsReferenceError(t, e)) && DuplicateFree(t) ==>
      forall x :: x in errors[0].tasks <==> x in t.deps && CycleReachable(t, x)
  {
    errors := ReferenceErrors(t);
    if |errors| > 0 {
      ReferenceErrorsReject(t, errors[0]);
      return;
    }
    NoReferenceErrors(t);
    var processed, inDegree := DrainQueue(t);
    if processed != |t.names| {
      errors := [CycleAmong(Unprocessed(t.names, inDegree))];
    }
  }

  lemma KahnExtend(t: TaskTable, done: seq<string>, x: string)
    requires KahnOrder(t, done) && x in t.deps && x !in done
    requires Distinct(t.deps[x]) && forall d :: d in t.deps[x] ==> d in done
    ensures KahnOrder(t, done + [x])
  {
    var after := done + [x];
    forall i, d | 0 <= i < |after| && d in t.deps[after[i]] ensures d in after[..i] {
      if i < |done| {
        assert after[..i] == done[..i];
      } else {
        assert after[..i] == done;
      }
    }
  }

  lemma KahnDrained(t: TaskTable, done: seq<string>, inDegree: map<string, int>, queue: seq<string>)
    requires DegreesAre(t, inDegree, Elements(done)) && queue == [] && Queued(t, inDegree, done, queue)
    ensures Exhausted(t, done)
    ensures forall x :: x in t.deps ==> (inDegree[x] > 0 <==> x !in done)
  {
    forall x | x in t.deps
      ensures inDegree[x] > 0 <==> x !in done
      ensures x !in done ==> !Distinct(t.deps[x]) || exists d :: d in t.deps[x] && d !in done
    {
      DegreeZero(t, x, Elements(done));
    }
  }

  lemma ReferenceErrorsReject(t: TaskTable, e: DagError)
    requires IsReferenceError(t, e)
    ensures !Accepted(t)
  {
    if e.SelfDependency? {
      var w := [e.task, e.task];
      assert Walk(t, w);
      assert w[0] == w[1];
      assert !Distinct(w);
    }
  }

  lemma NoReferenceErrors(t: TaskTable)
    requires forall e :: !IsReferenceError(t, e)
    ensures Closed(t)
  {
    forall x, d | x in t.deps && d in t.deps[x] ensures d in t.deps {
      assert !IsReferenceError(t, MissingDependency(x, d));
    }
  }
}

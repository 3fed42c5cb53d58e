/** Resolution of an accepted graph into groups of tasks that may run in parallel. */
module DagGroups {
  import opened Collections
  import opened Dag

  // ---- The default order of strings: by code unit ----

  predicate LexLeq(a: string, b: string) {
    a == [] || (b != [] && (a[0] < b[0] || (a[0] == b[0] && LexLeq(a[1..], b[1..]))))
  }

  lemma {:induction false} LexTotal(a: string, b: string)
    ensures LexLeq(a, b) || LexLeq(b, a)
  {
    if a != [] && b != [] {
      LexTotal(a[1..], b[1..]);
    }
  }

  lemma {:induction false} LexTransitive(a: string, b: string, c: string)
    requires LexLeq(a, b) && LexLeq(b, c)
    ensures LexLeq(a, c)
  {
    if a != [] && a[0] == b[0] && b[0] == c[0] {
      LexTransitive(a[1..], b[1..], c[1..]);
    }
  }

  lemma LexStep(c: char, a: string, b: string)
    ensures LexLeq([c] + a, [c] + b) == LexLeq(a, b)
  {
    assert ([c] + a)[1..] == a && ([c] + b)[1..] == b;
  }

  /** The order of two names is decided at the first position where they differ; a prefix comes first. */
  lemma {:induction false} FirstDifferenceDecides(common: string, a: string, b: string)
    requires a == "" || (b != "" && a[0] != b[0])
    ensures LexLeq(common + a, common + b) <==> a == "" || a[0] < b[0]
  {
    if common == "" {
      assert common + a == a && common + b == b;
    } else {
      FirstDifferenceDecides(common[1..], a, b);
      LexStep(common[0], common[1..] + a, common[1..] + b);
      assert common + a == [common[0]] + (common[1..] + a) && common + b == [common[0]] + (common[1..] + b);
    }
  }

  ghost predicate SortedNames(s: seq<string>) {
    forall i, j :: 0 <= i < j < |s| ==> LexLeq(s[i], s[j])
  }

  function InsertName(s: seq<string>, x: string): seq<string> {
    if s == [] || LexLeq(x, s[0]) then [x] + s else [s[0]] + InsertName(s[1..], x)
  }

  lemma {:induction false} InsertKeeps(s: seq<string>, x: string)
    ensures multiset(InsertName(s, x)) == multiset(s) + multiset{x}
  {
    if s != [] && !LexLeq(x, s[0]) {
      InsertKeeps(s[1..], x);
      assert s == [s[0]] + s[1..];
    }
  }

  /** Putting a least element in front keeps a list sorted. */
  lemma SortedCons(x: string, s: seq<string>)
    requires SortedNames(s) && forall y :: y in s ==> LexLeq(x, y)
    ensures SortedNames([x] + s)
  {
  }

  lemma {:induction false} InsertSorts(s: seq<string>, x: string)
    requires SortedNames(s)
    ensures SortedNames(InsertName(s, x))
  {
    if s == [] {
    } else if LexLeq(x, s[0]) {
      forall y | y in s ensures LexLeq(x, y) {
        if y != s[0] { LexTransitive(x, s[0], y); }
      }
      SortedCons(x, s);
    } else {
      InsertSorts(s[1..], x);
      InsertKeeps(s[1..], x);
      LexTotal(x, s[0]);
      var r := InsertName(s[1..], x);
      forall y | y in r ensures LexLeq(s[0], y) {
        assert y in multiset(r);
      }
      SortedCons(s[0], r);
    }
  }

  function SortNames(s: seq<string>): seq<string> {
    if s == [] then [] else InsertName(SortNames(s[1..]), s[0])
  }

  lemma {:induction false} SortNamesSorts(s: seq<string>)
    ensures SortedNames(SortNames(s)) && multiset(SortNames(s)) == multiset(s)
  {
    if s != [] {
      SortNamesSorts(s[1..]);
      InsertSorts(SortNames(s[1..]), s[0]);
      InsertKeeps(SortNames(s[1..]), s[0]);
      assert s == [s[0]] + s[1..];
    }
  }

  lemma SameMultiset<T>(a: seq<T>, b: seq<T>)
    requires multiset(a) == multiset(b)
    ensures |a| == |b| && Elements(a) == Elements(b)
    ensures Distinct(a) ==> Distinct(b)
  {
    assert |a| == |multiset(a)| == |b|;
    forall x ensures x in Elements(a) <==> x in Elements(b) {
      assert x in a <==> x in multiset(a);
      assert x in b <==> x in multiset(b);
    }
    assert Elements(a) == Elements(b);
    ElementsSize(a);
    ElementsSize(b);
  }

  // ---- Groups and chains ----

  ghost predicate InEarlierGroup(groups: seq<seq<string>>, g: nat, d: string)
    requires g <= |groups|
  {
    exists h :: 0 <= h < g && d in groups[h]
  }

  ghost predicate DependsOnOneOf(t: TaskTable, x: string, group: seq<string>)
    requires x in t.deps
  {
    exists d :: d in t.deps[x] && d in group
  }

  /**
   * Every dependency of `x` lies in a group before group `g`, and one of them
   * in the group just before it.
   */
  ghost predicate Grounded(t: TaskTable, groups: seq<seq<string>>, g: nat, x: string)
    requires g <= |groups|
  {
    && x in t.deps
    && (forall d :: d in t.deps[x] ==> InEarlierGroup(groups, g, d))
    && (g > 0 ==> DependsOnOneOf(t, x, groups[g - 1]))
  }

  ghost predicate Levels(t: TaskTable, groups: seq<seq<string>>) {
    forall g, x :: 0 <= g < |groups| && x in groups[g] ==> Grounded(t, groups, g, x)
  }

  lemma GroundedFrame(t: TaskTable, a: seq<seq<string>>, b: seq<seq<string>>, g: nat, x: string)
    requires g <= |a| && g <= |b| && Grounded(t, a, g, x)
    requires forall h :: 0 <= h < g ==> a[h] == b[h]
    ensures Grounded(t, b, g, x)
  {
    forall d | d in t.deps[x] ensures InEarlierGroup(b, g, d) {
      assert InEarlierGroup(a, g, d);
      var h :| 0 <= h < g && d in a[h];
      assert d in b[h];
    }
  }

  ghost predicate IsPlan(t: TaskTable, groups: seq<seq<string>>) {
    Levels(t, groups) && Distinct(Flatten(groups)) && Elements(Flatten(groups)) == t.deps.Keys
  }

  lemma {:induction false} WalkBound(t: TaskTable, groups: seq<seq<string>>, g: nat, x: string, w: seq<string>)
    requires Levels(t, groups) && g < |groups| && x in groups[g] && WalkFrom(t, x, w)
    ensures |w| <= g + 1
    decreases g
  {
    if |w| > 1 {
      assert Grounded(t, groups, g, x);
      assert InEarlierGroup(groups, g, w[1]);
      var h :| 0 <= h < g && w[1] in groups[h];
      var rest := w[1..];
      assert Walk(t, rest) by {
        forall i, j | 0 <= i < j < |rest| && j == i + 1 ensures rest[j] in t.deps[rest[i]] {
          assert w[j + 1] in t.deps[w[i + 1]];
        }
      }
      WalkBound(t, groups, h, w[1], rest);
    }
  }

  lemma {:induction false} ChainExists(t: TaskTable, groups: seq<seq<string>>, g: nat,
                                       x: string) returns (w: seq<string>)
    requires Levels(t, groups) && g < |groups| && x in groups[g]
    ensures WalkFrom(t, x, w) && |w| == g + 1
    decreases g
  {
    w := [x];
    if g > 0 {
      assert Grounded(t, groups, g, x);
      var d :| d in t.deps[x] && d in groups[g - 1];
      var v := ChainExists(t, groups, g - 1, d);
      w := [x] + v;
    }
  }

  /** The group a task lands in is the length of its longest dependency chain. */
  lemma GroupIsLongestChain(t: TaskTable, groups: seq<seq<string>>, g: nat, x: string)
    requires Levels(t, groups) && g < |groups| && x in groups[g]
    ensures LongestChain(t, x, g)
  {
    var w := ChainExists(t, groups, g, x);
    forall w | WalkFrom(t, x, w) ensures |w| <= g + 1 {
      WalkBound(t, groups, g, x, w);
    }
  }

  // ---- Adjacency ----

  /** The tasks of `names` that list `d`, in order. */
  function DependentsOf(t: TaskTable, names: seq<string>, d: string): seq<string>
    requires forall x :: x in names ==> x in t.deps
  {
    if names == [] then []
    else
      var last := names[|names| - 1];
      DependentsOf(t, names[..|names| - 1], d) + (if d in t.deps[last] then [last] else [])
  }

  lemma {:induction false} DependentsMembers(t: TaskTable, names: seq<string>, d: string, x: string)
    requires forall x :: x in names ==> x in t.deps
    ensures x in DependentsOf(t, names, d) <==> x in names && d in t.deps[x]
  {
    if names != [] {
      var rest := names[..|names| - 1];
      DependentsMembers(t, rest, d, x);
      assert names == rest + [names[|names| - 1]];
    }
  }

  lemma {:induction false} DependentsDistinct(t: TaskTable, names: seq<string>, d: string)
    requires Distinct(names) && forall x :: x in names ==> x in t.deps
    ensures Distinct(DependentsOf(t, names, d))
  {
    if names != [] {
      var rest, last := names[..|names| - 1], names[|names| - 1];
      DependentsDistinct(t, rest, d);
      DependentsMembers(t, rest, d, last);
    }
  }

  lemma DependentsMeaning(t: TaskTable, names: seq<string>, d: string)
    requires Distinct(names) && forall x :: x in names ==> x in t.deps
    ensures Distinct(DependentsOf(t, names, d))
    ensures forall x :: x in DependentsOf(t, names, d) <==> x in names && d in t.deps[x]
  {
    DependentsDistinct(t, names, d);
    forall x ensures x in DependentsOf(t, names, d) <==> x in names && d in t.deps[x] {
      DependentsMembers(t, names, d, x);
    }
  }

  ghost predicate AreDependents(t: TaskTable, dependents: map<string, seq<string>>)
    requires t.Valid()
  {
    dependents.Keys == t.deps.Keys && forall d :: d in t.deps ==> dependents[d] == DependentsOf(t, t.names, d)
  }

  /** The tasks of `names` are entered, and `name` under each entry of `told`. */
  ghost predicate Entering(t: TaskTable, dependents: map<string, seq<string>>, names: seq<string>,
                           name: string, told: seq<string>)
    requires forall x :: x in names ==> x in t.deps
  {
    && dependents.Keys == t.deps.Keys
    && forall d :: d in t.deps ==>
         dependents[d] == if d in told then DependentsOf(t, names, d) + [name] else DependentsOf(t, names, d)
  }

  lemma EnterStep(t: TaskTable, dependents: map<string, seq<string>>, names: seq<string>,
                  name: string, ds: seq<string>, j: nat)
    requires forall x :: x in names ==> x in t.deps
    requires Distinct(ds) && j < |ds| && ds[j] in t.deps
    requires Entering(t, dependents, names, name, ds[..j])
    ensures Entering(t, dependents[ds[j] := dependents[ds[j]] + [name]], names, name, ds[..j + 1])
  {
    PrefixSnoc(ds, j);
    assert ds[j] !in ds[..j];
    hide Distinct, DependentsOf;
  }

  lemma EnteredAll(t: TaskTable, dependents: map<string, seq<string>>, names: seq<string>, name: string)
    requires name in t.deps && forall x :: x in names ==> x in t.deps
    requires Entering(t, dependents, names, name, t.deps[name])
    ensures Entering(t, dependents, names + [name], name, [])
  {
    assert (names + [name])[..|names|] == names;
  }

  /** Enter `name` under each of its dependencies. */
  method EnterTask(t: TaskTable, ghost names: seq<string>, name: string, entered: map<string, seq<string>>)
    returns (dependents: map<string, seq<string>>)
    requires name in t.deps && forall x :: x in names ==> x in t.deps
    requires Distinct(t.deps[name]) && forall d :: d in t.deps[name] ==> d in t.deps
    requires Entering(t, entered, names, "", [])
    ensures Entering(t, dependents, names + [name], "", [])
  {
    dependents := entered;
    var deps := t.deps[name];
    for j := 0 to |deps|
      invariant Entering(t, dependents, names, name, deps[..j])
    {
      EnterStep(t, dependents, names, name, deps, j);
      dependents := dependents[deps[j] := dependents[deps[j]] + [name]];
    }
    assert deps[..|deps|] == deps;
    EnteredAll(t, dependents, names, name);
  }

  lemma NothingEntered(t: TaskTable, dependents: map<string, seq<string>>)
    requires t.Valid() && dependents == map x | x in t.deps :: []
    ensures Entering(t, dependents, t.names[..0], "", [])
  {
  }

  /** For every task, the tasks that list it. */
  method BuildDependents(t: TaskTable) returns (dependents: map<string, seq<string>>)
    requires t.Valid() && Closed(t) && DuplicateFree(t)
    ensures AreDependents(t, dependents)
  {
    dependents := map x | x in t.deps :: [];
    NothingEntered(t, dependents);
    hide DependentsOf, Distinct;
    for i := 0 to |t.names|
      invariant Entering(t, dependents, t.names[..i], "", [])
    {
      dependents := EnterTask(t, t.names[..i], t.names[i], dependents);
      PrefixSnoc(t.names, i);
    }
    NothingLeftToEnter(t, dependents);
  }

  lemma PrefixSnoc<T>(s: seq<T>, i: nat)
    requires i < |s|
    ensures s[..i + 1] == s[..i] + [s[i]]
  {
  }

  lemma NothingLeftToEnter(t: TaskTable, dependents: map<string, seq<string>>)
    requires t.Valid() && Entering(t, dependents, t.names[..|t.names|], "", [])
    ensures AreDependents(t, dependents)
  {
    assert t.names[..|t.names|] == t.names;
  }

  // ---- One level ----

  /** `current` has been announced to the first `j` of its dependents. */
  ghost predicate Announcing(t: TaskTable, inDegree: map<string, int>, done: set<string>, told: seq<string>) {
    && inDegree.Keys == t.deps.Keys
    && forall x :: x in t.deps ==> inDegree[x] == Degree(t, x, done) - (if x in told then 1 else 0)
  }

  lemma AnnounceStep(t: TaskTable, inDegree: map<string, int>, done: set<string>, current: string,
                     dependents: seq<string>, j: nat)
    requires current !in done && Distinct(dependents) && j < |dependents|
    requires forall x :: x in dependents ==> x in t.deps && current in t.deps[x]
    requires Announcing(t, inDegree, done, dependents[..j])
    ensures var x := dependents[j];
      inDegree[x] > 0 && Announcing(t, inDegree[x := inDegree[x] - 1], done, dependents[..j + 1])
  {
    var x := dependents[j];
    DegreeStep(t, x, done, current);
    DegreeZero(t, x, done + {current});
    assert dependents[..j + 1] == dependents[..j] + [x];
    assert x !in dependents[..j];
  }

  lemma AnnouncedAll(t: TaskTable, inDegree: map<string, int>, done: set<string>, current: string,
                     dependents: seq<string>)
    requires current !in done
    requires forall x :: x in dependents <==> x in t.deps && current in t.deps[x]
    requires Announcing(t, inDegree, done, dependents)
    ensures DegreesAre(t, inDegree, done + {current})
  {
    forall x | x in t.deps ensures inDegree[x] == Degree(t, x, done + {current}) {
      DegreeStep(t, x, done, current);
    }
  }

  ghost predicate DependsOnGroup(t: TaskTable, next: seq<string>, group: seq<string>) {
    forall x :: x in next ==> x in t.deps && DependsOnOneOf(t, x, group)
  }

  /** Tell every dependent of `name` that it is done. */
  method Announce(t: TaskTable, ghost done: set<string>, ghost all: seq<string>, ghost group: seq<string>,
                  name: string, ds: seq<string>, degrees: map<string, int>, found: seq<string>)
    returns (inDegree: map<string, int>, next: seq<string>)
    requires t.Valid() && name !in done && name in group && Distinct(ds)
    requires forall x :: x in ds <==> x in t.deps && name in t.deps[x]
    requires DegreesAre(t, degrees, done) && Queued(t, degrees, all, found) && DependsOnGroup(t, found, group)
    ensures DegreesAre(t, inDegree, done + {name}) && Queued(t, inDegree, all, next)
    ensures DependsOnGroup(t, next, group)
  {
    inDegree, next := degrees, found;
    for j := 0 to |ds|
      invariant Announcing(t, inDegree, done, ds[..j])
      invariant Queued(t, inDegree, all, next)
      invariant DependsOnGroup(t, next, group)
    {
      var dependent := ds[j];
      AnnounceStep(t, inDegree, done, name, ds, j);
      QueuedStep(t, inDegree, all, next, dependent);
      assert DependsOnOneOf(t, dependent, group);
      var newDegree := inDegree[dependent] - 1;
      inDegree := inDegree[dependent := newDegree];
      if newDegree == 0 {
        next := next + [dependent];
      }
    }
    assert ds[..|ds|] == ds;
    AnnouncedAll(t, inDegree, done, name, ds);
  }

  /** Complete a group: the next one is what becomes free. */
  method NextGroup(t: TaskTable, dependents: map<string, seq<string>>, ghost order: seq<string>,
                   group: seq<string>, degrees: map<string, int>)
    returns (inDegree: map<string, int>, next: seq<string>)
    requires t.Valid() && AreDependents(t, dependents)
    requires DegreesAre(t, degrees, Elements(order)) && Queued(t, degrees, order + group, [])
    ensures DegreesAre(t, inDegree, Elements(order + group)) && Queued(t, inDegree, order + group, next)
    ensures DependsOnGroup(t, next, group)
  {
    inDegree, next := degrees, [];
    assert order + group[..0] == order;
    for i := 0 to |group|
      invariant DegreesAre(t, inDegree, Elements(order + group[..i]))
      invariant Queued(t, inDegree, order + group, next)
      invariant DependsOnGroup(t, next, group)
    {
      var name := group[i];
      ghost var done := Elements(order + group[..i]);
      NotYetDone(order, group, i);
      assert name in order + group;
      DependentsMeaning(t, t.names, name);
      inDegree, next := Announce(t, done, order + group, group, name, dependents[name], inDegree, next);
    }
    assert group[..|group|] == group;
  }

  lemma NotYetDone(order: seq<string>, group: seq<string>, i: nat)
    requires Distinct(order + group + []) && i < |group|
    ensures group[i] !in Elements(order + group[..i])
    ensures Elements(order + group[..i + 1]) == Elements(order + group[..i]) + {group[i]}
  {
    var all := order + group;
    assert all + [] == all;
    assert all[|order| + i] == group[i];
    assert order + group[..i] == all[..|order| + i];
    assert order + group[..i + 1] == order + group[..i] + [group[i]];
  }

  // ---- resolveDAG ----

  lemma {:induction false} InFlatten(groups: seq<seq<string>>, x: string)
    requires x in Flatten(groups)
    ensures InEarlierGroup(groups, |groups|, x)
  {
    if x in groups[0] {
      assert 0 <= 0 < |groups|;
    } else {
      InFlatten(groups[1..], x);
      var h :| 0 <= h < |groups[1..]| && x in groups[1..][h];
      assert x in groups[h + 1];
    }
  }

  lemma NextGrounded(t: TaskTable, groups: seq<seq<string>>, inDegree: map<string, int>, next: seq<string>, x: string)
    requires groups != [] && DegreesAre(t, inDegree, Elements(Flatten(groups)))
    requires Queued(t, inDegree, Flatten(groups), next) && x in next
    requires DependsOnGroup(t, next, groups[|groups| - 1])
    ensures Grounded(t, groups, |groups|, x)
  {
    DegreeZero(t, x, Elements(Flatten(groups)));
    hide Flatten, Distinct;
    forall d | d in t.deps[x] ensures InEarlierGroup(groups, |groups|, d) {
      InFlatten(groups, d);
    }
  }

  lemma AppendLevel(t: TaskTable, groups: seq<seq<string>>, next: seq<string>)
    requires Levels(t, groups) && forall x :: x in next ==> Grounded(t, groups, |groups|, x)
    ensures Levels(t, groups + [next])
  {
    hide Grounded;
    var all := groups + [next];
    forall g, x | 0 <= g < |all| && x in all[g] ensures Grounded(t, all, g, x) {
      GroundedFrame(t, groups, all, g, x);
    }
  }

  /** A task whose in-degree just reached zero belongs to the level after `groups`. */
  lemma NextLevel(t: TaskTable, groups: seq<seq<string>>, inDegree: map<string, int>, next: seq<string>)
    requires groups != [] && Levels(t, groups)
    requires DegreesAre(t, inDegree, Elements(Flatten(groups)))
    requires Queued(t, inDegree, Flatten(groups), next)
    requires DependsOnGroup(t, next, groups[|groups| - 1])
    ensures Levels(t, groups + [next])
  {
    hide Flatten, Grounded, Levels, DegreesAre, Queued, DependsOnGroup;
    forall x | x in next ensures Grounded(t, groups, |groups|, x) {
      NextGrounded(t, groups, inDegree, next, x);
    }
    AppendLevel(t, groups, next);
  }

  lemma SortedLevel(t: TaskTable, groups: seq<seq<string>>, current: seq<string>, sorted: seq<string>)
    requires Levels(t, groups + [current]) && multiset(sorted) == multiset(current)
    ensures Levels(t, groups + [sorted])
  {
    var a, b := groups + [current], groups + [sorted];
    forall g, x | 0 <= g < |b| && x in b[g] ensures Grounded(t, b, g, x) {
      if g == |groups| {
        assert x in multiset(sorted);
        assert x in a[g];
      }
      GroundedFrame(t, a, b, g, x);
    }
  }

  lemma SortedQueue(t: TaskTable, inDegree: map<string, int>, order: seq<string>,
                    current: seq<string>, sorted: seq<string>)
    requires t.Valid() && Queued(t, inDegree, order, current) && multiset(sorted) == multiset(current)
    ensures Queued(t, inDegree, order + sorted, [])
    ensures forall x :: x in sorted ==> x in t.deps
    ensures |order + sorted| <= |t.names| && |sorted| == |current|
  {
    SameMultiset(sorted, current);
    assert multiset(order + sorted) == multiset(order + current);
    SameMultiset(order + current, order + sorted);
    assert order + sorted + [] == order + sorted;
    forall x ensures x in sorted <==> x in current {
      assert x in Elements(sorted) <==> x in Elements(current);
    }
    forall x | x in order + sorted ensures x in t.deps {
      assert x in order || x in sorted;
    }
    DistinctBound(order + sorted, t.deps.Keys);
    ElementsSize(t.names);
  }

  lemma EverythingOrdered(t: TaskTable, inDegree: map<string, int>, order: seq<string>)
    requires t.Valid() && Accepted(t)
    requires DegreesAre(t, inDegree, Elements(order)) && Queued(t, inDegree, order, [])
    ensures Distinct(order) && Elements(order) == t.deps.Keys && |order| == |t.names|
  {
    KahnDrained(t, order, inDegree, []);
    assert order + [] == order;
    forall x | x in t.deps ensures x in order {
      if x !in order {
        StuckIsBlocked(t, order, x);
        assert false;
      }
    }
    assert Elements(order) == t.deps.Keys;
    ElementsSize(order);
    ElementsSize(t.names);
  }

  function NotIn(names: seq<string>, order: seq<string>): seq<string> {
    if names == [] then []
    else (if names[0] in order then [] else [names[0]]) + NotIn(names[1..], order)
  }

  ghost predicate TidyGroup(group: seq<string>) {
    group != [] && SortedNames(group)
  }

  /** Level by level: sort the tasks that are free, emit them as a group, release their dependents. */
  method CollectGroups(t: TaskTable) returns (groups: seq<seq<string>>, order: seq<string>)
    requires t.Valid() && Accepted(t)
    ensures IsPlan(t, groups) && order == Flatten(groups) && |order| == |t.names|
    ensures forall group :: group in groups ==> TidyGroup(group)
  {
    var dependents := BuildDependents(t);
    var inDegree: map<string, int> := map x | x in t.deps :: |t.deps[x]|;
    groups, order := [], [];
    var currentGroup := Ready(t.names, inDegree);
    InitialDegrees(t, inDegree, currentGroup);
    FirstLevel(t, inDegree, currentGroup);
    while |currentGroup| > 0
      invariant order == Flatten(groups) && |order| <= |t.names|
      invariant DegreesAre(t, inDegree, Elements(order))
      invariant Queued(t, inDegree, order, currentGroup)
      invariant Levels(t, groups + [currentGroup])
      invariant forall group :: group in groups ==> TidyGroup(group)
      decreases |t.names| - |order|
    {
      var sortedGroup := SortNames(currentGroup);
      SortNamesSorts(currentGroup);
      SortedLevel(t, groups, currentGroup, sortedGroup);
      SortedQueue(t, inDegree, order, currentGroup, sortedGroup);
      FlattenSnoc(groups, sortedGroup);
      assert TidyGroup(sortedGroup);
      groups := groups + [sortedGroup];
      var nextGroup;
      inDegree, nextGroup := NextGroup(t, dependents, order, sortedGroup, inDegree);
      order := order + sortedGroup;
      NextLevel(t, groups, inDegree, nextGroup);
      currentGroup := nextGroup;
    }
    EverythingOrdered(t, inDegree, order);
    DropEmptyLevel(t, groups, currentGroup);
  }

  method ResolveDag(t: TaskTable) returns (r: Resolution)
    requires t.Valid()
    ensures r.Invalid? <==> !Accepted(t)
    ensures !r.SafetyNet?
    ensures r.Resolved? ==>
      && IsPlan(t, r.groups) && r.order == Flatten(r.groups)
      && Distinct(r.order) && Elements(r.order) == Elements(t.names)
      && (forall group :: group in r.groups ==> TidyGroup(group))
      && (forall g, x :: 0 <= g < |r.groups| && x in r.groups[g] ==> LongestChain(t, x, g))
  {
    var errors := ValidateDag(t);
    if |errors| > 0 {
      return Invalid(errors);
    }
    if |t.names| == 0 {
      return Resolved([], []);
    }
    var groups, order := CollectGroups(t);
    forall g, x | 0 <= g < |groups| && x in groups[g] ensures LongestChain(t, x, g) {
      GroupIsLongestChain(t, groups, g, x);
    }
    r := if |order| != |t.names| then SafetyNet(NotIn(t.names, order)) else Resolved(groups, order);
  }

  lemma FirstLevel(t: TaskTable, inDegree: map<string, int>, current: seq<string>)
    requires t.Valid() && Queued(t, inDegree, [], current) && DegreesAre(t, inDegree, Elements([]))
    ensures Levels(t, [] + [current])
  {
    forall x | x in current ensures Grounded(t, [] + [current], 0, x) {
      DegreeZero(t, x, Elements([]));
    }
  }

  lemma DropEmptyLevel(t: TaskTable, groups: seq<seq<string>>, last: seq<string>)
    requires Levels(t, groups + [last])
    ensures Levels(t, groups)
  {
    forall g, x | 0 <= g < |groups| && x in groups[g] ensures Grounded(t, groups, g, x) {
      assert x in (groups + [last])[g];
      GroundedFrame(t, groups + [last], groups, g, x);
    }
  }
}

/** Vocabulary about finite sequences shared by the models. */
module Collections {

  datatype Option<+T> = None | Some(value: T)

  ghost predicate Distinct<T>(s: seq<T>) {
    forall i, j :: 0 <= i < j < |s| ==> s[i] != s[j]
  }

  function Elements<T>(s: seq<T>): set<T> {
    set x | x in s
  }

  function Flatten<T>(ss: seq<seq<T>>): seq<T> {
    if ss == [] then [] else ss[0] + Flatten(ss[1..])
  }

  lemma FlattenSnoc<T>(ss: seq<seq<T>>, s: seq<T>)
    ensures Flatten(ss + [s]) == Flatten(ss) + s
  {
    if ss == [] {
      assert [s][1..] == [];
    } else {
      assert (ss + [s])[1..] == ss[1..] + [s];
      FlattenSnoc(ss[1..], s);
    }
  }

  lemma ElementsSize<T>(s: seq<T>)
    ensures |Elements(s)| <= |s|
    ensures |Elements(s)| == |s| <==> Distinct(s)
  {
    if s != [] {
      var last, rest := s[|s| - 1], s[..|s| - 1];
      ElementsSize(rest);
      assert s == rest + [last];
      assert Elements(s) == Elements(rest) + {last};
      if last in rest {
        assert Elements(s) == Elements(rest);
      }
    }
  }

  lemma SubsetSize<T>(a: set<T>, b: set<T>)
    requires a <= b
    ensures |a| <= |b|
    ensures |a| == |b| ==> a == b
  {
    assert b == a + (b - a);
    assert |b| == |a| + |b - a|;
  }

  /** Pigeonhole: a sequence over a smaller set visits some element twice. */
  lemma Pigeonhole<T>(s: seq<T>, pool: set<T>)
    requires forall x :: x in s ==> x in pool
    requires |s| > |pool|
    ensures !Distinct(s)
  {
    ElementsSize(s);
    SubsetSize(Elements(s), pool);
  }

  lemma DistinctBound<T>(s: seq<T>, pool: set<T>)
    requires Distinct(s) && forall x :: x in s ==> x in pool
    ensures |s| <= |pool|
    ensures |s| == |pool| ==> Elements(s) == pool
  {
    ElementsSize(s);
    SubsetSize(Elements(s), pool);
  }
}

/** Rows advanced by conditional updates: `UPDATE ... SET v = new WHERE key = k AND v = seen`. */
module CompareAndSwap {
  import opened Collections

  /** One update that took effect: the value it replaced, the value it wrote, the writer and the writer's clock. */
  datatype Claim = Claim(key: string, from: Option<int>, to: int, writer: nat, at: int)

  ghost predicate Follows(claims: seq<Claim>, i: int, j: int) {
    && 0 <= i < j < |claims| && claims[i].key == claims[j].key
    && forall k :: i < k < j ==> claims[k].key != claims[i].key
  }

  ghost predicate Latest(claims: seq<Claim>, i: int) {
    0 <= i < |claims| && forall k :: i < k < |claims| ==> claims[k].key != claims[i].key
  }

  /** Each claim replaced what the claim before it on the same key had written, and the last one still stands. */
  ghost predicate Linked(claims: seq<Claim>, current: map<string, Option<int>>) {
    && (forall i, j :: Follows(claims, i, j) ==> claims[j].from == Some(claims[i].to))
    && (forall i :: Latest(claims, i) ==> claims[i].key in current && current[claims[i].key] == Some(claims[i].to))
  }

  lemma LinkedSnoc(claims: seq<Claim>, current: map<string, Option<int>>, c: Claim)
    requires Linked(claims, current) && c.key in current && current[c.key] == c.from
    ensures Linked(claims + [c], current[c.key := Some(c.to)])
  {
    var longer := claims + [c];
    forall i, j | Follows(longer, i, j) ensures longer[j].from == Some(longer[i].to) {
      if j < |claims| {
        assert forall k :: 0 <= k < |claims| ==> longer[k] == claims[k];
        assert Follows(claims, i, j);
      } else {
        assert forall k :: 0 <= k < |claims| ==> longer[k] == claims[k];
        assert Latest(claims, i);
      }
    }
    forall i | Latest(longer, i)
      ensures longer[i].key in current && current[c.key := Some(c.to)][longer[i].key] == Some(longer[i].to)
    {
      if i < |claims| {
        assert longer[|claims|] == c;
        assert forall k :: 0 <= k < |claims| ==> longer[k] == claims[k];
        assert Latest(claims, i);
      }
    }
  }

  /** The claim on the same key just before `j`. */
  lemma Previous(claims: seq<Claim>, i: nat, j: nat, from: nat) returns (p: nat)
    requires i <= from < j < |claims| && claims[i].key == claims[j].key
    requires forall k :: from < k < j ==> claims[k].key != claims[j].key
    ensures i <= p && Follows(claims, p, j)
    decreases from
  {
    if claims[from].key == claims[j].key {
      p := from;
    } else {
      p := Previous(claims, i, j, from - 1);
    }
  }

  lemma FollowerReplaces(claims: seq<Claim>, current: map<string, Option<int>>, p: nat, j: nat)
    requires Linked(claims, current) && Follows(claims, p, j)
    ensures p < j && claims[p].key == claims[j].key && claims[j].from == Some(claims[p].to)
  {
  }

  /** Every replacement of a value on this key raised it by at least `gap`. */
  ghost predicate Raises(claims: seq<Claim>, key: string, gap: int) {
    forall i :: 0 <= i < |claims| && claims[i].key == key && claims[i].from.Some? ==>
      claims[i].to >= claims[i].from.value + gap
  }

  /** So the values written on one key rise by at least `gap` each time. */
  lemma {:induction false} ClaimsRise(claims: seq<Claim>, current: map<string, Option<int>>, i: nat, j: nat, gap: nat)
    requires i < j < |claims| && claims[i].key == claims[j].key
    requires Linked(claims, current) && Raises(claims, claims[i].key, gap)
    ensures claims[j].from.Some? && claims[j].from.value >= claims[i].to
    ensures claims[j].to >= claims[i].to + gap
    decreases j
  {
    hide Linked, Follows;
    var p := Previous(claims, i, j, j - 1);
    FollowerReplaces(claims, current, p, j);
    if i < p {
      ClaimsRise(claims, current, i, p, gap);
    }
  }

  /** The value now stored is at least every value written. */
  lemma {:induction false} CurrentIsHighest(claims: seq<Claim>, current: map<string, Option<int>>, i: nat, gap: nat)
    requires Linked(claims, current) && i < |claims| && Raises(claims, claims[i].key, gap)
    ensures claims[i].key in current && current[claims[i].key].Some?
    ensures current[claims[i].key].value >= claims[i].to
  {
    var last := LastClaim(claims, i, |claims| - 1);
    assert Latest(claims, last);
    if i < last {
      ClaimsRise(claims, current, i, last, gap);
    }
  }

  lemma LastClaim(claims: seq<Claim>, i: nat, from: nat) returns (last: nat)
    requires i <= from < |claims|
    requires forall k :: from < k < |claims| ==> claims[k].key != claims[i].key
    ensures i <= last && Latest(claims, last) && claims[last].key == claims[i].key
    decreases from
  {
    if claims[from].key == claims[i].key {
      last := from;
    } else {
      last := LastClaim(claims, i, from - 1);
    }
  }

  /** A value once replaced is never found again. */
  lemma ReplacedForGood(claims: seq<Claim>, current: map<string, Option<int>>, i: nat, gap: nat)
    requires Linked(claims, current) && i < |claims| && Raises(claims, claims[i].key, gap) && gap > 0
    ensures claims[i].key in current && current[claims[i].key] != claims[i].from
    ensures forall j :: 0 <= j < |claims| && j != i && claims[j].key == claims[i].key ==> claims[j].from != claims[i].from
  {
    CurrentIsHighest(claims, current, i, gap);
    forall j | 0 <= j < |claims| && j != i && claims[j].key == claims[i].key
      ensures claims[j].from != claims[i].from
    {
      if i < j {
        ClaimsRise(claims, current, i, j, gap);
      } else {
        ClaimsRise(claims, current, j, i, gap);
      }
    }
  }
}

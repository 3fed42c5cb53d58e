/** Secret masking and the log buffer. */
module Masking {
  import opened Collections

  const MIN_MASK_LENGTH := 4

  // ---- Substrings ----

  predicate OccursAt(s: string, t: string, i: nat) {
    i + |t| <= |s| && s[i..i + |t|] == t
  }

  ghost predicate Contains(s: string, t: string) {
    exists i: nat :: OccursAt(s, t, i)
  }

  ghost predicate StarFree(t: string) {
    '*' !in t
  }

  /** The first occurrence of `t` at or after position `i`. */
  function IndexOf(s: string, t: string, i: nat): (r: Option<nat>)
    requires i <= |s|
    ensures r.Some? ==> i <= r.value && OccursAt(s, t, r.value)
    ensures forall k: nat :: i <= k && (r.Some? ==> k < r.value) ==> !OccursAt(s, t, k)
    decreases |s| - i
  {
    if OccursAt(s, t, i) then Some(i)
    else if i == |s| then None
    else IndexOf(s, t, i + 1)
  }

  /** `s.split(t)` for a non-empty separator. */
  function SplitOn(s: string, t: string): seq<string>
    requires t != ""
    decreases |s|
  {
    match IndexOf(s, t, 0)
    case None => [s]
    case Some(i) => [s[..i]] + SplitOn(s[i + |t|..], t)
  }

  function Join(pieces: seq<string>, glue: string): string {
    if pieces == [] then ""
    else if |pieces| == 1 then pieces[0]
    else pieces[0] + glue + Join(pieces[1..], glue)
  }

  function MaskOne(s: string, secret: string): string
    requires secret != ""
  {
    Join(SplitOn(s, secret), "***")
  }

  predicate NoneEmpty(secrets: seq<string>) {
    forall i :: 0 <= i < |secrets| ==> secrets[i] != ""
  }

  /** The message after masking the secrets in order. */
  function MaskAll(message: string, secrets: seq<string>): string
    requires NoneEmpty(secrets)
  {
    if secrets == [] then message
    else MaskOne(MaskAll(message, secrets[..|secrets| - 1]), secrets[|secrets| - 1])
  }

  // ---- A masked message is clean ----

  lemma OccursInSlice(s: string, a: nat, b: nat, t: string, i: nat)
    requires a <= b <= |s| && OccursAt(s[a..b], t, i)
    ensures OccursAt(s, t, a + i)
  {
    var part := s[a..b];
    forall j | 0 <= j < |t| ensures s[a + i + j] == t[j] {
      assert part[i..i + |t|][j] == part[i + j];
    }
  }

  /** A piece is the whole text, or what precedes the first separator, or a piece of what follows it. */
  lemma PieceIsSlice(s: string, t: string, p: string)
    requires t != "" && p in SplitOn(s, t)
    ensures match IndexOf(s, t, 0)
      case None => p == s
      case Some(i) => p == s[..i] || p in SplitOn(s[i + |t|..], t)
  {
    match IndexOf(s, t, 0)
    case None =>
    case Some(i) =>
      assert SplitOn(s, t) == [s[..i]] + SplitOn(s[i + |t|..], t);
  }

  /** No piece contains the separator. */
  lemma {:induction false} PiecesAvoidSeparator(s: string, t: string, p: string)
    requires t != "" && p in SplitOn(s, t)
    ensures !Contains(p, t)
    decreases |s|
  {
    hide SplitOn;
    PieceIsSlice(s, t, p);
    match IndexOf(s, t, 0)
    case None =>
    case Some(i) =>
      if p == s[..i] {
        forall k: nat ensures !OccursAt(p, t, k) {
          if OccursAt(p, t, k) {
            OccursInSlice(s, 0, i, t, k);
          }
        }
      } else {
        PiecesAvoidSeparator(s[i + |t|..], t, p);
      }
  }

  lemma SlicesAreParts(s: string, a: nat, b: nat, u: string)
    requires a <= b <= |s| && Contains(s[a..b], u)
    ensures Contains(s, u)
  {
    var k: nat :| OccursAt(s[a..b], u, k);
    OccursInSlice(s, a, b, u, k);
  }

  /** Whatever a piece contains, the whole contains. */
  lemma {:induction false} PiecesAreParts(s: string, t: string, p: string, u: string)
    requires t != "" && p in SplitOn(s, t) && Contains(p, u)
    ensures Contains(s, u)
    decreases |s|
  {
    hide SplitOn, Contains;
    PieceIsSlice(s, t, p);
    match IndexOf(s, t, 0)
    case None =>
    case Some(i) =>
      if p == s[..i] {
        assert p == s[0..i];
        SlicesAreParts(s, 0, i, u);
      } else {
        var rest := s[i + |t|..];
        PiecesAreParts(rest, t, p, u);
        assert rest == s[i + |t|..|s|];
        SlicesAreParts(s, i + |t|, |s|, u);
      }
  }

  /** A star-free word of the joined text lies within one piece. */
  lemma {:induction false} JoinIsClean(pieces: seq<string>, u: string)
    requires u != "" && StarFree(u)
    requires forall p :: p in pieces ==> !Contains(p, u)
    ensures !Contains(Join(pieces, "***"), u)
  {
    if |pieces| > 1 {
      var first, rest := pieces[0], Join(pieces[1..], "***");
      JoinIsClean(pieces[1..], u);
      forall k: nat ensures !OccursAt(first + "***" + rest, u, k) {
        GlueIsClean(first, rest, u, k);
      }
    } else if pieces == [] {
      assert forall k: nat :: !OccursAt("", u, k);
    }
  }

  lemma StarWithin(s: string, u: string, k: nat, q: nat)
    requires OccursAt(s, u, k) && k <= q < k + |u| && s[q] == '*'
    ensures !StarFree(u)
  {
    assert s[k..k + |u|][q - k] == '*';
  }

  lemma GlueIsClean(first: string, rest: string, u: string, k: nat)
    requires u != "" && StarFree(u) && !Contains(first, u) && !Contains(rest, u)
    ensures !OccursAt(first + "***" + rest, u, k)
  {
    var all := first + "***" + rest;
    if OccursAt(all, u, k) {
      var n := |first|;
      if k + |u| <= n {
        assert all[k..k + |u|] == first[k..k + |u|];
        assert OccursAt(first, u, k);
      } else if k >= n + 3 {
        assert all[k..k + |u|] == rest[k - n - 3..k - n - 3 + |u|];
        assert OccursAt(rest, u, k - n - 3);
      } else {
        StarWithin(all, u, k, if k > n then k else n);
      }
    }
  }

  lemma MaskRemoves(s: string, secret: string)
    requires secret != "" && StarFree(secret)
    ensures !Contains(MaskOne(s, secret), secret)
  {
    forall p | p in SplitOn(s, secret) ensures !Contains(p, secret) {
      PiecesAvoidSeparator(s, secret, p);
    }
    JoinIsClean(SplitOn(s, secret), secret);
  }

  /** Masking another secret cannot bring `u` back. */
  lemma MaskKeepsClean(s: string, secret: string, u: string)
    requires secret != "" && u != "" && StarFree(u) && !Contains(s, u)
    ensures !Contains(MaskOne(s, secret), u)
  {
    forall p | p in SplitOn(s, secret) ensures !Contains(p, u) {
      if Contains(p, u) {
        PiecesAreParts(s, secret, p, u);
      }
    }
    JoinIsClean(SplitOn(s, secret), u);
  }

  /** After masking, no star-free secret is left, whatever the others and however occurrences overlap. */
  lemma {:induction false} MaskedMessageIsClean(message: string, secrets: seq<string>, u: string)
    requires NoneEmpty(secrets)
    requires u in secrets && StarFree(u)
    ensures !Contains(MaskAll(message, secrets), u)
  {
    var rest, last := secrets[..|secrets| - 1], secrets[|secrets| - 1];
    assert secrets == rest + [last];
    if u == last {
      MaskRemoves(MaskAll(message, rest), u);
    } else {
      MaskedMessageIsClean(message, rest, u);
      MaskKeepsClean(MaskAll(message, rest), last, u);
    }
  }

  lemma MaskAbsent(s: string, secret: string)
    requires secret != "" && !Contains(s, secret)
    ensures MaskOne(s, secret) == s
  {
    assert IndexOf(s, secret, 0).None?;
  }

  /** A message without secrets passes unchanged. */
  lemma {:induction false} UnaffectedMessage(message: string, secrets: seq<string>)
    requires NoneEmpty(secrets)
    requires forall i :: 0 <= i < |secrets| ==> !Contains(message, secrets[i])
    ensures MaskAll(message, secrets) == message
  {
    if secrets != [] {
      var rest, last := secrets[..|secrets| - 1], secrets[|secrets| - 1];
      assert secrets == rest + [last];
      UnaffectedMessage(message, rest);
      MaskAbsent(message, last);
    }
  }

  lemma LongerIsAbsent(s: string, u: string, k: nat)
    requires |u| >= |s| && u != s
    ensures !OccursAt(s, u, k)
  {
    assert k == 0 && |u| == |s| ==> s[k..k + |u|] == s;
  }

  /** Longest first: a secret is masked whole even when it contains others. */
  lemma {:induction false} WholeSecretIsMasked(secrets: seq<string>, i: nat)
    requires NoneEmpty(secrets) && forall j :: 0 <= j < |secrets| ==> |secrets[j]| >= MIN_MASK_LENGTH
    requires Distinct(secrets) && LongestFirst(secrets) && i < |secrets|
    ensures MaskAll(secrets[i], secrets) == "***"
  {
    var rest, last := secrets[..|secrets| - 1], secrets[|secrets| - 1];
    assert secrets == rest + [last];
    if i == |secrets| - 1 {
      forall j | 0 <= j < |rest| ensures !Contains(last, rest[j]) {
        forall k: nat ensures !OccursAt(last, rest[j], k) {
          LongerIsAbsent(last, secrets[j], k);
        }
      }
      UnaffectedMessage(last, rest);
      MaskItself(last);
    } else {
      assert rest[i] == secrets[i];
      WholeSecretIsMasked(rest, i);
      assert forall k: nat :: !OccursAt("***", last, k);
      MaskAbsent("***", last);
    }
  }

  lemma MaskItself(s: string)
    requires s != ""
    ensures MaskOne(s, s) == "***"
  {
    assert s[0..0 + |s|] == s;
    assert OccursAt(s, s, 0);
    assert IndexOf(s, s, 0) == Some(0);
    assert s[..0] == "" && s[0 + |s|..] == "";
    assert IndexOf("", s, 0).None?;
    assert SplitOn("", s) == [""];
    assert SplitOn(s, s) == ["", ""];
    assert ["", ""][1..] == [""];
  }

  // ---- Registering secrets ----

  ghost predicate LongestFirst(s: seq<string>) {
    forall i, j :: 0 <= i < j < |s| ==> |s[i]| >= |s[j]|
  }

  /** Stable insertion by decreasing length. */
  function InsertByLength(s: seq<string>, x: string): seq<string> {
    if s == [] then [x]
    else if |s[|s| - 1]| >= |x| then s + [x]
    else InsertByLength(s[..|s| - 1], x) + [s[|s| - 1]]
  }

  lemma {:induction false} InsertByLengthElements(s: seq<string>, x: string)
    ensures multiset(InsertByLength(s, x)) == multiset(s) + multiset{x}
  {
    if s != [] {
      var rest, last := s[..|s| - 1], s[|s| - 1];
      assert s == rest + [last];
      InsertByLengthElements(rest, x);
    }
  }

  /** Every element is at least as long as the shortest of `s` and `x`. */
  lemma {:induction false} InsertByLengthBound(s: seq<string>, x: string, n: nat)
    requires forall i :: 0 <= i < |s| ==> |s[i]| >= n
    requires |x| >= n
    ensures forall i :: 0 <= i < |InsertByLength(s, x)| ==> |InsertByLength(s, x)[i]| >= n
  {
    if s != [] && |s[|s| - 1]| < |x| {
      InsertByLengthBound(s[..|s| - 1], x, n);
    }
  }

  lemma {:induction false} InsertByLengthSorted(s: seq<string>, x: string)
    requires LongestFirst(s)
    ensures LongestFirst(InsertByLength(s, x))
  {
    if s != [] && |s[|s| - 1]| < |x| {
      InsertByLengthSorted(s[..|s| - 1], x);
      InsertByLengthBound(s[..|s| - 1], x, |s[|s| - 1]|);
    }
  }

  function SortByLength(s: seq<string>): seq<string> {
    if s == [] then [] else InsertByLength(SortByLength(s[..|s| - 1]), s[|s| - 1])
  }

  lemma {:induction false} SortByLengthSorts(s: seq<string>)
    ensures LongestFirst(SortByLength(s)) && multiset(SortByLength(s)) == multiset(s)
  {
    if s != [] {
      SortByLengthSorts(s[..|s| - 1]);
      InsertByLengthElements(SortByLength(s[..|s| - 1]), s[|s| - 1]);
      InsertByLengthSorted(SortByLength(s[..|s| - 1]), s[|s| - 1]);
      assert s == s[..|s| - 1] + [s[|s| - 1]];
    }
  }

  lemma SortedDistinct(s: seq<string>)
    requires Distinct(s)
    ensures Distinct(SortByLength(s)) && Elements(SortByLength(s)) == Elements(s)
  {
    SortByLengthSorts(s);
    var r := SortByLength(s);
    assert |r| == |multiset(r)| == |s|;
    forall x ensures x in Elements(r) <==> x in Elements(s) {
      assert x in r <==> x in multiset(r);
      assert x in s <==> x in multiset(s);
    }
    assert Elements(r) == Elements(s);
    ElementsSize(s);
    ElementsSize(r);
  }

  // ---- The streamer ----

  /** `since` says how long the log was when each masked value was registered. */
  ghost predicate Registered(masked: seq<string>, since: map<string, nat>, n: nat) {
    && Distinct(masked) && LongestFirst(masked)
    && (forall v :: v in masked <==> v in since)
    && (forall v :: v in since ==> |v| >= MIN_MASK_LENGTH && since[v] <= n)
  }

  /** No message buffered after a value was registered contains that value. */
  ghost predicate Clean(log: seq<string>, since: map<string, nat>) {
    forall v, k :: v in since && StarFree(v) && since[v] <= k < |log| ==> !Contains(log[k], v)
  }

  lemma RegisteredIsMaskable(masked: seq<string>, since: map<string, nat>, n: nat)
    requires Registered(masked, since, n)
    ensures NoneEmpty(masked)
  {
    assert forall i :: 0 <= i < |masked| ==> masked[i] in since;
  }

  lemma CleanAfterPush(log: seq<string>, masked: seq<string>, since: map<string, nat>, message: string)
    requires Registered(masked, since, |log|) && Clean(log, since)
    requires NoneEmpty(masked)
    ensures Registered(masked, since, |log| + 1)
    ensures Clean(log + [MaskAll(message, masked)], since)
  {
    hide Contains, MaskAll;
    var line := MaskAll(message, masked);
    forall v, k | v in since && StarFree(v) && since[v] <= k < |log + [line]|
      ensures !Contains((log + [line])[k], v)
    {
      if k == |log| {
        assert v in masked;
        MaskedMessageIsClean(message, masked, v);
      }
    }
  }

  lemma SortRegistered(next: seq<string>, since: map<string, nat>, n: nat)
    requires Distinct(next) && forall v :: v in next <==> v in since
    requires forall v :: v in since ==> |v| >= MIN_MASK_LENGTH && since[v] <= n
    ensures Registered(SortByLength(next), since, n)
  {
    SortedDistinct(next);
    SortByLengthSorts(next);
    hide SortByLength;
    forall v ensures v in SortByLength(next) <==> v in since {
      assert v in SortByLength(next) <==> v in Elements(SortByLength(next));
      assert v in next <==> v in Elements(next);
    }
  }

  class LogStreamer {
    const maxBatchSize: nat
    var buffer: seq<string>
    var masked: seq<string>
    var isFlushing: bool
    /** Every message ever buffered, and the batches handed to the control plane so far. */
    ghost var log: seq<string>
    ghost var shipped: seq<string>
    /** How long the log was when a value was registered. */
    ghost var since: map<string, nat>

    ghost predicate Valid()
      reads this
    {
      && log == shipped + buffer
      && Registered(masked, since, |log|)
      && Clean(log, since)
    }

    constructor (maxBatchSize: nat)
      ensures Valid() && log == [] && masked == [] && !isFlushing
      ensures this.maxBatchSize == maxBatchSize
    {
      this.maxBatchSize := maxBatchSize;
      buffer, masked, isFlushing := [], [], false;
      log, shipped, since := [], [], map[];
    }

    /** Values that are absent or too short are ignored; nothing registered is ever forgotten. */
    method AddMaskedValues(values: seq<Option<string>>)
      requires Valid()
      modifies this`masked, this`since
      ensures Valid()
      ensures forall v :: v in masked <==>
        v in old(masked) || (Some(v) in values && |v| >= 4)
      ensures forall v :: v in old(since) ==> v in since && since[v] == old(since)[v]
      ensures forall v :: v in since && v !in old(since) ==> since[v] == |log|
    {
      hide Contains, LongestFirst, SortByLength;
      var next := masked;
      ghost var registered := since;
      for i := 0 to |values|
        invariant Distinct(next)
        invariant forall v :: v in next <==> v in registered
        invariant forall v :: v in registered <==>
          v in since || (Some(v) in values[..i] && |v| >= MIN_MASK_LENGTH)
        invariant forall v :: v in since ==> registered[v] == since[v]
        invariant forall v :: v in registered && v !in since ==> registered[v] == |log|
      {
        assert values[..i + 1] == values[..i] + [values[i]];
        match values[i] {
          case Some(v) =>
            if |v| >= MIN_MASK_LENGTH && v !in next {
              next := next + [v];
              registered := registered[v := |log|];
            }
          case None =>
        }
      }
      assert values[..|values|] == values;
      SortRegistered(next, registered, |log|);
      masked := SortByLength(next);
      since := registered;
    }

    /** The buffered message is the masked one, and stays clean of every value registered so far. */
    method Push(message: string)
      requires Valid()
      modifies this`buffer, this`log, this`shipped, this`isFlushing
      ensures Valid() && NoneEmpty(masked)
      ensures log == old(log) + [MaskAll(message, masked)]
      ensures old(isFlushing) || |old(buffer)| + 1 < maxBatchSize ==>
        buffer == old(buffer) + [MaskAll(message, masked)] && isFlushing == old(isFlushing)
      ensures !old(isFlushing) && |old(buffer)| + 1 >= maxBatchSize ==> buffer == [] && isFlushing
    {
      hide Contains, MaskAll, Clean;
      RegisteredIsMaskable(masked, since, |log|);
      CleanAfterPush(log, masked, since, message);
      var line := MaskSecrets(message, masked);
      buffer := buffer + [line];
      log := log + [line];
      if |buffer| >= maxBatchSize {
        var _ := BeginFlush();
      }
    }

    /** The part of `flush` before its first await: the batch leaves the buffer at once, in order. */
    method BeginFlush() returns (batch: Option<seq<string>>)
      requires Valid()
      modifies this`buffer, this`shipped, this`isFlushing
      ensures Valid()
      ensures batch.None? <==> old(isFlushing) || old(buffer) == []
      ensures batch.None? ==>
        buffer == old(buffer) && shipped == old(shipped) && isFlushing == old(isFlushing)
      ensures batch.Some? ==>
        batch.value == old(buffer) && buffer == [] && shipped == old(shipped) + batch.value && isFlushing
    {
      if isFlushing || |buffer| == 0 {
        return None;
      }
      isFlushing := true;
      batch := Some(buffer);
      shipped := shipped + buffer;
      buffer := [];
    }

    /** The rest of `flush`: sent or lost, the next flush may start. */
    method EndFlush()
      requires Valid() && isFlushing
      modifies this`isFlushing
      ensures Valid() && !isFlushing
    {
      isFlushing := false;
    }

    /** The last flush. A flush that finds another one under way returns at once instead of waiting for it, so what
        was buffered meanwhile stays behind: everything is handed over exactly when none was under way. */
    method Shutdown() returns (batch: Option<seq<string>>)
      requires Valid()
      modifies this`buffer, this`shipped, this`isFlushing
      ensures Valid() && isFlushing == old(isFlushing)
      ensures shipped == log <==> !old(isFlushing) || old(buffer) == []
    {
      batch := BeginFlush();
      if batch.Some? {
        EndFlush();
      }
    }
  }

  /** Replace every occurrence of each secret in turn. */
  method MaskSecrets(message: string, secrets: seq<string>) returns (out: string)
    requires NoneEmpty(secrets)
    ensures out == MaskAll(message, secrets)
  {
    out := message;
    for i := 0 to |secrets|
      invariant out == MaskAll(message, secrets[..i])
    {
      assert secrets[..i + 1][..i] == secrets[..i];
      var secret := secrets[i];
      if IndexOf(out, secret, 0).Some? {
        out := Join(SplitOn(out, secret), "***");
      } else {
        MaskAbsent(out, secret);
      }
    }
    assert secrets[..|secrets|] == secrets;
  }
}

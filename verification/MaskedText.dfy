/** What masking leaves alone: the text around the secrets. */
module MaskedText {
  import opened Collections
  import opened Masking

  // ---- One secret ----

  /** Read from the left, `t` occurs first where `piece` ends. */
  ghost predicate EndsAtFirst(piece: string, t: string) {
    forall i :: 0 <= i < |piece| ==> !OccursAt(piece + t, t, i)
  }

  /** The pieces between the occurrences of `t` that a reader meets from left to right. */
  ghost predicate Between(pieces: seq<string>, t: string) {
    && pieces != []
    && (forall i :: 0 <= i < |pieces| - 1 ==> EndsAtFirst(pieces[i], t))
    && !Contains(pieces[|pieces| - 1], t)
  }

  lemma FirstAt(piece: string, t: string, rest: string)
    requires t != "" && EndsAtFirst(piece, t)
    ensures IndexOf(piece + t + rest, t, 0) == Some(|piece|)
  {
    var s := piece + t + rest;
    assert s[|piece|..|piece| + |t|] == t;
    forall i | 0 <= i < |piece| ensures !OccursAt(s, t, i) {
      assert (piece + t)[i..i + |t|] == s[i..i + |t|];
      assert !OccursAt(piece + t, t, i);
    }
    assert OccursAt(s, t, |piece|);
  }

  lemma JoinFirst(pieces: seq<string>, glue: string)
    requires |pieces| > 1
    ensures Join(pieces, glue) == pieces[0] + glue + Join(pieces[1..], glue)
  {
  }

  lemma SplitFirst(s: string, t: string, i: nat)
    requires t != "" && IndexOf(s, t, 0) == Some(i)
    ensures SplitOn(s, t) == [s[..i]] + SplitOn(s[i + |t|..], t)
  {
  }

  lemma SplitAbsent(s: string, t: string)
    requires t != "" && !Contains(s, t)
    ensures SplitOn(s, t) == [s]
  {
    assert IndexOf(s, t, 0).None?;
  }

  /** Pieces put together around a secret are found again. */
  lemma {:induction false} PiecesAreFound(pieces: seq<string>, t: string)
    requires t != "" && Between(pieces, t)
    ensures SplitOn(Join(pieces, t), t) == pieces
    decreases |pieces|
  {
    hide SplitOn, IndexOf, Contains, EndsAtFirst;
    if |pieces| == 1 {
      SplitAbsent(pieces[0], t);
    } else {
      var first, rest := pieces[0], Join(pieces[1..], t);
      JoinFirst(pieces, t);
      FirstAt(first, t, rest);
      PiecesAreFound(pieces[1..], t);
      var s := first + t + rest;
      assert s[..|first|] == first && s[|first| + |t|..] == rest;
      SplitFirst(s, t, |first|);
      assert pieces == [first] + pieces[1..];
    }
  }

  lemma FirstEndsThere(s: string, t: string, i: nat)
    requires IndexOf(s, t, 0) == Some(i)
    ensures i + |t| <= |s| && s == s[..i] + t + s[i + |t|..] && EndsAtFirst(s[..i], t)
  {
    hide IndexOf;
    var first := s[..i];
    assert s[..i + |t|] == first + t;
    forall k | 0 <= k < |first| ensures !OccursAt(first + t, t, k) {
      NotInPrefix(s, i + |t|, t, k);
    }
  }

  lemma NotInPrefix(s: string, n: nat, t: string, k: nat)
    requires n <= |s| && !OccursAt(s, t, k)
    ensures !OccursAt(s[..n], t, k)
  {
    if k + |t| <= n {
      assert s[..n][k..k + |t|] == s[k..k + |t|];
    }
  }

  lemma OneMorePiece(first: string, rest: seq<string>, t: string)
    requires EndsAtFirst(first, t) && Between(rest, t)
    ensures Between([first] + rest, t) && Join([first] + rest, t) == first + t + Join(rest, t)
  {
    var pieces := [first] + rest;
    assert pieces[1..] == rest;
    hide EndsAtFirst, Contains;
    forall i | 0 <= i < |pieces| - 1 ensures EndsAtFirst(pieces[i], t) {
      if i > 0 {
        assert pieces[i] == rest[i - 1];
      }
    }
  }

  /** Every message is some such pieces put together around the secret. */
  lemma {:induction false} MessageIsPieces(s: string, t: string)
    requires t != ""
    ensures Between(SplitOn(s, t), t) && Join(SplitOn(s, t), t) == s
    decreases |s|
  {
    hide Between, EndsAtFirst, Join;
    match IndexOf(s, t, 0)
    case None =>
      OnePiece(s, t);
    case Some(i) =>
      FirstEndsThere(s, t, i);
      SplitFirst(s, t, i);
      hide SplitOn;
      MessageIsPieces(s[i + |t|..], t);
      OneMorePiece(s[..i], SplitOn(s[i + |t|..], t), t);
  }

  lemma OnePiece(s: string, t: string)
    requires t != "" && IndexOf(s, t, 0).None?
    ensures SplitOn(s, t) == [s] && Between([s], t) && Join([s], t) == s
  {
  }

  /** So the masked message is the same pieces around stars: nothing but the secret is touched. */
  lemma TextAroundSurvives(pieces: seq<string>, t: string)
    requires t != "" && Between(pieces, t)
    ensures MaskOne(Join(pieces, t), t) == Join(pieces, "***")
  {
    PiecesAreFound(pieces, t);
  }

  // ---- Secrets that overlap themselves ----

  /** `t` begins with its own last `m` characters. */
  predicate Overlaps(t: string, m: nat) {
    0 < m < |t| && t[..m] == t[|t| - m..]
  }

  ghost predicate OverlapsItself(t: string) {
    exists m: nat :: Overlaps(t, m)
  }

  ghost predicate AllWithout(pieces: seq<string>, t: string) {
    forall i :: 0 <= i < |pieces| ==> !Contains(pieces[i], t)
  }

  lemma WithoutEndsAtFirst(piece: string, t: string)
    requires t != "" && !Contains(piece, t) && !OverlapsItself(t)
    ensures EndsAtFirst(piece, t)
  {
    forall i | 0 <= i < |piece| ensures !OccursAt(piece + t, t, i) {
      if OccursAt(piece + t, t, i) {
        var all := piece + t;
        var m := i + |t| - |piece|;
        if m <= 0 {
          assert all[i..i + |t|] == piece[i..i + |t|];
          assert OccursAt(piece, t, i);
        } else {
          assert t[|t| - m..] == all[i..i + |t|][|t| - m..] == all[|piece|..i + |t|] == t[..m];
          assert Overlaps(t, m);
        }
      }
    }
  }

  lemma TwoPieces(first: string, last: string, glue: string)
    ensures Join([first, last], glue) == first + glue + last
  {
    assert [first, last][1..] == [last];
  }

  lemma ShorterIsWithout(s: string, t: string)
    requires |s| < |t|
    ensures !Contains(s, t)
  {
  }

  lemma OverlapText(t: string, m: nat)
    requires Overlaps(t, m)
    ensures t[..|t| - m] + t == t + t[m..] && t[..|t| - m][0] == t[0]
  {
    var p, end := t[..|t| - m], t[|t| - m..];
    assert t == p + end == t[..m] + t[m..];
  }

  lemma NothingEndsAtFirst(t: string)
    ensures EndsAtFirst("", t)
  {
  }

  lemma BothWithout(p: string, t: string)
    requires |p| < |t|
    ensures AllWithout([p, ""], t)
  {
    ShorterIsWithout(p, t);
    ShorterIsWithout("", t);
  }

  lemma MaskedAtFront(t: string, rest: string)
    requires |rest| < |t|
    ensures MaskOne(t + rest, t) == "***" + rest
  {
    hide Contains, MaskOne, Join, EndsAtFirst;
    ShorterIsWithout(rest, t);
    NothingEndsAtFirst(t);
    TwoPieces("", rest, t);
    TwoPieces("", rest, "***");
    assert "" + t == t && "" + "***" == "***";
    TextAroundSurvives(["", rest], t);
  }

  /** With a secret that overlaps itself, secret-free text before it can be taken for its beginning. */
  lemma OverlapMisleads(t: string, m: nat)
    requires t != "" && t[0] != '*' && Overlaps(t, m)
    ensures var pieces := [t[..|t| - m], ""];
      AllWithout(pieces, t) && MaskOne(Join(pieces, t), t) != Join(pieces, "***")
  {
    hide Contains, AllWithout, MaskOne, Join, EndsAtFirst;
    var p, rest := t[..|t| - m], t[m..];
    OverlapText(t, m);
    BothWithout(p, t);
    MaskedAtFront(t, rest);
    TwoPieces(p, "", t);
    TwoPieces(p, "", "***");
    assert p + t + "" == t + rest;
    assert (p + "***" + "")[0] == t[0] && ("***" + rest)[0] == '*';
  }

  /** Secret-free text always survives exactly when the secret does not overlap itself. */
  lemma SurvivesUnlessOverlapping(t: string)
    requires t != "" && t[0] != '*'
    ensures (forall pieces | pieces != [] && AllWithout(pieces, t) :: MaskOne(Join(pieces, t), t) == Join(pieces, "***"))
      <==> !OverlapsItself(t)
  {
    if OverlapsItself(t) {
      var m: nat :| Overlaps(t, m);
      OverlapMisleads(t, m);
    } else {
      hide Contains, MaskOne, Join;
      forall pieces | pieces != [] && AllWithout(pieces, t)
        ensures MaskOne(Join(pieces, t), t) == Join(pieces, "***")
      {
        forall i | 0 <= i < |pieces| ensures EndsAtFirst(pieces[i], t) {
          WithoutEndsAtFirst(pieces[i], t);
        }
        TextAroundSurvives(pieces, t);
      }
    }
  }

  // ---- Several secrets ----

  /** Text and secrets in turn: a piece, a secret, a piece, and so on, ending with a piece. */
  function Weave(pieces: seq<string>, gaps: seq<string>): string
    requires |pieces| == |gaps| + 1
  {
    if gaps == [] then pieces[0] else pieces[0] + gaps[0] + Weave(pieces[1..], gaps[1..])
  }

  function Masked(gaps: seq<string>, secrets: seq<string>): (r: seq<string>)
    ensures |r| == |gaps|
    ensures forall i :: 0 <= i < |gaps| ==> r[i] == if gaps[i] in secrets then "***" else gaps[i]
  {
    if gaps == [] then [] else [if gaps[0] in secrets then "***" else gaps[0]] + Masked(gaps[1..], secrets)
  }

  /** The pieces a reader who knows only the secret `t` sees. */
  function Apart(pieces: seq<string>, gaps: seq<string>, t: string): (r: seq<string>)
    requires |pieces| == |gaps| + 1
    ensures r != []
  {
    if gaps == [] then pieces
    else
      var rest := Apart(pieces[1..], gaps[1..], t);
      if gaps[0] == t then [pieces[0]] + rest else [pieces[0] + gaps[0] + rest[0]] + rest[1..]
  }

  function Swapped(gaps: seq<string>, t: string, x: string): (r: seq<string>)
    ensures |r| == |gaps|
    ensures forall i :: 0 <= i < |gaps| ==> r[i] == if gaps[i] == t then x else gaps[i]
  {
    if gaps == [] then [] else [if gaps[0] == t then x else gaps[0]] + Swapped(gaps[1..], t, x)
  }

  lemma JoinPrefixed(prefix: string, pieces: seq<string>, glue: string)
    requires pieces != []
    ensures Join([prefix + pieces[0]] + pieces[1..], glue) == prefix + Join(pieces, glue)
  {
    var longer := [prefix + pieces[0]] + pieces[1..];
    assert longer[1..] == pieces[1..];
    if |pieces| > 1 {
      assert prefix + pieces[0] + glue + Join(pieces[1..], glue) == prefix + (pieces[0] + glue + Join(pieces[1..], glue));
    }
  }

  /** Whatever stands for the secret `t`, the pieces around it and the other secrets stay as they are. */
  lemma {:induction false} ApartJoins(pieces: seq<string>, gaps: seq<string>, t: string, x: string)
    requires |pieces| == |gaps| + 1
    ensures Join(Apart(pieces, gaps, t), x) == Weave(pieces, Swapped(gaps, t, x))
    decreases |gaps|
  {
    if gaps != [] {
      hide Join;
      var rest := Apart(pieces[1..], gaps[1..], t);
      ApartJoins(pieces[1..], gaps[1..], t, x);
      assert Swapped(gaps, t, x)[1..] == Swapped(gaps[1..], t, x);
      if gaps[0] == t {
        var all := [pieces[0]] + rest;
        assert all[1..] == rest;
        JoinFirst(all, x);
      } else {
        JoinPrefixed(pieces[0] + gaps[0], rest, x);
      }
    } else {
      assert Swapped(gaps, t, x) == gaps;
      assert pieces == [pieces[0]];
    }
  }

  lemma SwappedItself(gaps: seq<string>, t: string)
    ensures Swapped(gaps, t, t) == gaps
  {
  }

  lemma MaskedMore(gaps: seq<string>, secrets: seq<string>, t: string)
    requires t != "***" || t in secrets
    ensures Masked(gaps, secrets + [t]) == Swapped(Masked(gaps, secrets), t, "***")
  {
  }

  /** Once the secrets before it are masked, each secret is met only where it was put. */
  ghost predicate MetWherePut(pieces: seq<string>, gaps: seq<string>, secrets: seq<string>)
    requires |pieces| == |gaps| + 1
  {
    forall j :: 0 <= j < |secrets| ==> Between(Apart(pieces, Masked(gaps, secrets[..j]), secrets[j]), secrets[j])
  }

  lemma MetBefore(pieces: seq<string>, gaps: seq<string>, secrets: seq<string>, last: string)
    requires |pieces| == |gaps| + 1 && MetWherePut(pieces, gaps, secrets + [last])
    ensures MetWherePut(pieces, gaps, secrets)
    ensures Between(Apart(pieces, Masked(gaps, secrets), last), last)
  {
    hide Between, Apart, Masked;
    var all := secrets + [last];
    assert all[..|secrets|] == secrets && all[|secrets|] == last;
    forall j | 0 <= j < |secrets|
      ensures Between(Apart(pieces, Masked(gaps, secrets[..j]), secrets[j]), secrets[j])
    {
      assert all[..j] == secrets[..j] && all[j] == secrets[j];
    }
  }

  lemma {:induction false} GapsAreMasked(pieces: seq<string>, gaps: seq<string>, secrets: seq<string>)
    requires |pieces| == |gaps| + 1 && NoneEmpty(secrets) && "***" !in secrets
    requires MetWherePut(pieces, gaps, secrets)
    ensures MaskAll(Weave(pieces, gaps), secrets) == Weave(pieces, Masked(gaps, secrets))
    decreases |secrets|
  {
    hide Between, Apart, Weave, MetWherePut;
    if secrets == [] {
      assert Masked(gaps, secrets) == gaps;
    } else {
      var rest, last := secrets[..|secrets| - 1], secrets[|secrets| - 1];
      assert secrets == rest + [last];
      MetBefore(pieces, gaps, rest, last);
      GapsAreMasked(pieces, gaps, rest);
      var now := Masked(gaps, rest);
      ApartJoins(pieces, now, last, last);
      SwappedItself(now, last);
      TextAroundSurvives(Apart(pieces, now, last), last);
      ApartJoins(pieces, now, last, "***");
      MaskedMore(gaps, rest, last);
    }
  }

  lemma {:induction false} WeaveStars(pieces: seq<string>, gaps: seq<string>)
    requires |pieces| == |gaps| + 1 && forall i :: 0 <= i < |gaps| ==> gaps[i] == "***"
    ensures Weave(pieces, gaps) == Join(pieces, "***")
    decreases |gaps|
  {
    if gaps != [] {
      WeaveStars(pieces[1..], gaps[1..]);
    }
  }

  /** A message made of text and registered secrets becomes the same text around stars. */
  lemma MessageIsTextAndStars(pieces: seq<string>, gaps: seq<string>, secrets: seq<string>)
    requires |pieces| == |gaps| + 1 && forall j :: 0 <= j < |secrets| ==> |secrets[j]| >= MIN_MASK_LENGTH
    requires forall i :: 0 <= i < |gaps| ==> gaps[i] in secrets
    requires MetWherePut(pieces, gaps, secrets)
    ensures NoneEmpty(secrets) && MaskAll(Weave(pieces, gaps), secrets) == Join(pieces, "***")
  {
    GapsAreMasked(pieces, gaps, secrets);
    WeaveStars(pieces, Masked(gaps, secrets));
  }
}

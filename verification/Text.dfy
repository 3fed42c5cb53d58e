/** Splitting and joining text, and decimal numbers, shared by the parsers. */
module Text {

  /** `s.split(sep)` for a one-character separator: always at least one piece. */
  function Split(s: string, sep: char): (r: seq<string>)
    ensures r != []
  {
    if s == "" then [""]
    else
      var rest := Split(s[1..], sep);
      if s[0] == sep then [""] + rest else [[s[0]] + rest[0]] + rest[1..]
  }

  function JoinWith(pieces: seq<string>, sep: char): string {
    if pieces == [] then ""
    else if |pieces| == 1 then pieces[0]
    else pieces[0] + [sep] + JoinWith(pieces[1..], sep)
  }

  lemma SplitCons(sep: char, c: char, s: string)
    ensures c == sep ==> Split([c] + s, sep) == [""] + Split(s, sep)
    ensures c != sep ==> Split([c] + s, sep) == [[c] + Split(s, sep)[0]] + Split(s, sep)[1..]
  {
    assert ([c] + s)[1..] == s;
  }

  /** Splitting loses nothing, and no piece contains the separator. */
  lemma {:induction false} JoinSplit(s: string, sep: char)
    ensures JoinWith(Split(s, sep), sep) == s
    ensures forall i :: 0 <= i < |Split(s, sep)| ==> sep !in Split(s, sep)[i]
  {
    if s != "" {
      JoinSplit(s[1..], sep);
      var rest := Split(s[1..], sep);
      assert s == [s[0]] + s[1..];
      if s[0] == sep {
        assert ([""] + rest)[1..] == rest;
      } else {
        assert ([[s[0]] + rest[0]] + rest[1..])[1..] == rest[1..];
      }
    }
  }

  lemma JoinLonger(c: char, first: string, rest: seq<string>, sep: char)
    ensures JoinWith([[c] + first] + rest, sep) == [c] + JoinWith([first] + rest, sep)
  {
    assert ([[c] + first] + rest)[1..] == rest && ([first] + rest)[1..] == rest;
    if rest != [] {
      assert [c] + first + [sep] + JoinWith(rest, sep) == [c] + (first + [sep] + JoinWith(rest, sep));
    }
  }

  lemma JoinAfterEmpty(rest: seq<string>, sep: char)
    requires rest != []
    ensures JoinWith([""] + rest, sep) == [sep] + JoinWith(rest, sep)
  {
    assert ([""] + rest)[1..] == rest;
  }

  lemma SplitNothing(sep: char)
    ensures JoinWith([""], sep) == "" && Split("", sep) == [""]
  {
  }

  /** Pieces without the separator come back from the joined text. */
  lemma {:induction false} SplitJoin(pieces: seq<string>, sep: char)
    requires pieces != [] && forall i :: 0 <= i < |pieces| ==> sep !in pieces[i]
    ensures Split(JoinWith(pieces, sep), sep) == pieces
    decreases |pieces|, |pieces[0]|
  {
    hide Split, JoinWith;
    var first, rest := pieces[0], pieces[1..];
    assert pieces == [first] + rest;
    if first != "" {
      var c, shorter := first[0], first[1..];
      assert first == [c] + shorter;
      SplitJoin([shorter] + rest, sep);
      JoinLonger(c, shorter, rest, sep);
      SplitCons(sep, c, JoinWith([shorter] + rest, sep));
    } else if rest != [] {
      SplitJoin(rest, sep);
      JoinAfterEmpty(rest, sep);
      SplitCons(sep, sep, JoinWith(rest, sep));
    } else {
      assert pieces == [""];
      SplitNothing(sep);
    }
  }

  function Digit(n: nat): char
    requires n < 10
  {
    ['0', '1', '2', '3', '4', '5', '6', '7', '8', '9'][n]
  }

  function Decimal(n: nat): string {
    if n < 10 then [Digit(n)] else Decimal(n / 10) + [Digit(n % 10)]
  }
}

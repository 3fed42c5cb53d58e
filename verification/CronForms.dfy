/** The documented forms of a cron field, written out and read back by the parser. */
module CronForms {
  import opened Collections
  import opened Text
  import opened CronFields

  /** `*`, `*` by a step, `N`, `N` by a step, `N-M`, `N-M` by a step. */
  datatype Form =
    | Every
    | EveryBy(step: nat)
    | At(n: nat)
    | AtBy(n: nat, step: nat)
    | Between(lo: nat, hi: nat)
    | BetweenBy(lo: nat, hi: nat, step: nat)

  predicate Admissible(form: Form, min: int, max: int) {
    match form
    case Every => min <= max
    case EveryBy(step) => min <= max && step >= 1
    case At(n) => min <= n <= max
    case AtBy(n, step) => min <= n <= max && step >= 1
    case Between(lo, hi) => min <= lo <= hi <= max
    case BetweenBy(lo, hi, step) => min <= lo <= hi <= max && step >= 1
  }

  /** What the form stands for. A single value by a step of 1 is only that value. */
  predicate FormDenotes(form: Form, min: int, max: int, v: int) {
    && min <= v <= max
    && match form
       case Every => true
       case EveryBy(step) => step >= 1 && (v - min) % step == 0
       case At(n) => v == n
       case AtBy(n, step) => v == n || (step > 1 && v >= n && (v - n) % step == 0)
       case Between(lo, hi) => lo <= v <= hi
       case BetweenBy(lo, hi, step) => step >= 1 && lo <= v <= hi && (v - lo) % step == 0
  }

  predicate SomeFormDenotes(forms: seq<Form>, min: int, max: int, v: int) {
    exists i :: 0 <= i < |forms| && FormDenotes(forms[i], min, max, v)
  }

  // ---- Writing ----

  function RangeText(form: Form): string {
    match form
    case Every => "*"
    case EveryBy(_) => "*"
    case At(n) => Decimal(n)
    case AtBy(n, _) => Decimal(n)
    case Between(lo, hi) => JoinWith([Decimal(lo), Decimal(hi)], '-')
    case BetweenBy(lo, hi, _) => JoinWith([Decimal(lo), Decimal(hi)], '-')
  }

  function FormText(form: Form): string {
    if form.EveryBy? || form.AtBy? || form.BetweenBy?
    then JoinWith([RangeText(form), Decimal(form.step)], '/')
    else RangeText(form)
  }

  function FormTexts(forms: seq<Form>): seq<string> {
    seq(|forms|, i requires 0 <= i < |forms| => FormText(forms[i]))
  }

  function FieldText(forms: seq<Form>): string {
    JoinWith(FormTexts(forms), ',')
  }

  // ---- Numbers ----

  predicate AllDigits(s: string) {
    forall i :: 0 <= i < |s| ==> IsDigit(s[i])
  }

  lemma DigitIsRead(n: nat)
    requires n < 10
    ensures IsDigit(Digit(n)) && DigitValue(Digit(n)) == n
  {
  }

  lemma DigitsValueSnoc(digits: string, n: nat)
    requires n < 10
    ensures DigitsValue(digits + [Digit(n)]) == 10 * DigitsValue(digits) + n
  {
    DigitIsRead(n);
    hide Digit;
    assert (digits + [Digit(n)])[..|digits|] == digits;
  }

  lemma {:induction false} DecimalDigits(n: nat)
    ensures Decimal(n) != "" && AllDigits(Decimal(n)) && DigitsValue(Decimal(n)) == n
  {
    hide Digit, IsDigit, DigitsValue;
    DigitIsRead(n % 10);
    if n < 10 {
      DigitsValueSnoc("", n);
      NoDigits();
      assert "" + [Digit(n)] == [Digit(n)];
    } else {
      DecimalDigits(n / 10);
      DigitsValueSnoc(Decimal(n / 10), n % 10);
    }
  }

  lemma NoDigits()
    ensures DigitsValue("") == 0
  {
  }

  lemma {:induction false} DigitPrefixWhole(s: string)
    requires AllDigits(s)
    ensures DigitPrefix(s) == s
  {
    if s != "" {
      DigitPrefixWhole(s[1..]);
    }
  }

  lemma DecimalReadsBack(n: nat)
    ensures ParseInt(Decimal(n)) == Some(n)
  {
    DecimalDigits(n);
    DigitPrefixWhole(Decimal(n));
  }

  lemma {:induction false} DigitPrefixStops(digits: string, rest: string)
    requires AllDigits(digits) && (rest == "" || !IsDigit(rest[0]))
    ensures DigitPrefix(digits + rest) == digits
  {
    if digits == "" {
      assert digits + rest == rest;
    } else {
      assert (digits + rest)[1..] == digits[1..] + rest;
      DigitPrefixStops(digits[1..], rest);
      assert digits == [digits[0]] + digits[1..];
    }
  }

  lemma {:induction false} TrimLeftSkips(space: string, rest: string)
    requires (forall i :: 0 <= i < |space| ==> IsSpace(space[i])) && (rest == "" || !IsSpace(rest[0]))
    ensures TrimLeft(space + rest) == rest
  {
    if space == "" {
      assert space + rest == rest;
    } else {
      assert (space + rest)[1..] == space[1..] + rest;
      TrimLeftSkips(space[1..], rest);
    }
  }

  lemma ParseTrimmed(s: string, sign: string, digits: string)
    requires sign == "" || sign == "+" || sign == "-"
    requires TrimLeft(s) == sign + digits && digits != "" && IsDigit(digits[0])
    ensures var n: int := DigitsValue(DigitPrefix(digits)); ParseInt(s) == Some(if sign == "-" then -n else n)
  {
    hide TrimLeft, DigitsValue;
    if sign == "" {
      assert sign + digits == digits;
    } else {
      assert (sign + digits)[1..] == digits;
    }
    assert DigitPrefix(digits) != "";
  }

  /** parseInt skips leading space, takes a sign and the digits, and ignores whatever follows them. */
  lemma ParseIntReads(space: string, sign: string, n: nat, rest: string)
    requires forall i :: 0 <= i < |space| ==> IsSpace(space[i])
    requires sign == "" || sign == "+" || sign == "-"
    requires rest == "" || !IsDigit(rest[0])
    ensures var value: int := n;
      ParseInt(space + (sign + (Decimal(n) + rest))) == Some(if sign == "-" then -value else value)
  {
    DecimalDigits(n);
    var digits := Decimal(n) + rest;
    hide Decimal, DigitsValue;
    DigitPrefixStops(Decimal(n), rest);
    assert digits[0] == Decimal(n)[0] && IsDigit(digits[0]);
    assert (sign + digits)[0] == if sign == "" then digits[0] else sign[0];
    TrimLeftSkips(space, sign + digits);
    hide DigitPrefix, TrimLeft, ParseInt;
    ParseTrimmed(space + (sign + digits), sign, digits);
  }

  lemma {:induction false} NoDigitsNoNumber(s: string)
    requires forall i :: 0 <= i < |s| ==> !IsDigit(s[i])
    ensures ParseInt(s).None?
  {
    TrimLeftIsSuffix(s);
  }

  lemma {:induction false} TrimLeftIsSuffix(s: string)
    ensures |TrimLeft(s)| <= |s| && TrimLeft(s) == s[|s| - |TrimLeft(s)|..]
  {
    if s != "" && IsSpace(s[0]) {
      TrimLeftIsSuffix(s[1..]);
    }
  }

  lemma {:induction false} TrimRightIsPrefix(s: string)
    ensures |TrimRight(s)| <= |s| && TrimRight(s) == s[..|TrimRight(s)|]
  {
    if s != "" && IsSpace(s[|s| - 1]) {
      TrimRightIsPrefix(s[..|s| - 1]);
    }
  }

  predicate NoDigit(s: string) {
    forall i :: 0 <= i < |s| ==> !IsDigit(s[i])
  }

  lemma {:induction false} PiecesHaveNoDigit(s: string, sep: char)
    requires NoDigit(s)
    ensures forall i :: 0 <= i < |Split(s, sep)| ==> NoDigit(Split(s, sep)[i])
    ensures '*' !in s ==> '*' !in Split(s, sep)[0]
  {
    if s != "" {
      PiecesHaveNoDigit(s[1..], sep);
    }
  }

  /** A part with neither a digit nor a star is refused. */
  lemma GarbageIsRefused(part: string, min: int, max: int)
    requires NoDigit(part) && '*' !in part
    ensures ParsePart(part, min, max).Err?
  {
    var left := TrimLeft(part);
    TrimLeftIsSuffix(part);
    TrimRightIsPrefix(left);
    var trimmed := Trim(part);
    assert NoDigit(trimmed) && '*' !in trimmed;
    PiecesHaveNoDigit(trimmed, '/');
    var range := Split(trimmed, '/')[0];
    PiecesHaveNoDigit(range, '-');
    hide Split, Trim, TrimLeft, TrimRight;
    NoDigitsNoNumber(range);
    NoDigitsNoNumber(Split(range, '-')[0]);
    hide ParseInt;
  }

  // ---- One form ----

  predicate Spaceless(s: string) {
    forall i :: 0 <= i < |s| ==> !IsSpace(s[i])
  }

  lemma TrimSpaceless(s: string)
    requires Spaceless(s)
    ensures Trim(s) == s
  {
  }

  lemma JoinTwo(a: string, b: string, sep: char)
    ensures JoinWith([a, b], sep) == a + [sep] + b
  {
    assert [a, b][1..] == [b];
  }

  lemma NumberIsRead(n: nat)
    ensures Spaceless(Decimal(n)) && '/' !in Decimal(n) && ',' !in Decimal(n) && '-' !in Decimal(n)
    ensures Decimal(n) != "*" && Decimal(n) != "" && ParseInt(Decimal(n)) == Some(n)
  {
    DecimalDigits(n);
    DecimalReadsBack(n);
    hide Decimal, ParseInt, DigitsValue;
    assert IsDigit(Decimal(n)[0]) && !IsDigit("*"[0]);
  }

  lemma BoundsAreRead(lo: nat, hi: nat)
    ensures var range := JoinWith([Decimal(lo), Decimal(hi)], '-');
      && Spaceless(range) && '/' !in range && ',' !in range && '-' in range && range != "*"
      && Split(range, '-') == [Decimal(lo), Decimal(hi)]
  {
    NumberIsRead(lo);
    NumberIsRead(hi);
    hide Decimal, ParseInt, Split;
    JoinTwo(Decimal(lo), Decimal(hi), '-');
    SplitJoin([Decimal(lo), Decimal(hi)], '-');
    hide JoinWith;
    assert (Decimal(lo) + ['-'] + Decimal(hi))[|Decimal(lo)|] == '-';
  }

  lemma RangeIsRead(form: Form, min: int, max: int)
    requires Admissible(form, min, max)
    ensures Spaceless(RangeText(form)) && '/' !in RangeText(form) && ',' !in RangeText(form)
    ensures RangeText(form) == "*" <==> form.Every? || form.EveryBy?
    ensures '-' in RangeText(form) <==> form.Between? || form.BetweenBy?
    ensures form.At? || form.AtBy? ==> ParseInt(RangeText(form)) == Some(form.n)
    ensures form.Between? || form.BetweenBy? ==>
      var bounds := Split(RangeText(form), '-');
      |bounds| == 2 && ParseInt(bounds[0]) == Some(form.lo) && ParseInt(bounds[1]) == Some(form.hi)
  {
    hide ParseInt, Decimal, Split, JoinWith;
    if form.At? || form.AtBy? {
      NumberIsRead(form.n);
    } else if form.Between? || form.BetweenBy? {
      NumberIsRead(form.lo);
      NumberIsRead(form.hi);
      BoundsAreRead(form.lo, form.hi);
    }
  }

  function FormPart(form: Form, min: int, max: int): Part {
    match form
    case Every => Steps(min, max, 1)
    case EveryBy(step) => Steps(min, max, step)
    case At(n) => Single(n)
    case AtBy(n, step) => if step == 1 then Single(n) else Steps(n, max, step)
    case Between(lo, hi) => Steps(lo, hi, 1)
    case BetweenBy(lo, hi, step) => Steps(lo, hi, step)
  }

  lemma FormIsParsed(form: Form, min: int, max: int)
    requires Admissible(form, min, max)
    ensures ParsePart(FormText(form), min, max) == Ok(FormPart(form, min, max))
    ensures Spaceless(FormText(form)) && ',' !in FormText(form)
  {
    hide ParseInt, Decimal, Split, JoinWith, RangeText, Trim;
    RangeIsRead(form, min, max);
    var range := RangeText(form);
    if form.EveryBy? || form.AtBy? || form.BetweenBy? {
      NumberIsRead(form.step);
      JoinTwo(range, Decimal(form.step), '/');
      SplitJoin([range, Decimal(form.step)], '/');
    } else {
      SingleJoin(range, '/');
      SplitJoin([range], '/');
    }
    TrimSpaceless(FormText(form));
  }

  lemma SingleJoin(s: string, sep: char)
    ensures JoinWith([s], sep) == s
  {
  }

  lemma SelfStep(n: int, step: int)
    requires step >= 1
    ensures (n - n) % step == 0
  {
  }

  lemma PartMeans(form: Form, min: int, max: int, v: int)
    requires Admissible(form, min, max)
    ensures Denotes(FormPart(form, min, max), v) <==> FormDenotes(form, min, max, v)
  {
    if form.AtBy? {
      SelfStep(form.n, form.step);
    }
  }

  /** A documented form is accepted and denotes exactly the values it stands for. */
  lemma FormIsRead(form: Form, min: int, max: int, v: int)
    requires Admissible(form, min, max)
    ensures ParsePart(FormText(form), min, max).Ok?
    ensures Denotes(ParsePart(FormText(form), min, max).value, v) <==> FormDenotes(form, min, max, v)
  {
    hide ParsePart, FormText, FormDenotes, Denotes;
    FormIsParsed(form, min, max);
    PartMeans(form, min, max, v);
  }

  // ---- A field and an expression ----

  /** A list of documented forms denotes the union of what they stand for. */
  lemma FieldIsRead(forms: seq<Form>, min: int, max: int)
    requires forms != [] && forall i :: 0 <= i < |forms| ==> Admissible(forms[i], min, max)
    ensures FieldIsValid(FieldText(forms), min, max) && Spaceless(FieldText(forms)) && FieldText(forms) != ""
    ensures forall v :: FieldDenotes(FieldText(forms), min, max, v) <==> SomeFormDenotes(forms, min, max, v)
  {
    hide ParsePart, Denotes, FormDenotes, Split, FormText, Admissible;
    var texts := FormTexts(forms);
    forall i | 0 <= i < |forms| ensures Spaceless(texts[i]) && ',' !in texts[i] {
      FormIsParsed(forms[i], min, max);
    }
    SplitJoin(texts, ',');
    JoinSpaceless(texts, ',');
    forall i | 0 <= i < |forms| ensures ParsePart(texts[i], min, max).Ok? {
      FormIsRead(forms[i], min, max, min);
    }
    forall i, v | 0 <= i < |forms|
      ensures Denotes(ParsePart(texts[i], min, max).value, v) <==> FormDenotes(forms[i], min, max, v)
    {
      FormIsRead(forms[i], min, max, v);
    }
    assert FieldText(forms) != "" by {
      FirstText(forms, min, max);
    }
    forall v ensures PartsDenote(texts, min, max, v) <==> SomeFormDenotes(forms, min, max, v) {
      if PartsDenote(texts, min, max, v) {
        var i :| 0 <= i < |texts| && ParsePart(texts[i], min, max).Ok? && Denotes(ParsePart(texts[i], min, max).value, v);
        assert FormDenotes(forms[i], min, max, v);
      }
      if i :| 0 <= i < |forms| && FormDenotes(forms[i], min, max, v) {
        assert Denotes(ParsePart(texts[i], min, max).value, v);
      }
    }
  }

  lemma FirstText(forms: seq<Form>, min: int, max: int)
    requires forms != [] && Admissible(forms[0], min, max)
    ensures FieldText(forms) != ""
  {
    RangeIsRead(forms[0], min, max);
    var n := match forms[0] case At(n) => n case AtBy(n, _) => n case Between(lo, _) => lo case BetweenBy(lo, _, _) => lo case _ => 0;
    NumberIsRead(n);
    assert FormText(forms[0]) != "";
  }

  lemma {:induction false} JoinSpaceless(pieces: seq<string>, sep: char)
    requires !IsSpace(sep) && forall i :: 0 <= i < |pieces| ==> Spaceless(pieces[i])
    ensures Spaceless(JoinWith(pieces, sep))
  {
    if |pieces| > 1 {
      JoinSpaceless(pieces[1..], sep);
    }
  }

  // ---- Laying out the fields ----

  predicate Blank(s: string) {
    forall i :: 0 <= i < |s| ==> IsSpace(s[i])
  }

  /** Words, each after its gap. */
  function Laid(gaps: seq<string>, words: seq<string>): string
    requires |gaps| == |words|
  {
    if words == [] then "" else gaps[0] + (words[0] + Laid(gaps[1..], words[1..]))
  }

  function Layout(lead: string, words: seq<string>, gaps: seq<string>, trail: string): string
    requires |words| == |gaps| + 1
  {
    lead + ((words[0] + Laid(gaps, words[1..])) + trail)
  }

  predicate Separate(gaps: seq<string>, words: seq<string>) {
    && (forall i :: 0 <= i < |gaps| ==> gaps[i] != "" && Blank(gaps[i]))
    && (forall i :: 0 <= i < |words| ==> words[i] != "" && Spaceless(words[i]))
  }

  lemma SplitAfterGap(gap: string, rest: string)
    requires gap != "" && Blank(gap) && rest != "" && !IsSpace(rest[0])
    ensures SplitSpaces(gap + rest) == [""] + SplitSpaces(rest)
  {
    TrimLeftSkips(gap, rest);
    assert (gap + rest)[0] == gap[0];
  }

  lemma SplitInWord(c: char, rest: string)
    requires !IsSpace(c)
    ensures SplitSpaces([c] + rest) == [[c] + SplitSpaces(rest)[0]] + SplitSpaces(rest)[1..]
  {
    assert ([c] + rest)[1..] == rest;
  }

  lemma {:induction false} LaidWordsAreRead(first: string, gaps: seq<string>, words: seq<string>)
    requires |gaps| == |words| && Separate(gaps, words) && Spaceless(first)
    ensures SplitSpaces(first + Laid(gaps, words)) == [first] + words
    decreases |words|, |first|
  {
    hide SplitSpaces;
    if first != "" {
      var c, shorter := first[0], first[1..];
      LaidWordsAreRead(shorter, gaps, words);
      assert first == [c] + shorter;
      assert first + Laid(gaps, words) == [c] + (shorter + Laid(gaps, words));
      SplitInWord(c, shorter + Laid(gaps, words));
    } else if words != [] {
      var rest := words[0] + Laid(gaps[1..], words[1..]);
      LaidWordsAreRead(words[0], gaps[1..], words[1..]);
      assert first + Laid(gaps, words) == gaps[0] + rest;
      assert rest[0] == words[0][0];
      SplitAfterGap(gaps[0], rest);
      assert words == [words[0]] + words[1..];
    } else {
      assert first + Laid(gaps, words) == "";
      SplitNothing();
    }
  }

  lemma SplitNothing()
    ensures SplitSpaces("") == [""]
  {
  }

  lemma {:induction false} LaidEnds(first: string, gaps: seq<string>, words: seq<string>)
    requires |gaps| == |words| && Separate(gaps, words) && Spaceless(first) && first != ""
    ensures var text := first + Laid(gaps, words);
      text != "" && text[0] == first[0] && !IsSpace(text[|text| - 1])
    decreases |words|
  {
    if words != [] {
      var rest := words[0] + Laid(gaps[1..], words[1..]);
      LaidEnds(words[0], gaps[1..], words[1..]);
      assert first + Laid(gaps, words) == (first + gaps[0]) + rest;
    }
  }

  lemma {:induction false} TrimRightSkips(text: string, trail: string)
    requires Blank(trail) && (text == "" || !IsSpace(text[|text| - 1]))
    ensures TrimRight(text + trail) == text
  {
    if trail == "" {
      assert text + trail == text;
    } else {
      var shorter := trail[..|trail| - 1];
      assert (text + trail)[..|text + trail| - 1] == text + shorter;
      TrimRightSkips(text, shorter);
    }
  }

  /** However the words are spaced, before, between and after, they are the fields. */
  lemma SpacingIsFree(lead: string, words: seq<string>, gaps: seq<string>, trail: string)
    requires |words| == |gaps| + 1 && Separate(gaps, words) && Blank(lead) && Blank(trail)
    ensures Fields(Layout(lead, words, gaps, trail)) == words
  {
    var text := words[0] + Laid(gaps, words[1..]);
    LaidEnds(words[0], gaps, words[1..]);
    LaidWordsAreRead(words[0], gaps, words[1..]);
    hide SplitSpaces, Laid;
    TrimLeftSkips(lead, text + trail);
    TrimRightSkips(text, trail);
    assert words == [words[0]] + words[1..];
  }

  function FieldTexts(fields: seq<seq<Form>>): seq<string> {
    seq(|fields|, i requires 0 <= i < |fields| => FieldText(fields[i]))
  }

  const BLANKS: seq<string> := [" ", " ", " ", " "]

  function ExpressionText(fields: seq<seq<Form>>): string
    requires |fields| == 5
  {
    Layout("", FieldTexts(fields), BLANKS, "")
  }

  function FieldMin(i: nat): int {
    if i == 2 || i == 3 then 1 else 0
  }

  function FieldMax(i: nat): int
    requires i < 5
  {
    [59, 23, 31, 12, 6][i]
  }

  /** Five lists of documented forms, however spaced, make a valid expression with the documented meaning. */
  lemma DocumentedExpression(fields: seq<seq<Form>>, lead: string, gaps: seq<string>, trail: string)
    requires |fields| == 5 && |gaps| == 4 && Separate(gaps, []) && Blank(lead) && Blank(trail)
    requires forall i, j :: 0 <= i < 5 && 0 <= j < |fields[i]| ==> Admissible(fields[i][j], FieldMin(i), FieldMax(i))
    requires forall i :: 0 <= i < 5 ==> fields[i] != []
    ensures var expr := Layout(lead, FieldTexts(fields), gaps, trail);
      && ExpressionIsValid(expr)
      && forall i, v :: 0 <= i < 5 ==>
           FieldDenotes(Fields(expr)[i], FieldMin(i), FieldMax(i), v)
           == SomeFormDenotes(fields[i], FieldMin(i), FieldMax(i), v)
  {
    hide Admissible, FieldIsValid, FieldDenotes, SomeFormDenotes, FieldText, Fields, Layout, Split;
    var texts := FieldTexts(fields);
    forall i | 0 <= i < 5
      ensures FieldIsValid(texts[i], FieldMin(i), FieldMax(i)) && Spaceless(texts[i]) && texts[i] != ""
      ensures forall v ::
        FieldDenotes(texts[i], FieldMin(i), FieldMax(i), v) == SomeFormDenotes(fields[i], FieldMin(i), FieldMax(i), v)
    {
      FieldIsRead(fields[i], FieldMin(i), FieldMax(i));
    }
    SpacingIsFree(lead, texts, gaps, trail);
    assert Fields(Layout(lead, texts, gaps, trail)) == texts;
    assert forall i :: 0 <= i < 5 ==> FieldIsValid(texts[i], FieldMin(i), FieldMax(i));
  }

  lemma DocumentedText(fields: seq<seq<Form>>)
    requires |fields| == 5
    requires forall i, j :: 0 <= i < 5 && 0 <= j < |fields[i]| ==> Admissible(fields[i][j], FieldMin(i), FieldMax(i))
    requires forall i :: 0 <= i < 5 ==> fields[i] != []
    ensures ExpressionIsValid(ExpressionText(fields))
    ensures forall i, v :: 0 <= i < 5 ==>
      FieldDenotes(Fields(ExpressionText(fields))[i], FieldMin(i), FieldMax(i), v)
      == SomeFormDenotes(fields[i], FieldMin(i), FieldMax(i), v)
  {
    hide Layout, FieldDenotes, ExpressionIsValid, SomeFormDenotes;
    DocumentedExpression(fields, "", BLANKS, "");
  }
}

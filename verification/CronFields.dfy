/** Parsing of five-field cron expressions. */
module CronFields {
  import opened Arithmetic
  import opened Collections
  import opened Text

  datatype CronError =
    | InvalidStep(text: string)
    | InvalidRange(text: string)
    | InvalidValue(text: string)
    | FieldCount(count: nat)

  datatype Result<+T> = Ok(value: T) | Err(error: CronError)

  // ---- Characters and numbers, as ECMAScript reads them ----

  /** WhiteSpace and LineTerminator of sections 12.2 and 12.3 of ECMA-262, which trim, \s and parseInt share. */
  predicate IsSpace(c: char) {
    var u := c as int;
    || 0x9 <= u <= 0xD || u == 0x20 || u == 0xA0 || u == 0x1680 || 0x2000 <= u <= 0x200A
    || u == 0x2028 || u == 0x2029 || u == 0x202F || u == 0x205F || u == 0x3000 || u == 0xFEFF
  }

  predicate IsDigit(c: char) {
    '0' <= c <= '9'
  }

  function TrimLeft(s: string): string {
    if s != "" && IsSpace(s[0]) then TrimLeft(s[1..]) else s
  }

  function TrimRight(s: string): string {
    if s != "" && IsSpace(s[|s| - 1]) then TrimRight(s[..|s| - 1]) else s
  }

  function Trim(s: string): string {
    TrimRight(TrimLeft(s))
  }

  function DigitPrefix(s: string): string {
    if s != "" && IsDigit(s[0]) then [s[0]] + DigitPrefix(s[1..]) else ""
  }

  function DigitValue(c: char): nat {
    if IsDigit(c) then (c as int) - 48 else 0
  }

  function DigitsValue(digits: string): nat {
    if digits == "" then 0
    else 10 * DigitsValue(digits[..|digits| - 1]) + DigitValue(digits[|digits| - 1])
  }

  /** `parseInt(s, 10)`, with `None` for NaN: leading space, a sign, then as many digits as there are. */
  function ParseInt(s: string): Option<int> {
    var t := TrimLeft(s);
    var signed := t != "" && (t[0] == '+' || t[0] == '-');
    var digits := DigitPrefix(if signed then t[1..] else t);
    if digits == "" then None
    else
      var n: int := DigitsValue(digits);
      Some(if signed && t[0] == '-' then -n else n)
  }

  /** `s.split(/\s+/)`. */
  function SplitSpaces(s: string): (r: seq<string>)
    ensures r != []
    decreases |s|
  {
    if s == "" then [""]
    else if IsSpace(s[0]) then
      TrimLeftShrinks(s);
      [""] + SplitSpaces(TrimLeft(s))
    else
      var rest := SplitSpaces(s[1..]);
      [[s[0]] + rest[0]] + rest[1..]
  }

  lemma TrimLeftShrinks(s: string)
    ensures |TrimLeft(s)| <= |s|
    ensures s != "" && IsSpace(s[0]) ==> |TrimLeft(s)| < |s|
  {
  }

  // ---- One part of a field ----

  /** `Single(n)` is `n` alone; `Steps(a, b, k)` is `a`, `a + k`, ... up to `b`. */
  datatype Part = Single(value: int) | Steps(start: int, end: int, step: int)

  predicate Denotes(part: Part, v: int) {
    match part
    case Single(n) => v == n
    case Steps(start, end, step) => step >= 1 && start <= v <= end && (v - start) % step == 0
  }

  function ParsePart(part: string, min: int, max: int): Result<Part> {
    var trimmed := Trim(part);
    var slashes := Split(trimmed, '/');
    var range := slashes[0];
    var step := if |slashes| > 1 && slashes[1] != "" then ParseInt(slashes[1]) else Some(1);
    if step.None? || step.value < 1 then Err(InvalidStep(trimmed))
    else if range == "*" then Ok(Steps(min, max, step.value))
    else if '-' in range then
      var bounds := Split(range, '-');
      var lo, hi := ParseInt(bounds[0]), if |bounds| > 1 then ParseInt(bounds[1]) else None;
      if lo.None? || hi.None? || lo.value < min || hi.value > max || lo.value > hi.value
      then Err(InvalidRange(range))
      else Ok(Steps(lo.value, hi.value, step.value))
    else
      var n := ParseInt(range);
      if n.None? || n.value < min || n.value > max then Err(InvalidValue(range))
      else if step.value == 1 then Ok(Single(n.value))
      else Ok(Steps(n.value, max, step.value))
  }

  lemma PartShape(part: string, min: int, max: int)
    requires min <= max && ParsePart(part, min, max).Ok?
    ensures match ParsePart(part, min, max).value
      case Single(n) => min <= n <= max
      case Steps(start, end, step) => min <= start <= end <= max && step >= 1
  {
    hide Trim, Split, ParseInt;
  }

  /** A parsed part denotes at least its first value, and only values within bounds. */
  lemma PartWithinBounds(part: string, min: int, max: int)
    requires min <= max && ParsePart(part, min, max).Ok?
    ensures exists v :: Denotes(ParsePart(part, min, max).value, v)
    ensures forall v :: Denotes(ParsePart(part, min, max).value, v) ==> min <= v <= max
  {
    PartShape(part, min, max);
    hide ParsePart;
    var p := ParsePart(part, min, max).value;
    assert Denotes(p, if p.Single? then p.value else p.start);
  }

  // ---- A field: the union of its parts ----

  ghost predicate FieldIsValid(field: string, min: int, max: int) {
    forall i :: 0 <= i < |Split(field, ',')| ==> ParsePart(Split(field, ',')[i], min, max).Ok?
  }

  ghost predicate PartsDenote(parts: seq<string>, min: int, max: int, v: int) {
    exists i :: 0 <= i < |parts| && ParsePart(parts[i], min, max).Ok? && Denotes(ParsePart(parts[i], min, max).value, v)
  }

  ghost predicate FieldDenotes(field: string, min: int, max: int, v: int) {
    PartsDenote(Split(field, ','), min, max, v)
  }

  ghost predicate Increasing(s: seq<int>) {
    forall i, j :: 0 <= i < j < |s| ==> s[i] < s[j]
  }

  /** The values of one field, in order. */
  ghost predicate IsField(values: seq<int>, field: string, min: int, max: int) {
    && values != [] && Increasing(values)
    && (forall v :: v in values ==> min <= v <= max)
    && (forall v :: v in values <==> FieldDenotes(field, min, max, v))
  }

  function InsertNumber(s: seq<int>, x: int): seq<int> {
    if s == [] then [x]
    else if x < s[0] then [x] + s
    else [s[0]] + InsertNumber(s[1..], x)
  }

  lemma {:induction false} InsertNumberSorts(s: seq<int>, x: int)
    requires Increasing(s) && x !in s
    ensures Increasing(InsertNumber(s, x))
    ensures forall v :: v in InsertNumber(s, x) <==> v == x || v in s
  {
    if s != [] {
      InsertNumberSorts(s[1..], x);
      assert s == [s[0]] + s[1..];
      var r := InsertNumber(s[1..], x);
      assert forall i :: 0 <= i < |r| ==> r[i] in r;
    }
  }

  lemma SomeMember(s: set<int>)
    requires s != {}
    ensures exists v :: v in s
  {
    if forall v :: v !in s {
      assert false;
    }
  }

  /** `[...values].sort((a, b) => a - b)`. */
  method SortNumbers(values: set<int>) returns (sorted: seq<int>)
    ensures Increasing(sorted)
    ensures forall v :: v in sorted <==> v in values
  {
    sorted := [];
    var rest := values;
    while rest != {}
      invariant rest <= values && Increasing(sorted)
      invariant forall v :: v in sorted <==> v in values && v !in rest
      decreases |rest|
    {
      SomeMember(rest);
      var v :| v in rest;
      InsertNumberSorts(sorted, v);
      sorted := InsertNumber(sorted, v);
      rest := rest - {v};
    }
  }

  lemma NextStep(start: int, i: int, step: int, v: int)
    requires step >= 1 && (i - start) % step == 0
    ensures (i + step - start) % step == 0
    ensures i <= v < i + step && (v - start) % step == 0 ==> v == i
  {
    ModExact(i - start, step);
    if i <= v < i + step && (v - start) % step == 0 {
      ModExact(v - start, step);
      MultiplesApart((v - start) / step, (i - start) / step, step);
    }
  }

  /** Add `start`, `start + step`, ... up to `end`. */
  method AddSteps(values: set<int>, start: int, end: int, step: int) returns (r: set<int>)
    requires step >= 1
    ensures forall v :: v in r <==> v in values || Denotes(Steps(start, end, step), v)
  {
    r := values;
    var i := start;
    while i <= end
      invariant i >= start && (i - start) % step == 0
      invariant forall v :: v in r <==> v in values || (Denotes(Steps(start, end, step), v) && v < i)
      decreases end - i
    {
      forall v ensures Denotes(Steps(start, end, step), v) && v < i + step
        <==> (Denotes(Steps(start, end, step), v) && v < i) || v == i
      {
        NextStep(start, i, step, v);
      }
      NextStep(start, i, step, i);
      r := r + {i};
      i := i + step;
    }
  }

  /** The error of the first malformed part. */
  ghost predicate FirstError(parts: seq<string>, min: int, max: int, error: CronError) {
    exists i ::
      && 0 <= i < |parts|
      && ParsePart(parts[i], min, max) == Err(error)
      && forall j :: 0 <= j < i ==> ParsePart(parts[j], min, max).Ok?
  }

  method ParseCronField(field: string, min: int, max: int) returns (r: Result<seq<int>>)
    requires min <= max
    ensures r.Ok? <==> FieldIsValid(field, min, max)
    ensures r.Ok? ==> IsField(r.value, field, min, max)
    ensures r.Err? ==> FirstError(Split(field, ','), min, max, r.error)
  {
    hide ParsePart, Denotes, Split;
    var values: set<int> := {};
    var parts := Split(field, ',');
    for i := 0 to |parts|
      invariant forall j :: 0 <= j < i ==> ParsePart(parts[j], min, max).Ok?
      invariant forall v :: v in values <==> PartsDenote(parts[..i], min, max, v)
    {
      var part := ParsePart(parts[i], min, max);
      if part.Err? {
        assert FirstError(parts, min, max, part.error);
        return Err(part.error);
      }
      forall v ensures PartsDenote(parts[..i + 1], min, max, v)
        <==> PartsDenote(parts[..i], min, max, v) || Denotes(part.value, v)
      {
        OnePartMore(parts, i, min, max, v);
      }
      match part.value {
        case Single(n) =>
          SingleDenotes(n);
          values := values + {n};
        case Steps(start, end, step) =>
          StepIsPositive(parts[i], min, max);
          values := AddSteps(values, start, end, step);
      }
    }
    assert parts[..|parts|] == parts;
    var sorted := SortNumbers(values);
    FieldWithinBounds(field, min, max);
    assert forall v :: v in sorted <==> FieldDenotes(field, min, max, v);
    assert sorted != [] by {
      var v :| FieldDenotes(field, min, max, v);
      assert v in sorted;
    }
    assert IsField(sorted, field, min, max);
    r := Ok(sorted);
  }

  lemma SingleDenotes(n: int)
    ensures forall v :: Denotes(Single(n), v) <==> v == n
  {
  }

  lemma StepIsPositive(part: string, min: int, max: int)
    requires ParsePart(part, min, max).Ok? && ParsePart(part, min, max).value.Steps?
    ensures ParsePart(part, min, max).value.step >= 1
  {
  }

  lemma OnePartMore(parts: seq<string>, i: nat, min: int, max: int, v: int)
    requires i < |parts| && ParsePart(parts[i], min, max).Ok?
    ensures PartsDenote(parts[..i + 1], min, max, v)
      <==> PartsDenote(parts[..i], min, max, v) || Denotes(ParsePart(parts[i], min, max).value, v)
  {
    hide ParsePart, Denotes;
    if PartsDenote(parts[..i], min, max, v) {
      var j :| 0 <= j < i && ParsePart(parts[..i][j], min, max).Ok? && Denotes(ParsePart(parts[..i][j], min, max).value, v);
      assert parts[..i + 1][j] == parts[..i][j];
    }
    assert parts[..i + 1][i] == parts[i];
    if PartsDenote(parts[..i + 1], min, max, v) {
      var j :| 0 <= j < i + 1 && ParsePart(parts[..i + 1][j], min, max).Ok? && Denotes(ParsePart(parts[..i + 1][j], min, max).value, v);
      if j < i {
        assert parts[..i][j] == parts[..i + 1][j];
      }
    }
  }

  /** A valid field denotes something, and nothing out of bounds. */
  lemma FieldWithinBounds(field: string, min: int, max: int)
    requires min <= max && FieldIsValid(field, min, max)
    ensures exists v :: FieldDenotes(field, min, max, v)
    ensures forall v :: FieldDenotes(field, min, max, v) ==> min <= v <= max
  {
    hide ParsePart, Denotes, Split;
    var parts := Split(field, ',');
    PartWithinBounds(parts[0], min, max);
    var v :| Denotes(ParsePart(parts[0], min, max).value, v);
    assert FieldDenotes(field, min, max, v);
    forall v | FieldDenotes(field, min, max, v) ensures min <= v <= max {
      var i :| 0 <= i < |parts| && ParsePart(parts[i], min, max).Ok? && Denotes(ParsePart(parts[i], min, max).value, v);
      PartWithinBounds(parts[i], min, max);
    }
  }

  // ---- An expression: five fields ----

  datatype CronParts = CronParts(
    minute: seq<int>, hour: seq<int>, dayOfMonth: seq<int>, month: seq<int>, dayOfWeek: seq<int>)

  function Fields(expr: string): seq<string> {
    SplitSpaces(Trim(expr))
  }

  ghost predicate ExpressionIsValid(expr: string) {
    var f := Fields(expr);
    && |f| == 5
    && FieldIsValid(f[0], 0, 59) && FieldIsValid(f[1], 0, 23) && FieldIsValid(f[2], 1, 31)
    && FieldIsValid(f[3], 1, 12) && FieldIsValid(f[4], 0, 6)
  }

  /** The error is that of the first malformed part of the first malformed field. */
  ghost predicate FirstBadField(f: seq<string>, error: CronError)
    requires |f| == 5
  {
    if !FieldIsValid(f[0], 0, 59) then FirstError(Split(f[0], ','), 0, 59, error)
    else if !FieldIsValid(f[1], 0, 23) then FirstError(Split(f[1], ','), 0, 23, error)
    else if !FieldIsValid(f[2], 1, 31) then FirstError(Split(f[2], ','), 1, 31, error)
    else if !FieldIsValid(f[3], 1, 12) then FirstError(Split(f[3], ','), 1, 12, error)
    else FirstError(Split(f[4], ','), 0, 6, error)
  }

  ghost predicate IsParts(parts: CronParts, expr: string) {
    var f := Fields(expr);
    && |f| == 5
    && IsField(parts.minute, f[0], 0, 59) && IsField(parts.hour, f[1], 0, 23)
    && IsField(parts.dayOfMonth, f[2], 1, 31) && IsField(parts.month, f[3], 1, 12)
    && IsField(parts.dayOfWeek, f[4], 0, 6)
  }

  /** Ordered, in bounds, non-empty, and exactly the values the text denotes; an error exactly for a malformed text. */
  method ParseCronExpression(expr: string) returns (r: Result<CronParts>)
    ensures r.Ok? <==> ExpressionIsValid(expr)
    ensures r.Ok? ==> IsParts(r.value, expr)
    ensures r.Err? && |Fields(expr)| != 5 ==> r.error == FieldCount(|Fields(expr)|)
    ensures r.Err? && |Fields(expr)| == 5 ==> FirstBadField(Fields(expr), r.error)
  {
    hide FieldIsValid, FirstError, IsField, Fields;
    var f := Fields(expr);
    if |f| != 5 {
      return Err(FieldCount(|f|));
    }
    var minute := ParseCronField(f[0], 0, 59);
    if minute.Err? { return Err(minute.error); }
    var hour := ParseCronField(f[1], 0, 23);
    if hour.Err? { return Err(hour.error); }
    var dayOfMonth := ParseCronField(f[2], 1, 31);
    if dayOfMonth.Err? { return Err(dayOfMonth.error); }
    var month := ParseCronField(f[3], 1, 12);
    if month.Err? { return Err(month.error); }
    var dayOfWeek := ParseCronField(f[4], 0, 6);
    if dayOfWeek.Err? { return Err(dayOfWeek.error); }
    r := Ok(CronParts(minute.value, hour.value, dayOfMonth.value, month.value, dayOfWeek.value));
  }
}

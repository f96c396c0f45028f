/** Cron expressions, times of day, and the conversions between them. */
module Schedule {
  import opened Decimal
  import opened Sequences
  import opened Text

  // ---------------------------------------------------------------- splitting

  /** The place of the first `c`. */
  function FirstOf(s: string, c: char): (r: Option<nat>)
    ensures r.Some? ==> r.value < |s| && s[r.value] == c && forall i :: 0 <= i < r.value ==> s[i] != c
    ensures r.None? ==> c !in s
    decreases |s|
  {
    if s == "" then None
    else if s[0] == c then Some(0)
    else
      match FirstOf(s[1..], c)
      case None => None
      case Some(k) => Some(k + 1)
  }

  function SplitOn(s: string, c: char): (r: seq<string>)
    ensures r != []
    decreases |s|
  {
    match FirstOf(s, c)
    case None => [s]
    case Some(k) => [s[..k]] + SplitOn(s[k + 1..], c)
  }

  /** Splitting loses nothing: the pieces hold no `c`, and joined by it they are the text. */
  lemma {:induction false} SplitJoins(s: string, c: char)
    ensures Join(SplitOn(s, c), [c]) == s
    ensures forall i :: 0 <= i < |SplitOn(s, c)| ==> c !in SplitOn(s, c)[i]
    decreases |s|
  {
    match FirstOf(s, c) {
      case None =>
      case Some(k) =>
        SplitJoins(s[k + 1..], c);
        var rest := SplitOn(s[k + 1..], c);
        assert SplitOn(s, c) == [s[..k]] + rest && ([s[..k]] + rest)[1..] == rest;
        assert s == s[..k] + [c] + s[k + 1..];
    }
  }

  function FirstSpace(s: string): (k: nat)
    ensures k <= |s| && (k < |s| ==> IsSpace(s[k])) && forall i :: 0 <= i < k ==> !IsSpace(s[i])
  {
    if s == "" || IsSpace(s[0]) then 0 else 1 + FirstSpace(s[1..])
  }

  lemma {:induction false} TrimStartShrinks(s: string)
    ensures |TrimStart(s)| <= |s| && (s != "" && IsSpace(s[0]) ==> |TrimStart(s)| < |s|)
  {
    if s != "" && IsSpace(s[0]) {
      TrimStartShrinks(s[1..]);
    }
  }

  /** The pieces between runs of white space. */
  function SplitSpaces(s: string): (r: seq<string>)
    ensures r != []
    decreases |s|
  {
    var k := FirstSpace(s);
    if k == |s| then [s] else
      TrimStartShrinks(s[k..]);
      [s[..k]] + SplitSpaces(TrimStart(s[k..]))
  }

  /** The text is the pieces in order, with white space between any two. */
  ghost predicate Spaced(s: string, pieces: seq<string>)
    decreases |pieces|
  {
    pieces != [] &&
    if |pieces| == 1 then s == pieces[0]
    else exists gap, rest :: IsGap(s, pieces[0], gap, rest) && Spaced(rest, pieces[1..])
  }

  ghost predicate IsGap(s: string, piece: string, gap: string, rest: string) {
    s == piece + gap + rest && gap != "" && IsBlank(gap) && (rest == "" || !IsSpace(rest[0]))
  }

  lemma SpacedOn(s: string, piece: string, gap: string, rest: string, pieces: seq<string>)
    requires IsGap(s, piece, gap, rest) && Spaced(rest, pieces)
    ensures Spaced(s, [piece] + pieces)
  {
    hide IsGap;
    var all := [piece] + pieces;
    assert all[0] == piece && all[1..] == pieces;
    assert IsGap(s, all[0], gap, rest) && Spaced(rest, all[1..]);
  }

  /** Splitting at white space loses nothing but the white space, and no piece holds any. */
  lemma {:induction false} SplitSpaced(s: string)
    ensures Spaced(s, SplitSpaces(s))
    ensures forall i :: 0 <= i < |SplitSpaces(s)| ==> NoSpace(SplitSpaces(s)[i])
    decreases |s|
  {
    var k := FirstSpace(s);
    SplitCases(s, k);
    hide *;
    if k < |s| {
      var rest := TrimStart(s[k..]);
      var gap := GapAt(s, k);
      SplitSpaced(rest);
      SpacedOn(s, s[..k], gap, rest, SplitSpaces(rest));
    }
  }

  lemma GapAt(s: string, k: nat) returns (gap: string)
    requires k < |s| && IsSpace(s[k])
    ensures IsGap(s, s[..k], gap, TrimStart(s[k..])) && |TrimStart(s[k..])| < |s|
  {
    gap := TrimStartTakes(s[k..]);
    assert s == s[..k] + s[k..] == s[..k] + gap + TrimStart(s[k..]);
    hide TrimStart;
  }

  lemma SplitCases(s: string, k: nat)
    requires k == FirstSpace(s)
    ensures k <= |s| && (k < |s| ==> IsSpace(s[k])) && NoSpace(s[..k])
    ensures k == |s| ==> SplitSpaces(s) == [s] && Spaced(s, SplitSpaces(s)) && NoSpace(s)
    ensures k < |s| ==> SplitSpaces(s) == [s[..k]] + SplitSpaces(TrimStart(s[k..]))
  {
    assert k == |s| ==> s[..k] == s;
    hide TrimStart;
  }

  predicate NoSpace(s: string) { forall i :: 0 <= i < |s| ==> !IsSpace(s[i]) }

  lemma {:induction false} FirstSpaceOf(w: string, rest: string)
    requires NoSpace(w)
    ensures FirstSpace(w + " " + rest) == |w| && FirstSpace(w) == |w|
  {
    if w != "" {
      assert (w + " " + rest)[1..] == w[1..] + " " + rest;
      FirstSpaceOf(w[1..], rest);
    }
  }

  lemma SplitWord(w: string, rest: string)
    requires NoSpace(w) && rest != "" && !IsSpace(rest[0])
    ensures SplitSpaces(w + " " + rest) == [w] + SplitSpaces(rest)
  {
    var s := w + " " + rest;
    FirstSpaceOf(w, rest);
    OneSpace(rest);
    SplitAt(s, |w|);
    hide *;
    assert s[..|w|] == w && s[|w|..] == " " + rest;
  }

  lemma SplitAt(s: string, k: nat)
    requires FirstSpace(s) == k < |s|
    ensures SplitSpaces(s) == [s[..k]] + SplitSpaces(TrimStart(s[k..]))
  {}

  lemma OneSpace(rest: string)
    requires rest != "" && !IsSpace(rest[0])
    ensures TrimStart(" " + rest) == rest
  {
    assert (" " + rest)[1..] == rest;
  }

  lemma SplitLast(w: string)
    requires NoSpace(w)
    ensures SplitSpaces(w) == [w]
  {
    FirstSpaceOf(w, "");
  }

  // ---------------------------------------------------------------- the cron grammar

  predicate IsNumeral(s: string) { s != "" && AllDigits(s) }

  predicate BaseOk(base: string, min: nat, max: nat) {
    if base == "*" then true else
      match FirstOf(base, '-')
      case Some(k) =>
        var lo, hi := base[..k], base[k + 1..];
        IsNumeral(lo) && IsNumeral(hi) && min <= Value(lo) <= Value(hi) <= max
      case None => IsNumeral(base) && min <= Value(base) <= max
  }

  predicate PartOk(part: string, min: nat, max: nat) {
    match FirstOf(part, '/')
    case Some(k) => IsNumeral(part[k + 1..]) && Value(part[k + 1..]) >= 1 && BaseOk(part[..k], min, max)
    case None => BaseOk(part, min, max)
  }

  /** A `*`, a number in range, or a rising range of numbers, as text. */
  ghost predicate IsBase(base: string, min: nat, max: nat) {
    || base == "*"
    || (IsNumeral(base) && min <= Value(base) <= max)
    || (exists lo, hi :: IsRange(base, lo, hi, min, max))
  }

  ghost predicate IsRange(base: string, lo: string, hi: string, min: nat, max: nat) {
    IsNumeral(lo) && IsNumeral(hi) && base == lo + "-" + hi && min <= Value(lo) <= Value(hi) <= max
  }

  ghost predicate IsStep(part: string, base: string, step: string, min: nat, max: nat) {
    IsNumeral(step) && Value(step) >= 1 && IsBase(base, min, max) && part == base + "/" + step
  }

  /** The grammar of one part of a field: a base, or a base and a step. */
  ghost predicate IsPart(part: string, min: nat, max: nat) {
    IsBase(part, min, max) || exists base, step :: IsStep(part, base, step, min, max)
  }

  lemma FirstInJoined(a: string, c: char, b: string)
    requires c !in a
    ensures FirstOf(a + [c] + b, c) == Some(|a|) && (a + [c] + b)[..|a|] == a && (a + [c] + b)[|a| + 1..] == b
  {
    var s := a + [c] + b;
    assert s[|a|] == c && c in s;
    assert forall i :: 0 <= i < |a| ==> s[i] == a[i] && a[i] in a;
  }

  lemma NumeralsArePlain(s: string, c: char)
    requires AllDigits(s) && !IsDigit(c)
    ensures c !in s
  {}

  lemma BaseIsGrammar(base: string, min: nat, max: nat)
    ensures BaseOk(base, min, max) <==> IsBase(base, min, max)
  {
    if BaseOk(base, min, max) && base != "*" && FirstOf(base, '-').Some? {
      var k := FirstOf(base, '-').value;
      assert base == base[..k] + "-" + base[k + 1..];
      assert IsRange(base, base[..k], base[k + 1..], min, max);
    }
    if IsNumeral(base) {
      NumeralsArePlain(base, '-');
    }
    if lo, hi :| IsRange(base, lo, hi, min, max) {
      NumeralsArePlain(lo, '-');
      FirstInJoined(lo, '-', hi);
    }
  }

  lemma BasesHaveNoSlash(base: string, min: nat, max: nat)
    requires IsBase(base, min, max)
    ensures '/' !in base
  {
    if lo, hi :| IsRange(base, lo, hi, min, max) {
      NumeralsArePlain(lo, '/');
      NumeralsArePlain(hi, '/');
    }
  }

  /** The scan for `/` and `-` accepts exactly the grammar. */
  lemma PartIsGrammar(part: string, min: nat, max: nat)
    ensures PartOk(part, min, max) <==> IsPart(part, min, max)
  {
    hide BaseOk, IsBase, Value;
    BaseIsGrammar(part, min, max);
    if IsBase(part, min, max) {
      BasesHaveNoSlash(part, min, max);
    }
    if FirstOf(part, '/').Some? {
      var k := FirstOf(part, '/').value;
      BaseIsGrammar(part[..k], min, max);
      if PartOk(part, min, max) {
        assert part == part[..k] + "/" + part[k + 1..];
        assert IsStep(part, part[..k], part[k + 1..], min, max);
      }
    }
    if base, step :| IsStep(part, base, step, min, max) {
      BasesHaveNoSlash(base, min, max);
      FirstInJoined(base, '/', step);
      BaseIsGrammar(base, min, max);
    }
  }

  /** A field is a list of parts. */
  ghost predicate IsField(field: string, min: nat, max: nat) {
    forall i :: 0 <= i < |SplitOn(field, ',')| ==> IsPart(SplitOn(field, ',')[i], min, max)
  }

  method ValidField(field: string, min: nat, max: nat) returns (ok: bool)
    ensures ok <==> IsField(field, min, max)
  {
    hide PartOk, IsPart, Value;
    StarIsField(field, min, max);
    if field == "*" { return true; }
    var parts := SplitOn(field, ',');
    for i := 0 to |parts|
      invariant forall j :: 0 <= j < i ==> IsPart(parts[j], min, max)
    {
      var accepted := ValidPart(parts[i], min, max);
      if !accepted { return false; }
    }
    return true;
  }

  lemma StarIsField(field: string, min: nat, max: nat)
    ensures field == "*" ==> IsField(field, min, max)
  {
    if field == "*" {
      assert "*"[1..] == "";
      assert SplitOn("*", ',') == ["*"];
      assert IsPart("*", min, max);
    }
  }

  method ValidPart(part: string, min: nat, max: nat) returns (ok: bool)
    ensures ok <==> IsPart(part, min, max)
  {
    PartIsGrammar(part, min, max);
    hide IsPart;
    if part == "" { return false; }
    var base := part;
    var stepAt := FirstOf(part, '/');
    if stepAt.Some? {
      base := part[..stepAt.value];
      var step := part[stepAt.value + 1..];
      if !IsNumeral(step) { return false; }
      if Value(step) < 1 { return false; }
    }
    if base == "*" { return true; }
    var dashAt := FirstOf(base, '-');
    if dashAt.Some? {
      var lo, hi := base[..dashAt.value], base[dashAt.value + 1..];
      if !IsNumeral(lo) || !IsNumeral(hi) { return false; }
      return !(Value(lo) < min || Value(hi) > max || Value(lo) > Value(hi));
    }
    if !IsNumeral(base) { return false; }
    return !(Value(base) < min || Value(base) > max);
  }

  // ---------------------------------------------------------------- whole expressions

  datatype FieldRange = FieldRange(min: nat, max: nat)

  /** Minute, hour, day of month, month, day of week; both 0 and 7 are Sunday. */
  const FIELD_RANGES: seq<FieldRange> :=
    [FieldRange(0, 59), FieldRange(0, 23), FieldRange(1, 31), FieldRange(1, 12), FieldRange(0, 7)]

  datatype CronProblem = Blank | WrongFieldCount | BadField(index: nat)

  ghost predicate FieldFits(fields: seq<string>, i: nat)
    requires |fields| == 5 && i < 5
  {
    IsField(fields[i], FIELD_RANGES[i].min, FIELD_RANGES[i].max)
  }

  ghost predicate IsCron(expr: string) {
    var fields := SplitSpaces(Trim(expr));
    Trim(expr) != "" && |fields| == 5 && forall i :: 0 <= i < 5 ==> FieldFits(fields, i)
  }

  /** Nothing is reported exactly for a cron expression; otherwise the first fault is. */
  method ValidateCronExpression(expr: string) returns (problem: Option<CronProblem>)
    ensures problem == None <==> IsCron(expr)
    ensures
      var fields := SplitSpaces(Trim(expr));
      match problem
      case None => true
      case Some(Blank) => Trim(expr) == ""
      case Some(WrongFieldCount) => Trim(expr) != "" && |fields| != 5
      case Some(BadField(i)) =>
        Trim(expr) != "" && |fields| == 5 && i < 5 && !FieldFits(fields, i)
        && forall j :: 0 <= j < i ==> FieldFits(fields, j)
  {
    hide IsField, SplitSpaces;
    var trimmed := Trim(expr);
    if trimmed == "" { return Some(Blank); }
    var fields := SplitSpaces(trimmed);
    if |fields| != 5 { return Some(WrongFieldCount); }
    for i := 0 to 5
      invariant forall j :: 0 <= j < i ==> FieldFits(fields, j)
    {
      var ok := ValidField(fields[i], FIELD_RANGES[i].min, FIELD_RANGES[i].max);
      if !ok {
        assert !FieldFits(fields, i);
        return Some(BadField(i));
      }
    }
    return None;
  }

  // ---------------------------------------------------------------- times

  predicate OneOrTwoDigits(s: string) { 1 <= |s| <= 2 && AllDigits(s) }

  datatype Time = Time(hour: nat, minute: nat)

  predicate InDay(t: Time) { t.hour <= 23 && t.minute <= 59 }

  /** `H:M` with one or two digits each, in range. */
  function ReadTime(text: string, minuteDigits: nat): Option<Time> {
    match FirstOf(text, ':')
    case None => None
    case Some(k) =>
      var h, m := text[..k], text[k + 1..];
      if OneOrTwoDigits(h) && OneOrTwoDigits(m) && |m| >= minuteDigits && InDay(Time(Value(h), Value(m)))
      then Some(Time(Value(h), Value(m))) else None
  }

  /** `H:M` in one or two digits each, the minute in at least `minuteDigits`, up to 23:59. */
  ghost predicate IsTimeText(text: string, minuteDigits: nat, h: string, m: string, t: Time) {
    && text == h + ":" + m && 1 <= |h| <= 2 && 1 <= |m| <= 2 && minuteDigits <= |m| && AllDigits(h) && AllDigits(m)
    && t == Time(Value(h), Value(m)) && t.hour <= 23 && t.minute <= 59
  }

  /** Reading accepts exactly that grammar, and reads what it says. */
  lemma ReadsTimesExactly(text: string, minuteDigits: nat, t: Time)
    ensures ReadTime(text, minuteDigits) == Some(t) <==> exists h, m :: IsTimeText(text, minuteDigits, h, m, t)
  {
    if ReadTime(text, minuteDigits) == Some(t) {
      var k := FirstOf(text, ':').value;
      assert IsTimeText(text, minuteDigits, text[..k], text[k + 1..], t);
    }
    if h, m :| IsTimeText(text, minuteDigits, h, m, t) {
      NumeralsArePlain(h, ':');
      FirstInJoined(h, ':', m);
    }
  }

  /** Every time of the day is read, with one-digit minutes too where they are allowed, and white space around it. */
  lemma EveryTimeIsRead(before: string, h: string, m: string, after: string, t: Time)
    requires IsBlank(before) && IsBlank(after) && IsTimeText(h + ":" + m, 1, h, m, t)
    ensures ReadTime(Trim(before + (h + ":" + m) + after), 1) == Some(t)
    ensures |m| == 2 ==> NormalizeTimeInput(before + (h + ":" + m) + after) == Some(ShowTime(t))
    ensures |m| == 1 ==> NormalizeTimeInput(before + (h + ":" + m) + after) == None
  {
    var text := h + ":" + m;
    TrimFinds(before, text, after);
    NumeralsArePlain(h, ':');
    FirstInJoined(h, ':', m);
    hide Trim, ShowTime, Value;
  }

  /** A daily cron is a minute and an hour of one or two digits up to 59 and 23, and three stars. */
  lemma ReadsCronsExactly(cron: string, t: Time)
    ensures ReadCron(cron) == Some(t) <==>
      var fields := SplitSpaces(Trim(cron));
      && |fields| == 5 && fields[2] == fields[3] == fields[4] == "*"
      && 1 <= |fields[0]| <= 2 && AllDigits(fields[0]) && 1 <= |fields[1]| <= 2 && AllDigits(fields[1])
      && t == Time(Value(fields[1]), Value(fields[0])) && t.hour <= 23 && t.minute <= 59
  {
    hide SplitSpaces, Trim, Value, AllDigits;
  }

  function Pad2(n: nat): string { if n < 10 then "0" + Dec(n) else Dec(n) }

  function ShowTime(t: Time): string { Pad2(t.hour) + ":" + Pad2(t.minute) }

  function ShowCron(t: Time): string { Dec(t.minute) + " " + Dec(t.hour) + " * * *" }

  const MIDNIGHT := Time(0, 0)

  function TimeToCron(text: string): string {
    match ReadTime(Trim(text), 1)
    case None => "0 0 * * *"
    case Some(t) => ShowCron(t)
  }

  function ReadCron(cron: string): Option<Time> {
    var fields := SplitSpaces(Trim(cron));
    if |fields| != 5 then None
    else if fields[2] != "*" || fields[3] != "*" || fields[4] != "*" then None
    else if !OneOrTwoDigits(fields[0]) || !OneOrTwoDigits(fields[1]) then None
    else
      var t := Time(Value(fields[1]), Value(fields[0]));
      if InDay(t) then Some(t) else None
  }

  function CronToTime(cron: string): Option<string> {
    match ReadCron(cron)
    case None => None
    case Some(t) => Some(ShowTime(t))
  }

  function NormalizeTimeInput(raw: string): Option<string> {
    match ReadTime(Trim(raw), 2)
    case None => None
    case Some(t) => Some(ShowTime(t))
  }

  // ---------------------------------------------------------------- agreement

  lemma {:induction false} DecIsPlain(n: nat)
    ensures NoSpace(Dec(n)) && (n < 100 ==> |Dec(n)| <= 2)
  {
    assert n < 100 ==> n / 10 < 10;
  }

  lemma Unzero(n: nat)
    requires n < 10
    ensures Value("0" + Dec(n)) == n
  {
    var d := Dec(n);
    assert ("0" + d)[..1] == "0" && "0"[..0] == "";
    assert d[..0] == "";
    ReadBack(n);
  }

  lemma PaddedReads(n: nat)
    requires n < 100
    ensures |Pad2(n)| == 2 && AllDigits(Pad2(n)) && Value(Pad2(n)) == n
  {
    DecIsPlain(n);
    ReadBack(n);
    if n < 10 {
      Unzero(n);
    } else {
      assert Dec(n) == Dec(n / 10) + [Digit(n % 10)];
    }
  }

  /** A time is shown as `HH:MM`, two digits each. */
  lemma ShownInTwoDigits(t: Time)
    requires InDay(t)
    ensures var s := ShowTime(t);
      && |s| == 5 && AllDigits(s[..2]) && s[2] == ':' && AllDigits(s[3..])
      && Value(s[..2]) == t.hour && Value(s[3..]) == t.minute
  {
    PaddedReads(t.hour);
    PaddedReads(t.minute);
    assert ShowTime(t)[..2] == Pad2(t.hour) && ShowTime(t)[3..] == Pad2(t.minute);
  }

  lemma ShownTrims(t: Time)
    requires InDay(t)
    ensures Trim(ShowTime(t)) == ShowTime(t)
  {
    PaddedReads(t.hour);
    PaddedReads(t.minute);
    TrimNothing(ShowTime(t));
  }

  /** A shown time reads as itself, with two minute digits. */
  lemma ShownReads(t: Time)
    requires InDay(t)
    ensures ReadTime(Trim(ShowTime(t)), 2) == Some(t) && ReadTime(Trim(ShowTime(t)), 1) == Some(t)
  {
    ShownTrims(t);
    PaddedReads(t.hour);
    PaddedReads(t.minute);
    NumeralsArePlain(Pad2(t.hour), ':');
    FirstInJoined(Pad2(t.hour), ':', Pad2(t.minute));
  }

  lemma CronFields(t: Time)
    ensures SplitSpaces(Trim(ShowCron(t))) == [Dec(t.minute), Dec(t.hour), "*", "*", "*"] && Trim(ShowCron(t)) != ""
  {
    DecIsPlain(t.minute);
    DecIsPlain(t.hour);
    hide *;
    CronTrims(t);
    FiveFields(Dec(t.minute), Dec(t.hour));
    CronText(t);
  }

  lemma CronText(t: Time)
    ensures ShowCron(t) == Dec(t.minute) + " " + (Dec(t.hour) + " * * *") && ShowCron(t) != ""
  {}

  lemma CronTrims(t: Time)
    ensures Trim(ShowCron(t)) == ShowCron(t)
  {
    hide Dec, Trim;
    TrimNothing(ShowCron(t));
  }

  lemma FiveFields(m: string, h: string)
    requires NoSpace(m) && NoSpace(h) && m != "" && h != ""
    ensures SplitSpaces(m + " " + (h + " * * *")) == [m, h, "*", "*", "*"]
  {
    hide SplitSpaces;
    Stars();
    assert h + " * * *" == h + " " + "* * *";
    var rest := h + " * * *";
    assert rest[0] == h[0];
    SplitWord(m, rest);
    SplitWord(h, "* * *");
    assert [m] + ([h] + ["*", "*", "*"]) == [m, h, "*", "*", "*"];
  }

  lemma Stars()
    ensures SplitSpaces("* * *") == ["*", "*", "*"]
  {
    assert "* * *" == "*" + " " + "* *" && "* *" == "*" + " " + "*";
    hide SplitSpaces;
    SplitWord("*", "* *");
    SplitWord("*", "*");
    SplitLast("*");
  }

  /** A printed daily cron reads back. */
  lemma CronReads(t: Time)
    requires InDay(t)
    ensures ReadCron(ShowCron(t)) == Some(t)
  {
    CronFields(t);
    DecIsPlain(t.minute);
    DecIsPlain(t.hour);
    ReadBack(t.minute);
    ReadBack(t.hour);
  }

  lemma MidnightCron()
    ensures ShowCron(MIDNIGHT) == "0 0 * * *"
  {
    assert Dec(0) == "0";
  }

  lemma NumberIsField(s: string, min: nat, max: nat)
    requires IsNumeral(s) && min <= Value(s) <= max
    ensures IsField(s, min, max)
  {
    NumeralsArePlain(s, ',');
    assert SplitOn(s, ',') == [s];
    assert IsBase(s, min, max);
  }

  /** Whatever is read as a daily time is a valid cron expression. */
  lemma ReadCronIsValid(cron: string)
    requires ReadCron(cron).Some?
    ensures IsCron(cron)
  {
    var fields := SplitSpaces(Trim(cron));
    assert SplitSpaces("") == [""];
    NumberIsField(fields[0], 0, 59);
    NumberIsField(fields[1], 0, 23);
    StarIsField("*", 1, 31);
    StarIsField("*", 1, 12);
    StarIsField("*", 0, 7);
    hide SplitSpaces, Trim, IsField;
    assert forall i :: 0 <= i < 5 ==> FieldFits(fields, i);
  }

  /** The time picker never produces an invalid cron, whatever the text. */
  lemma TimesMakeCrons(text: string)
    ensures IsCron(TimeToCron(text))
    ensures CronToTime(TimeToCron(text)) == Some(ShowTime(ReadTime(Trim(text), 1).Or(MIDNIGHT)))
  {
    MidnightCron();
    var t := ReadTime(Trim(text), 1).Or(MIDNIGHT);
    hide ShowCron, ReadCron, Trim, IsCron, ShowTime;
    CronReads(t);
    ReadCronIsValid(ShowCron(t));
  }

  /** A complete time survives the way into the cron and back. */
  lemma TimeThereAndBack(text: string)
    requires NormalizeTimeInput(text).Some?
    ensures CronToTime(TimeToCron(text)) == NormalizeTimeInput(text)
  {
    hide Trim, ShowTime, TimeToCron, CronToTime;
    TimesMakeCrons(text);
  }

  /**
   * A cron read as a time is valid, shows as a complete time, and is printed back with the same minute and hour:
   * only leading zeros and spacing change.
   */
  lemma CronThereAndBack(cron: string)
    requires CronToTime(cron).Some?
    ensures IsCron(cron)
    ensures
      var shown := CronToTime(cron).value;
      var fields := SplitSpaces(Trim(cron));
      && NormalizeTimeInput(shown) == Some(shown)
      && |fields| == 5 && AllDigits(fields[0]) && AllDigits(fields[1])
      && TimeToCron(shown) == Dec(Value(fields[0])) + " " + Dec(Value(fields[1])) + " * * *"
      && CronToTime(TimeToCron(shown)) == Some(shown)
  {
    var t := ReadCron(cron).value;
    ReadCronIsValid(cron);
    assert InDay(t);
    ShownReads(t);
    hide Trim, ShowTime, SplitSpaces, IsCron, Value, Dec;
    TimesMakeCrons(ShowTime(t));
  }
}

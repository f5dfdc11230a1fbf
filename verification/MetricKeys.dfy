/**
 The text of usage-metric keys: how a key is printed from an API key, a time and a granularity, and
 how the flusher parses keys back. Text is ASCII here.
 */
module MetricKeys {
  import opened Wrappers
  import opened UuidText

  datatype Time = Time(year: int, month: nat, day: nat, hour: nat, minute: nat, second: nat, nanos: nat)

  datatype Granularity = Hour | Minute

  function DaysIn(year: int, month: nat): nat {
    if month == 2 then if year % 4 == 0 && (year % 100 != 0 || year % 400 == 0) then 29 else 28
    else if month in {4, 6, 9, 11} then 30
    else 31
  }

  predicate ValidDate(year: int, month: nat, day: nat) {
    1 <= month <= 12 && 1 <= day <= DaysIn(year, month)
  }

  predicate ValidTime(t: Time) {
    ValidDate(t.year, t.month, t.day) && t.hour < 24 && t.minute < 60
  }

  /** The start of the hour or minute. */
  function Truncate(t: Time, g: Granularity): Time {
    if g.Hour? then t.(minute := 0, second := 0, nanos := 0) else t.(second := 0, nanos := 0)
  }

  // ---------------------------------------------------------------- decimal text

  predicate IsDigit(c: char) {
    '0' <= c <= '9'
  }

  predicate AllDigits(s: string) {
    forall i :: 0 <= i < |s| ==> IsDigit(s[i])
  }

  function DigitChar(d: nat): char
    requires d < 10
  {
    "0123456789"[d]
  }

  function Value(s: string): nat
    requires AllDigits(s)
  {
    if s == "" then 0 else Value(s[..|s| - 1]) * 10 + (s[|s| - 1] as int - '0' as int)
  }

  /** The decimal digits, zero-padded to the width. */
  function Padded(n: nat, width: nat): (s: string)
    ensures |s| >= width && s != ""
    decreases n, width
  {
    if n < 10 && width <= 1 then [DigitChar(n)]
    else Padded(n / 10, if width == 0 then 0 else width - 1) + [DigitChar(n % 10)]
  }

  lemma DigitRoundTrip(d: nat)
    requires d < 10
    ensures IsDigit(DigitChar(d)) && DigitChar(d) as int - '0' as int == d
  {
    assert d == 0 || d == 1 || d == 2 || d == 3 || d == 4 || d == 5 || d == 6 || d == 7 || d == 8 || d == 9;
  }

  lemma {:induction false} ValueOfPadded(n: nat, width: nat)
    ensures AllDigits(Padded(n, width)) && Value(Padded(n, width)) == n
    decreases n, width
  {
    if n < 10 && width <= 1 {
      DigitRoundTrip(n);
      assert [DigitChar(n)][..0] == [];
    } else {
      var w := if width == 0 then 0 else width - 1;
      ValueOfPadded(n / 10, w);
      DigitRoundTrip(n % 10);
      assert Padded(n, width)[..|Padded(n, width)| - 1] == Padded(n / 10, w);
    }
  }

  lemma TwoWide(n: nat)
    requires n < 100
    ensures |Padded(n, 2)| == 2
  {
  }

  lemma FourWide(n: nat)
    requires n < 10_000
    ensures |Padded(n, 4)| == 4
  {
    assert Padded(n, 4) == Padded(n / 10, 3) + [DigitChar(n % 10)];
    assert Padded(n / 10, 3) == Padded(n / 10 / 10, 2) + [DigitChar(n / 10 % 10)];
    TwoWide(n / 10 / 10);
  }

  /** At least four characters, the sign among them. */
  function PrintYear(year: int): string {
    if year < 0 then "-" + Padded(-year, 3) else Padded(year, 4)
  }

  lemma YearInjective(a: int, b: int)
    requires PrintYear(a) == PrintYear(b)
    ensures a == b
  {
    ValueOfPadded(if a < 0 then -a else a, if a < 0 then 3 else 4);
    ValueOfPadded(if b < 0 then -b else b, if b < 0 then 3 else 4);
    var pa, pb := PrintYear(a), PrintYear(b);
    assert (pa[0] == '-') <==> a < 0;
    assert (pb[0] == '-') <==> b < 0;
    if a < 0 {
      assert pa[1..] == Padded(-a, 3) && pb[1..] == Padded(-b, 3);
    }
  }

  // ---------------------------------------------------------------- printing

  function Join(segments: seq<string>): string {
    if segments == [] then ""
    else if |segments| == 1 then segments[0]
    else segments[0] + ":" + Join(segments[1..])
  }

  function CacheKey(segments: seq<string>): string {
    "vaultless:" + Join(segments)
  }

  function PeriodText(t: Time, g: Granularity): string {
    PrintYear(t.year) + Tail(t, g)
  }

  function Tail(t: Time, g: Granularity): string {
    Padded(t.month, 2) + Padded(t.day, 2) + Padded(t.hour, 2) + if g.Minute? then Padded(t.minute, 2) else ""
  }

  function Label(g: Granularity): string {
    if g.Hour? then "hash_hour" else "hash_minute"
  }

  function New(id: Uuid, now: Time, g: Granularity): string {
    CacheKey(["metric", Label(g), Print(id), PeriodText(Truncate(now, g), g)])
  }

  // ---------------------------------------------------------------- parsing

  function IndexOf(s: string, c: char): (i: nat)
    requires c in s
    ensures i < |s| && s[i] == c && c !in s[..i]
  {
    if s[0] == c then 0 else IndexOf(s[1..], c) + 1
  }

  function Split(s: string): (parts: seq<string>)
    ensures parts != []
    decreases |s|
  {
    if ':' !in s then [s] else var i := IndexOf(s, ':'); [s[..i]] + Split(s[i + 1..])
  }

  /** Integer text as the standard parsers take it: a sign may lead, and digits must follow. */
  function ParseUnsigned(s: string): Option<nat> {
    var digits := if s != "" && s[0] == '+' then s[1..] else s;
    if digits != "" && AllDigits(digits) then Some(Value(digits)) else None
  }

  function ParseSigned(s: string): Option<int> {
    if s != "" && s[0] == '-' then
      if s[1..] != "" && AllDigits(s[1..]) then Some(-(Value(s[1..]) as int)) else None
    else
      match ParseUnsigned(s) case Some(n) => Some(n) case None => None
  }

  const PREFIX: string := "vaultless:metric:hash"

  function ParsePeriod(s: string): Option<Time> {
    if |s| != 10 then None
    else
      match (ParseSigned(s[..4]), ParseUnsigned(s[4..6]), ParseUnsigned(s[6..8]), ParseUnsigned(s[8..10]))
      case (Some(year), Some(month), Some(day), Some(hour)) =>
        if ValidDate(year, month, day) && hour < 24 then Some(Time(year, month, day, hour, 0, 0, 0)) else None
      case _ => None
  }

  function ParseKey(key: string): Option<(Uuid, Time)> {
    if !(PREFIX <= key) then None
    else
      var parts := Split(key[|PREFIX|..]);
      if |parts| != 2 then None
      else
        match (Parse(parts[0]), ParsePeriod(parts[1]))
        case (Some(id), Some(period)) => Some((id, period))
        case _ => None
  }

  datatype KeyError = InvalidFormat | InvalidComponents

  function TryFrom(s: string): Result<string, KeyError> {
    if !(PREFIX <= s) then Err(InvalidFormat)
    else if ParseKey(s).None? then Err(InvalidComponents)
    else Ok(s)
  }

  // ---------------------------------------------------------------- what printing tells apart

  lemma FourParts(a: string, b: string, c: string, d: string, a': string, b': string, c': string, d': string)
    requires |a| == |a'| && |b| == |b'| && |c| == |c'| && a + b + c + d == a' + b' + c' + d'
    ensures a == a' && b == b' && c == c' && d == d'
  {
    SameSuffix(a + b + c, d, a' + b' + c', d');
    SameSuffix(a + b, c, a' + b', c');
    SameSuffix(a, b, a', b');
  }

  lemma TailInjective(a: Time, b: Time, g: Granularity)
    requires ValidTime(a) && ValidTime(b) && Tail(a, g) == Tail(b, g)
    ensures Truncate(a, g) == Truncate(b, g).(year := a.year)
  {
    TwoDigits(a.month, b.month);
    TwoDigits(a.day, b.day);
    TwoDigits(a.hour, b.hour);
    TwoDigits(a.minute, b.minute);
    FourParts(Padded(a.month, 2), Padded(a.day, 2), Padded(a.hour, 2), if g.Minute? then Padded(a.minute, 2) else "",
              Padded(b.month, 2), Padded(b.day, 2), Padded(b.hour, 2), if g.Minute? then Padded(b.minute, 2) else "");
  }

  lemma TwoDigits(a: nat, b: nat)
    requires a < 100 && b < 100
    ensures |Padded(a, 2)| == |Padded(b, 2)| == 2
    ensures Padded(a, 2) == Padded(b, 2) ==> a == b
  {
    TwoWide(a);
    TwoWide(b);
    ValueOfPadded(a, 2);
    ValueOfPadded(b, 2);
  }

  lemma SameSuffix(a: string, s: string, b: string, t: string)
    requires a + s == b + t && |s| == |t|
    ensures a == b && s == t
  {
    assert (a + s)[..|a|] == a && (b + t)[..|b|] == b;
    assert (a + s)[|a|..] == s && (b + t)[|b|..] == t;
  }

  lemma SamePrefix(a: string, s: string, b: string, t: string)
    requires a + s == b + t && |a| == |b|
    ensures a == b && s == t
  {
    assert (a + s)[..|a|] == a && (b + t)[..|b|] == b;
    assert (a + s)[|a|..] == s && (b + t)[|b|..] == t;
  }

  lemma TailLength(t: Time, g: Granularity)
    requires ValidTime(t)
    ensures |Tail(t, g)| == if g.Minute? then 8 else 6
  {
    TwoWide(t.month);
    TwoWide(t.day);
    TwoWide(t.hour);
    TwoWide(t.minute);
  }

  lemma PeriodInjective(a: Time, b: Time, g: Granularity)
    requires ValidTime(a) && ValidTime(b) && PeriodText(a, g) == PeriodText(b, g)
    ensures Truncate(a, g) == Truncate(b, g)
  {
    TailLength(a, g);
    TailLength(b, g);
    SameSuffix(PrintYear(a.year), Tail(a, g), PrintYear(b.year), Tail(b, g));
    YearInjective(a.year, b.year);
    TailInjective(a, b, g);
  }

  lemma JoinFour(a: string, b: string, c: string, d: string)
    ensures Join([a, b, c, d]) == a + ":" + (b + (":" + c + ":" + d))
  {
    assert [a, b, c, d][1..] == [b, c, d];
    assert [b, c, d][1..] == [c, d];
    assert [c, d][1..] == [d];
    assert Join([c, d]) == c + ":" + d;
    assert Join([b, c, d]) == b + ":" + (c + ":" + d);
    assert Join([a, b, c, d]) == a + ":" + (b + ":" + (c + ":" + d));
    assert b + ":" + (c + ":" + d) == b + (":" + c + ":" + d);
  }

  /** A key in pieces: up to the label, the label, the id between colons, the period. */
  lemma NewShape(id: Uuid, now: Time, g: Granularity)
    ensures New(id, now, g) == "vaultless:metric:" + (Label(g) + (":" + Print(id) + ":" + PeriodText(now, g)))
  {
    JoinFour("metric", Label(g), Print(id), PeriodText(now, g));
    assert PeriodText(Truncate(now, g), g) == PeriodText(now, g);
  }

  /** Two keys are the same text exactly when they are for the same key, granularity and period. */
  lemma NewEqualIff(id: Uuid, now: Time, g: Granularity, id': Uuid, now': Time, g': Granularity)
    requires ValidTime(now) && ValidTime(now')
    ensures New(id, now, g) == New(id', now', g') <==> id == id' && g == g' && Truncate(now, g) == Truncate(now', g')
  {
    NewShape(id, now, g);
    NewShape(id', now', g');
    if New(id, now, g) == New(id', now', g') {
      SamePieces(g, Print(id), PeriodText(now, g), g', Print(id'), PeriodText(now', g'));
      PrintInjective(id, id');
      PeriodInjective(now, now', g);
    } else if id == id' && g == g' {
      assert PeriodText(Truncate(now, g), g) == PeriodText(now, g);
      assert PeriodText(Truncate(now', g), g) == PeriodText(now', g);
    }
  }

  lemma SamePieces(g: Granularity, id: string, period: string, g': Granularity, id': string, period': string)
    requires |id| == |id'|
    requires "vaultless:metric:" + (Label(g) + (":" + id + ":" + period)) ==
             "vaultless:metric:" + (Label(g') + (":" + id' + ":" + period'))
    ensures g == g' && id == id' && period == period'
  {
    var rest, rest' := ":" + id + ":" + period, ":" + id' + ":" + period';
    SamePrefix("vaultless:metric:", Label(g) + rest, "vaultless:metric:", Label(g') + rest');
    LabelsDiffer(g, rest, g', rest');
    SamePrefix(Label(g), rest, Label(g'), rest');
    SamePrefix(":" + id + ":", period, ":" + id' + ":", period');
    assert id == (":" + id + ":")[1..|id| + 1];
    assert id' == (":" + id' + ":")[1..|id| + 1];
  }

  lemma LabelsDiffer(g: Granularity, s: string, g': Granularity, s': string)
    requires Label(g) + s == Label(g') + s'
    ensures g == g'
  {
    assert (Label(g) + s)[5] == Label(g)[5];
    assert (Label(g') + s')[5] == Label(g')[5];
  }

  // ---------------------------------------------------------------- what parsing takes

  lemma PaddedHasNoColon(n: nat, width: nat)
    ensures ':' !in Padded(n, width)
  {
    ValueOfPadded(n, width);
  }

  lemma TailHasNoColon(t: Time, g: Granularity)
    ensures ':' !in Tail(t, g)
  {
    PaddedHasNoColon(t.month, 2);
    PaddedHasNoColon(t.day, 2);
    PaddedHasNoColon(t.hour, 2);
    PaddedHasNoColon(t.minute, 2);
    NoColonInFour(Padded(t.month, 2), Padded(t.day, 2), Padded(t.hour, 2),
                  if g.Minute? then Padded(t.minute, 2) else "");
  }

  lemma NoColonInFour(a: string, b: string, c: string, d: string)
    requires ':' !in a && ':' !in b && ':' !in c && ':' !in d
    ensures ':' !in a + b + c + d
  {
  }

  lemma PeriodHasNoColon(t: Time, g: Granularity)
    ensures ':' !in PeriodText(t, g)
  {
    TailHasNoColon(t, g);
    PaddedHasNoColon(if t.year < 0 then -t.year else t.year, if t.year < 0 then 3 else 4);
    NoColonInFour(PrintYear(t.year), Tail(t, g), "", "");
  }

  lemma IndexOfFirst(a: string, b: string)
    requires ':' !in a
    ensures IndexOf(a + ":" + b, ':') == |a|
  {
    var s := a + ":" + b;
    assert s[|a|] == ':';
    assert s[..|a|] == a;
    var i := IndexOf(s, ':');
  }

  /** Splitting takes a join apart at its first colon. */
  lemma SplitFirst(a: string, b: string)
    requires ':' !in a
    ensures Split(a + ":" + b) == [a] + Split(b)
  {
    var s := a + ":" + b;
    IndexOfFirst(a, b);
    assert s[|a|] == ':';
    assert s[..|a|] == a && s[|a| + 1..] == b;
  }

  /** The hour's own digits, ten of them for years of four digits, parse back to the hour. */
  lemma ParsePeriodText(t: Time)
    requires ValidTime(t) && 0 <= t.year < 10_000
    ensures ParsePeriod(PeriodText(t, Hour)) == Some(Truncate(t, Hour))
  {
    var s := PeriodText(t, Hour);
    FourWide(t.year);
    TwoWide(t.month);
    TwoWide(t.day);
    TwoWide(t.hour);
    ValueOfPadded(t.year, 4);
    ValueOfPadded(t.month, 2);
    ValueOfPadded(t.day, 2);
    ValueOfPadded(t.hour, 2);
    PeriodSlices(Padded(t.year, 4), Padded(t.month, 2), Padded(t.day, 2), Padded(t.hour, 2));
    assert s == Padded(t.year, 4) + (Padded(t.month, 2) + Padded(t.day, 2) + Padded(t.hour, 2) + "");
  }

  lemma PeriodSlices(y: string, m: string, d: string, h: string)
    requires |y| == 4 && |m| == |d| == |h| == 2
    ensures var s := y + (m + d + h + "");
      |s| == 10 && s[..4] == y && s[4..6] == m && s[6..8] == d && s[8..10] == h
  {
  }

  /** The parser's own form, the prefix with nothing after it, round-trips for every hour. */
  lemma ParseInverts(id: Uuid, t: Time)
    requires ValidTime(t) && 0 <= t.year < 10_000
    ensures ParseKey(PREFIX + (Print(id) + ":" + PeriodText(t, Hour))) == Some((id, Truncate(t, Hour)))
  {
    var rest := Print(id) + ":" + PeriodText(t, Hour);
    assert (PREFIX + rest)[|PREFIX|..] == rest;
    PrintHasNoColon(id);
    PeriodHasNoColon(t, Hour);
    SplitFirst(Print(id), PeriodText(t, Hour));
    ParsePrint(id);
    ParsePeriodText(t);
  }

  lemma ThreeParts(a: string, b: string, c: string)
    requires ':' !in a && ':' !in b && ':' !in c
    ensures Split(a + ":" + (b + ":" + c)) == [a, b, c]
  {
    SplitFirst(a, b + ":" + c);
    SplitFirst(b, c);
  }

  /** The first part is what of the label follows the parser's prefix. */
  lemma LeftoverLabel(g: Granularity, id: string, period: string)
    ensures "vaultless:metric:" + (Label(g) + (":" + id + ":" + period)) ==
            PREFIX + (Label(g)[4..] + ":" + (id + ":" + period))
    ensures ':' !in Label(g)[4..]
  {
    var kind := Label(g)[4..];
    assert Label(g) == "hash" + kind;
    assert PREFIX == "vaultless:metric:" + "hash";
    Regroup("vaultless:metric:", "hash", kind, id, period);
  }

  lemma Regroup(a: string, b: string, kind: string, id: string, period: string)
    ensures a + ((b + kind) + (":" + id + ":" + period)) == (a + b) + (kind + ":" + (id + ":" + period))
  {
  }

  lemma OnlyTwoPartsParse(rest: string)
    requires |Split(rest)| != 2
    ensures ParseKey(PREFIX + rest).None?
  {
    assert (PREFIX + rest)[|PREFIX|..] == rest;
  }

  /** What `New` prints always has a third part, the rest of its label, so no key it makes is taken. */
  lemma NoKeyParses(id: Uuid, now: Time, g: Granularity)
    ensures ParseKey(New(id, now, g)).None?
    ensures TryFrom(New(id, now, g)) == Err(InvalidComponents)
  {
    NewShape(id, now, g);
    LeftoverLabel(g, Print(id), PeriodText(now, g));
    PrintHasNoColon(id);
    PeriodHasNoColon(now, g);
    ThreeParts(Label(g)[4..], Print(id), PeriodText(now, g));
    OnlyTwoPartsParse(Label(g)[4..] + ":" + (Print(id) + ":" + PeriodText(now, g)));
  }

  // ---------------------------------------------------------------- what exactly is printed and taken

  lemma PadStep(n: nat, width: nat)
    requires width >= 2
    ensures Padded(n, width) == Padded(n / 10, width - 1) + [DigitChar(n % 10)]
  {
  }

  lemma ValueStep(s: string)
    requires s != "" && AllDigits(s)
    ensures Value(s) / 10 == Value(s[..|s| - 1]) && Value(s) % 10 == s[|s| - 1] as int - '0' as int
  {
  }

  lemma OneDigit(s: string)
    requires |s| == 1 && AllDigits(s)
    ensures Padded(Value(s), 1) == s
  {
    assert s[..0] == "";
    DigitBack(s[0]);
  }

  lemma {:induction false} PadsBack(s: string)
    requires s != "" && AllDigits(s)
    ensures Padded(Value(s), |s|) == s
  {
    var n := |s| - 1;
    if n == 0 {
      OneDigit(s);
    } else {
      PadsBack(s[..n]);
      ValueStep(s);
      PadStep(Value(s), n + 1);
      DigitBack(s[n]);
      assert s == s[..n] + [s[n]];
    }
  }

  lemma DigitBack(c: char)
    requires IsDigit(c)
    ensures DigitChar(c as int - '0' as int) == c
  {
    assert c == '0' || c == '1' || c == '2' || c == '3' || c == '4' || c == '5' || c == '6' || c == '7' || c == '8'
           || c == '9';
  }

  lemma FourSlices(s: string)
    requires |s| == 10
    ensures s == s[..4] + (s[4..6] + s[6..8] + s[8..10] + "")
  {
  }

  /**
   A period that is taken is the start of an hour of the calendar, and of ten digits it is the one that prints as
   them.
   */
  lemma PrintParsed(s: string)
    requires ParsePeriod(s).Some?
    ensures var t := ParsePeriod(s).value;
      && ValidTime(t) && t.minute == t.second == t.nanos == 0 && |s| == 10
      && (AllDigits(s) ==> PeriodText(t, Hour) == s)
  {
    if AllDigits(s) {
      PadsBack(s[..4]);
      PadsBack(s[4..6]);
      PadsBack(s[6..8]);
      PadsBack(s[8..10]);
      FourSlices(s);
    }
  }

  /** The text of a period has its year in the first four places, then two each for month, day, hour and minute. */
  lemma PeriodFields(t: Time, g: Granularity)
    requires ValidTime(t) && 0 <= t.year < 10_000
    ensures ShowsFields(PeriodText(t, g), t, g)
  {
    YearText(t.year);
    TwoDigitText(t.month);
    TwoDigitText(t.day);
    TwoDigitText(t.hour);
    TwoDigitText(t.minute);
    FieldsOf(t, g, Padded(t.year, 4), Padded(t.month, 2), Padded(t.day, 2), Padded(t.hour, 2), Padded(t.minute, 2));
  }

  predicate Reads(s: string, width: nat, n: int) {
    |s| == width && AllDigits(s) && Value(s) == n
  }

  predicate ShowsFields(s: string, t: Time, g: Granularity) {
    && |s| == (if g.Minute? then 12 else 10) && AllDigits(s)
    && Value(s[..4]) == t.year && Value(s[4..6]) == t.month && Value(s[6..8]) == t.day && Value(s[8..10]) == t.hour
    && (g.Minute? ==> Value(s[10..12]) == t.minute)
  }

  lemma FieldsOf(t: Time, g: Granularity, y: string, m: string, d: string, h: string, mm: string)
    requires Reads(y, 4, t.year) && Reads(m, 2, t.month) && Reads(d, 2, t.day) && Reads(h, 2, t.hour)
    requires Reads(mm, 2, t.minute)
    ensures ShowsFields(y + (m + d + h + if g.Minute? then mm else ""), t, g)
  {
    var rest := if g.Minute? then mm else "";
    FiveParts(y, m, d, h, rest);
    var s := y + (m + d + h + rest);
    assert g.Minute? ==> s[10..12] == s[10..];
  }

  lemma YearText(year: nat)
    requires year < 10_000
    ensures Reads(Padded(year, 4), 4, year)
  {
    FourWide(year);
    ValueOfPadded(year, 4);
  }

  lemma TwoDigitText(n: nat)
    requires n < 100
    ensures Reads(Padded(n, 2), 2, n)
  {
    TwoWide(n);
    ValueOfPadded(n, 2);
  }

  lemma FiveParts(y: string, m: string, d: string, h: string, rest: string)
    requires |y| == 4 && |m| == |d| == |h| == 2
    requires AllDigits(y) && AllDigits(m) && AllDigits(d) && AllDigits(h) && AllDigits(rest)
    ensures var s := y + (m + d + h + rest);
      && |s| == 10 + |rest| && AllDigits(s)
      && s[..4] == y && s[4..6] == m && s[6..8] == d && s[8..10] == h && s[10..] == rest
  {
  }

  /** The five parts of a printed key. */
  lemma KeyParts(id: Uuid, now: Time, g: Granularity)
    ensures New(id, now, g) ==
            "vaultless:metric:" +
            ((if g.Hour? then "hash_hour" else "hash_minute") + (":" + Print(id) + ":" + PeriodText(now, g)))
  {
    NewShape(id, now, g);
  }

  /** The standard parsers take a sign, so texts that are never printed are taken for periods. */
  lemma SignsAreTaken(digits: string)
    requires digits != "" && AllDigits(digits)
    ensures ParseUnsigned("+" + digits).Some? && ParseUnsigned("+" + digits).value == Value(digits)
    ensures ParseSigned("-" + digits).Some? && ParseSigned("-" + digits).value == -(Value(digits) as int)
    ensures ParseUnsigned("-" + digits).None?
  {
    assert ("+" + digits)[1..] == digits && ("-" + digits)[1..] == digits;
    assert !IsDigit(("-" + digits)[0]);
  }

  /** Which of the two errors a text gives that does not convert. */
  lemma ErrorOf(s: string)
    ensures TryFrom(s).Ok? <==> ParseKey(s).Some?
    ensures TryFrom(s).Ok? ==> TryFrom(s).value == s
    ensures TryFrom(s).Err? ==> (TryFrom(s).error.InvalidFormat? <==> !("vaultless:metric:hash" <= s))
  {
  }
}

/**
 * Reading the encoder's progress stream: the `out_time_ms=` line matcher,
 * `_parse_ffmpeg_time`, and the filter in `run_ffmpeg` that turns matched
 * lines into the percentages it reports.
 */
module Progress {
  import opened Optional
  import opened Text

  /** The whitespace `str.strip()` removes (its ASCII and Latin-1 members). */
  predicate IsSpace(c: char) {
    c == ' ' || '\t' <= c <= '\r' || '\U{1C}' <= c <= '\U{1F}' || c == '\U{85}' || c == '\U{A0}'
  }

  function StripStart(s: string): (r: string)
    ensures r == [] || !IsSpace(r[0])
    ensures |r| <= |s| && r == s[|s| - |r|..]
    ensures forall k :: 0 <= k < |s| - |r| ==> IsSpace(s[k])
  {
    if s != [] && IsSpace(s[0]) then StripStart(s[1..]) else s
  }

  function StripEnd(s: string): (r: string)
    ensures r == [] || !IsSpace(r[|r| - 1])
    ensures r <= s
    ensures forall k :: |r| <= k < |s| ==> IsSpace(s[k])
  {
    if s != [] && IsSpace(s[|s| - 1]) then StripEnd(s[..|s| - 1]) else s
  }

  /** `str.strip()`. */
  function Strip(s: string): string {
    StripEnd(StripStart(s))
  }

  const OutTimeKey: string := "out_time_ms="

  /**
   * `_OUT_TIME_MS_RE.match(text)` on the stripped line: the key at the very
   * start followed by at least one digit; the value is the whole digit run.
   */
  function OutTimeMicros(line: string): Option<nat> {
    var t := Strip(line);
    var n := |OutTimeKey|;
    if |t| > n && t[..n] == OutTimeKey && IsDigit(t[n]) then Some(ValueOf(DigitPrefix(t[n..])))
    else None
  }

  /** A digit run followed by a non-digit reads as exactly that run. */
  lemma {:induction false} DigitPrefixOfRun(d: string, rest: string)
    requires AllDigits(d)
    requires rest == [] || !IsDigit(rest[0])
    ensures DigitPrefix(d + rest) == d
  {
    if d != [] {
      assert (d + rest)[1..] == d[1..] + rest;
      DigitPrefixOfRun(d[1..], rest);
    } else {
      assert d + rest == rest;
    }
  }

  /** Stripping keeps a line that starts and ends with non-space characters. */
  lemma StripKeeps(s: string)
    requires s != [] && !IsSpace(s[0]) && !IsSpace(s[|s| - 1])
    ensures Strip(s) == s
  {
    assert StripStart(s) == s;
    assert StripEnd(s) == s;
  }

  /** The line the encoder writes for `n` microseconds reads as `n` once the key is found. */
  lemma KeyedValue(n: nat)
    ensures var body := OutTimeKey + Decimal(n);
      && |body| > |OutTimeKey| && body[..|OutTimeKey|] == OutTimeKey
      && IsDigit(body[|OutTimeKey|])
      && ValueOf(DigitPrefix(body[|OutTimeKey|..])) == n
  {
    var d := Decimal(n);
    var body := OutTimeKey + d;
    assert body[..|OutTimeKey|] == OutTimeKey;
    assert body[|OutTimeKey|..] == d + [];
    assert body[|OutTimeKey|] == d[0];
    DigitPrefixOfRun(d, []);
    ValueOfDecimal(n);
  }

  /** The encoder's line for `n` microseconds, read with nothing around it, gives `n`. */
  lemma OutTimeLineReads(n: nat)
    ensures OutTimeMicros(OutTimeKey + Decimal(n)) == Some(n)
  {
    var d := Decimal(n);
    var body := OutTimeKey + d;
    assert body[0] == 'o';
    assert body[|body| - 1] == d[|d| - 1];
    assert IsDigit(d[|d| - 1]);
    StripKeeps(body);
    KeyedValue(n);
  }

  /**
   * The line the encoder writes for `n` microseconds reads back as `n`,
   * whatever whitespace surrounds it, such as the newline `readline()` keeps.
   */
  lemma OutTimeRoundTrip(indent: string, n: nat, trailing: string)
    requires forall k :: 0 <= k < |indent| ==> IsSpace(indent[k])
    requires forall k :: 0 <= k < |trailing| ==> IsSpace(trailing[k])
    ensures OutTimeMicros(indent + (OutTimeKey + Decimal(n)) + trailing) == Some(n)
  {
    var d := Decimal(n);
    var body := OutTimeKey + d;
    assert body[0] == 'o';
    assert body[|body| - 1] == d[|d| - 1];
    StripSurrounded(indent, body, trailing);
    OutTimeLineReads(n);
    StripKeeps(body);
  }

  /** Stripping removes exactly the whitespace around a text that starts and ends with non-space characters. */
  lemma StripSurrounded(indent: string, body: string, trailing: string)
    requires forall k :: 0 <= k < |indent| ==> IsSpace(indent[k])
    requires forall k :: 0 <= k < |trailing| ==> IsSpace(trailing[k])
    requires body != [] && !IsSpace(body[0]) && !IsSpace(body[|body| - 1])
    ensures Strip(indent + body + trailing) == body
  {
    assert indent + body + trailing == indent + (body + trailing);
    assert (body + trailing)[0] == body[0];
    StripStartSpaces(indent, body + trailing);
    StripEndSpaces(body, trailing);
  }

  lemma {:induction false} StripStartSpaces(indent: string, s: string)
    requires forall k :: 0 <= k < |indent| ==> IsSpace(indent[k])
    requires s != [] && !IsSpace(s[0])
    ensures StripStart(indent + s) == s
  {
    if indent != [] {
      assert (indent + s)[1..] == indent[1..] + s;
      StripStartSpaces(indent[1..], s);
    } else {
      assert indent + s == s;
    }
  }

  lemma {:induction false} StripEndSpaces(s: string, trailing: string)
    requires forall k :: 0 <= k < |trailing| ==> IsSpace(trailing[k])
    requires s != [] && !IsSpace(s[|s| - 1])
    ensures StripEnd(s + trailing) == s
    decreases |trailing|
  {
    if trailing != [] {
      var t := trailing[..|trailing| - 1];
      assert (s + trailing)[..|s + trailing| - 1] == s + t;
      StripEndSpaces(s, t);
    } else {
      assert s + trailing == s;
    }
  }

  function Min(a: real, b: real): real { if a <= b then a else b }
  function Max(a: real, b: real): real { if a >= b then a else b }

  /** `min(99.99, max(0.0, (elapsed / duration_seconds) * 100))` with `elapsed = out_time_ms / 1_000_000`. */
  function Percent(micros: nat, duration: real): (p: real)
    requires duration > 0.0
    ensures 0.0 <= p <= 99.99
    ensures micros as real / 1000000.0 / duration * 100.0 <= 99.99 ==>
              p == micros as real / 1000000.0 / duration * 100.0
  {
    var elapsed := micros as real / 1000000.0;
    Min(99.99, Max(0.0, elapsed / duration * 100.0))
  }

  /** Half of a 30-second input done: `out_time_ms=15000000` reads as 50 percent. */
  lemma HalfwayIsFifty()
    ensures OutTimeMicros(OutTimeKey + "15000000") == Some(15000000)
    ensures Percent(15000000, 30.0) == 50.0
  {
    OutTimeLineReads(15000000);
    FifteenMillion();
    var elapsed := 15000000 as real / 1000000.0;
    assert elapsed == 15.0;
    assert elapsed / 30.0 * 100.0 == 50.0;
  }

  lemma FifteenMillion()
    ensures Decimal(15000000) == "15000000"
  {
    assert Decimal(15) == "15";
    assert Decimal(150) == "150";
    assert Decimal(1500) == "1500";
    assert Decimal(15000) == "15000";
    assert Decimal(150000) == "150000";
    assert Decimal(1500000) == "1500000";
  }

  function LastOr(reports: seq<real>, default: real): real {
    if reports == [] then default else reports[|reports| - 1]
  }

  /**
   * The percentages `run_ffmpeg` passes to its callback after reading `lines`:
   * a matched line is reported only when it is at least 0.01 above the last
   * report (the first one, at least 0.01 above zero).
   */
  function Reports(lines: seq<string>, duration: real): seq<real>
    requires duration > 0.0
  {
    if lines == [] then []
    else
      var earlier := Reports(lines[..|lines| - 1], duration);
      match OutTimeMicros(lines[|lines| - 1])
      case None => earlier
      case Some(us) =>
        var p := Percent(us, duration);
        if p - LastOr(earlier, 0.0) >= 0.01 then earlier + [p] else earlier
  }

  /** Reported values lie in [0.01, 99.99] and each exceeds the one before by at least 0.01. */
  predicate Rising(reports: seq<real>) {
    && (forall k :: 0 <= k < |reports| ==> 0.01 <= reports[k] <= 99.99)
    && (forall k :: 0 < k < |reports| ==> reports[k] - reports[k - 1] >= 0.01)
  }

  lemma {:induction false} ReportsRising(lines: seq<string>, duration: real)
    requires duration > 0.0
    ensures Rising(Reports(lines, duration))
  {
    if lines != [] {
      ReportsRising(lines[..|lines| - 1], duration);
    }
  }

  /** The k-th report is at least 0.01 * (k + 1), so there are at most 9999 reports per run. */
  lemma {:induction false} RisingBoundsCount(reports: seq<real>)
    requires Rising(reports)
    ensures forall k :: 0 <= k < |reports| ==> reports[k] >= 0.01 * (k + 1) as real
    ensures |reports| <= 9999
  {
    if reports != [] {
      var r := reports[..|reports| - 1];
      assert Rising(r);
      RisingBoundsCount(r);
      var last := |reports| - 1;
      if last > 0 {
        assert reports[last - 1] == r[last - 1];
      }
      assert reports[last] >= 0.01 * (last + 1) as real;
    }
  }

  /** `run_ffmpeg`'s reading loop over the progress stream, tracking `last_percent`. */
  method StreamProgress(lines: seq<string>, duration: real) returns (reports: seq<real>)
    requires duration > 0.0
    ensures reports == Reports(lines, duration)
    ensures Rising(reports) && |reports| <= 9999
  {
    reports := [];
    var lastPercent := 0.0;
    var i := 0;
    while i < |lines|
      invariant 0 <= i <= |lines|
      invariant reports == Reports(lines[..i], duration)
      invariant lastPercent == LastOr(reports, 0.0)
    {
      assert lines[..i + 1][..i] == lines[..i];
      var found := OutTimeMicros(lines[i]);
      if found.Some? {
        var percent := Percent(found.value, duration);
        if percent - lastPercent >= 0.01 {
          lastPercent := percent;
          reports := reports + [percent];
        }
      }
      i := i + 1;
    }
    assert lines[..i] == lines;
    ReportsRising(lines, duration);
    RisingBoundsCount(reports);
  }

  // ---------------------------------------------------------------- _parse_ffmpeg_time

  const TimeKey: string := "time="

  /** `(\d+)` followed by `sep`: the digit run and what follows the separator. */
  function FieldThen(s: string, sep: char): Option<(string, string)> {
    var d := DigitPrefix(s);
    if d != [] && |s| > |d| && s[|d|] == sep then Some((d, s[|d| + 1..])) else None
  }

  /** The value of the digits after a decimal point: ".25" gives 0.25. */
  function FractionValue(d: string): real
    requires AllDigits(d)
  {
    if d == [] then 0.0 else (DigitValue(d[0]) as real + FractionValue(d[1..])) / 10.0
  }

  /** The optional `(?:\.\d+)` after the whole seconds, as the fraction `float` gives it. */
  function FractionAfter(rest: string): real {
    if rest != [] && rest[0] == '.' then FractionValue(DigitPrefix(rest[1..])) else 0.0
  }

  /** `(\d+(?:\.\d+)?)` at the start of `s`, read as `float(...)`. */
  function SecondsAt(s: string): Option<real> {
    var whole := DigitPrefix(s);
    if whole == [] then None else Some(ValueOf(whole) as real + FractionAfter(s[|whole|..]))
  }

  /** A fraction lies in [0, 1): the seconds field never carries into the next whole second. */
  lemma {:induction false} FractionBelowOne(d: string)
    requires AllDigits(d)
    ensures 0.0 <= FractionValue(d) < 1.0
  {
    if d != [] {
      FractionBelowOne(d[1..]);
    }
  }

  /** The seconds field reads as its whole part plus a fraction below one. */
  lemma SecondsBounds(s: string)
    requires SecondsAt(s).Some?
    ensures var whole := ValueOf(DigitPrefix(s)) as real;
      whole <= SecondsAt(s).value < whole + 1.0
  {
    var rest := s[|DigitPrefix(s)|..];
    if rest != [] && rest[0] == '.' {
      FractionBelowOne(DigitPrefix(rest[1..]));
    }
  }

  /** `(\d+):(\d+):(\d+(?:\.\d+)?)` at the start of `t`, as seconds. */
  function ClockFields(t: string): Option<real> {
    var hours := FieldThen(t, ':');
    if hours.None? then None
    else
      var minutes := FieldThen(hours.value.1, ':');
      if minutes.None? then None
      else
        var sec := SecondsAt(minutes.value.1);
        if sec.None? then None
        else Some((ValueOf(hours.value.0) * 3600 + ValueOf(minutes.value.0) * 60) as real + sec.value)
  }

  /** The clock pattern matched at the start of `s`, as seconds. */
  function ClockAt(s: string): Option<real> {
    if |s| < |TimeKey| || s[..|TimeKey|] != TimeKey then None else ClockFields(s[|TimeKey|..])
  }

  /** `_TIME_RE.search(line)`: the leftmost position where the clock pattern matches. */
  function ClockFrom(line: string, i: nat): Option<real>
    requires i <= |line|
    decreases |line| - i
  {
    match ClockAt(line[i..])
    case Some(v) => Some(v)
    case None => if i == |line| then None else ClockFrom(line, i + 1)
  }

  function ParseClock(line: string): Option<real> {
    ClockFrom(line, 0)
  }

  /**
   * A clock written as three runs of digits after the key (ffmpeg pads them: "time=00:01:05")
   * reads back as hours * 3600 + minutes * 60 + seconds.
   */
  lemma ClockRoundTrip(dh: string, dm: string, ds: string)
    requires dh != [] && dm != [] && ds != []
    requires AllDigits(dh) && AllDigits(dm) && AllDigits(ds)
    ensures ParseClock(TimeKey + dh + [':'] + dm + [':'] + ds)
            == Some((ValueOf(dh) * 3600 + ValueOf(dm) * 60) as real + ValueOf(ds) as real)
  {
    var line := TimeKey + dh + [':'] + dm + [':'] + ds;
    ClockOfFields(dh, dm, ds);
    MatchAtStart(line);
  }

  /** A line that starts with the pattern is read from its start. */
  lemma MatchAtStart(line: string)
    requires ClockAt(line).Some?
    ensures ParseClock(line) == ClockAt(line)
  {
    assert line[0..] == line;
  }

  /** Three digit fields after the key read as hours, minutes and seconds. */
  lemma ClockOfFields(dh: string, dm: string, ds: string)
    requires dh != [] && dm != [] && ds != []
    requires AllDigits(dh) && AllDigits(dm) && AllDigits(ds)
    ensures ClockAt(TimeKey + dh + [':'] + dm + [':'] + ds)
            == Some((ValueOf(dh) * 3600 + ValueOf(dm) * 60) as real + ValueOf(ds) as real)
  {
    var afterHours := dm + [':'] + ds;
    var fields := dh + [':'] + afterHours;
    var line := TimeKey + fields;
    assert line == TimeKey + dh + [':'] + dm + [':'] + ds;
    assert line[..|TimeKey|] == TimeKey;
    assert line[|TimeKey|..] == fields;
    FieldsRead(dh, dm, ds);
  }

  /** The fields after the key read as hours, minutes and seconds. */
  lemma FieldsRead(dh: string, dm: string, ds: string)
    requires dh != [] && dm != [] && ds != []
    requires AllDigits(dh) && AllDigits(dm) && AllDigits(ds)
    ensures ClockFields(dh + [':'] + (dm + [':'] + ds))
            == Some((ValueOf(dh) * 3600 + ValueOf(dm) * 60) as real + ValueOf(ds) as real)
  {
    var afterHours := dm + [':'] + ds;
    var t := dh + [':'] + afterHours;
    FieldThenRun(dh, ':', afterHours);
    var hours := FieldThen(t, ':');
    assert hours == Some((dh, afterHours));
    FieldThenRun(dm, ':', ds);
    var minutes := FieldThen(hours.value.1, ':');
    assert minutes == Some((dm, ds));
    WholeSeconds(ds);
    var sec := SecondsAt(minutes.value.1);
    assert sec == Some(ValueOf(ds) as real);
  }

  lemma FieldThenRun(d: string, sep: char, rest: string)
    requires d != [] && AllDigits(d) && !IsDigit(sep)
    ensures FieldThen(d + [sep] + rest, sep) == Some((d, rest))
  {
    var s := d + [sep] + rest;
    assert s == d + ([sep] + rest);
    DigitPrefixOfRun(d, [sep] + rest);
    assert s[|d|] == sep;
    assert s[|d| + 1..] == rest;
  }

  /** Seconds without a fraction read as their whole value. */
  lemma WholeSeconds(ds: string)
    requires ds != [] && AllDigits(ds)
    ensures SecondsAt(ds) == Some(ValueOf(ds) as real)
  {
    assert ds + [] == ds;
    DigitPrefixOfRun(ds, []);
    assert ds[|ds|..] == [];
  }
}

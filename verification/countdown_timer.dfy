/**
 * The session countdown: reads the extrapolated clock's `Remaining` time as
 * `H:M:S`, counts it down by the whole seconds elapsed since the clock
 * arrived, and shows the result as `HH:MM:SS`.
 */
module CountdownTimer {
  import opened Wrappers
  import opened JsText

  /** The extrapolated clock as the feed sends it. */
  datatype ExtrapolatedClock = ExtrapolatedClock(Remaining: string, Extrapolating: bool)

  /** `parts[i] || '0'`: an absent or empty part counts as "0". */
  function PartOrZero(parts: seq<string>, i: nat): string {
    if i < |parts| && parts[i] != "" then parts[i] else "0"
  }

  /** `parseTimeString`: hours·3600 + minutes·60 + seconds; `None` is NaN,
    * which any part that `parseInt` cannot read produces. */
  function ParseTimeString(timeStr: string): Option<int> {
    ParseTimeParts(Split(timeStr, ':'))
  }

  /** The total of the ':'-separated parts. */
  function ParseTimeParts(parts: seq<string>): Option<int> {
    var hours := ParseInt(PartOrZero(parts, 0));
    var minutes := ParseInt(PartOrZero(parts, 1));
    var seconds := ParseInt(PartOrZero(parts, 2));
    if hours.None? || minutes.None? || seconds.None? then None
    else Some(hours.value * 3600 + minutes.value * 60 + seconds.value)
  }

  /** `n.toString().padStart(2, '0')`. */
  function TwoDigits(n: nat): string {
    PadStart(NatToString(n), 2, '0')
  }

  /** `formatTime`: "00:00:00" for no time left, otherwise hours, minutes and
    * seconds, each at least two digits. */
  function FormatTime(totalSeconds: int): (r: string)
    ensures totalSeconds <= 0 ==> r == "00:00:00"
  {
    if totalSeconds <= 0 then "00:00:00"
    else
      var hours := totalSeconds / 3600;
      var minutes := (totalSeconds % 3600) / 60;
      var seconds := totalSeconds % 60;
      Join([TwoDigits(hours), TwoDigits(minutes), TwoDigits(seconds)], ':')
  }

  /** The seconds still to show: the initial time less the whole seconds
    * elapsed, never below zero. */
  function RemainingSeconds(initialRemainingSeconds: int, elapsedMs: int): (r: int)
    ensures r >= 0
    ensures r == 0 || r == initialRemainingSeconds - elapsedMs / 1000
  {
    Max(0, initialRemainingSeconds - elapsedMs / 1000)
  }

  function Max(a: int, b: int): int {
    if a >= b then a else b
  }

  /** The text the hook shows at `now` for a clock received at `startTime`:
    * "00:00:00" without a clock, the raw `Remaining` text while the clock is
    * not extrapolating, the counted-down time otherwise ("NaN:NaN:NaN" when
    * `Remaining` cannot be read). */
  function DisplayTime(extrapolatedClock: Option<ExtrapolatedClock>, startTime: int, now: int): (r: string)
    ensures extrapolatedClock.None? ==> r == "00:00:00"
    ensures extrapolatedClock.Some? && !extrapolatedClock.value.Extrapolating ==> r == extrapolatedClock.value.Remaining
    ensures extrapolatedClock.Some? && extrapolatedClock.value.Extrapolating && ParseTimeString(extrapolatedClock.value.Remaining).Some?
      ==> ParseTimeString(r) == Some(RemainingSeconds(ParseTimeString(extrapolatedClock.value.Remaining).value, now - startTime))
  {
    match extrapolatedClock
    case None => "00:00:00"
    case Some(clock) =>
      if !clock.Extrapolating then clock.Remaining
      else
        match ParseTimeString(clock.Remaining)
        case None => "NaN:NaN:NaN"
        case Some(initialRemainingSeconds) =>
          var shown := RemainingSeconds(initialRemainingSeconds, now - startTime);
          FormatTimeRoundTrip(shown);
          FormatTime(shown)
  }

  /** Reading back three numeral parts joined by ':'. */
  lemma ParseJoined(a: string, b: string, c: string, h: int, m: int, sec: int)
    requires a != "" && ':' !in a && b != "" && ':' !in b && c != "" && ':' !in c
    requires ParseInt(a) == Some(h) && ParseInt(b) == Some(m) && ParseInt(c) == Some(sec)
    ensures ParseTimeString(Join([a, b, c], ':')) == Some(h * 3600 + m * 60 + sec)
  {
    var parts := [a, b, c];
    assert forall k :: 0 <= k < |parts| ==> ':' !in parts[k];
    SplitJoin(parts, ':');
    ThreeParts(a, b, c, h, m, sec);
  }

  lemma ThreeParts(a: string, b: string, c: string, h: int, m: int, sec: int)
    requires a != "" && b != "" && c != ""
    requires ParseInt(a) == Some(h) && ParseInt(b) == Some(m) && ParseInt(c) == Some(sec)
    ensures ParseTimeParts([a, b, c]) == Some(h * 3600 + m * 60 + sec)
  {
    assert PartOrZero([a, b, c], 0) == a;
    assert PartOrZero([a, b, c], 1) == b;
    assert PartOrZero([a, b, c], 2) == c;
  }

  /** A two-digit field holds only digits, so no ':' and is never empty. */
  lemma TwoDigitsShape(n: nat)
    ensures |TwoDigits(n)| >= 2
    ensures ':' !in TwoDigits(n)
    ensures ParseInt(TwoDigits(n)) == Some(n)
  {
    var s := NatToString(n);
    var p := TwoDigits(n);
    assert forall i :: 0 <= i < |p| ==> IsDigit(p[i]) by {
      forall i | 0 <= i < |p|
        ensures IsDigit(p[i])
      {
        if i >= |p| - |s| {
          assert p[i] == p[|p| - |s|..][i - (|p| - |s|)];
        }
      }
    }
    ParsePadded(n, 2);
  }

  /** Hours, minutes and seconds put back together give the total. */
  lemma SplitSeconds(t: nat)
    ensures (t / 3600) * 3600 + ((t % 3600) / 60) * 60 + t % 60 == t
  {
    var q, r := t / 3600, t % 3600;
    var a, b := r / 60, r % 60;
    assert t == q * 3600 + r;
    assert r == a * 60 + b;
    assert t == (q * 60 + a) * 60 + b;
    ModAfterMultiple(q * 60 + a, b);
  }

  lemma ModAfterMultiple(k: int, b: int)
    requires 0 <= b < 60
    ensures (k * 60 + b) % 60 == b
  {
  }

  /** `parseTimeString(formatTime(s)) == s` for every non-negative count, and
    * any negative count reads back as 0. */
  lemma FormatTimeRoundTrip(totalSeconds: int)
    ensures ParseTimeString(FormatTime(totalSeconds)) == Some(if totalSeconds <= 0 then 0 else totalSeconds)
  {
    if totalSeconds <= 0 {
      ZeroRoundTrip();
    } else {
      PositiveRoundTrip(totalSeconds);
    }
  }

  lemma PositiveRoundTrip(totalSeconds: nat)
    requires totalSeconds > 0
    ensures ParseTimeString(FormatTime(totalSeconds)) == Some(totalSeconds)
  {
    FormatParts(totalSeconds);
    ParseFormatted(totalSeconds);
  }

  lemma ParseFormatted(totalSeconds: nat)
    ensures ParseTimeString(Join([TwoDigits(totalSeconds / 3600), TwoDigits((totalSeconds % 3600) / 60), TwoDigits(totalSeconds % 60)], ':'))
      == Some(totalSeconds)
  {
    var hours, minutes, seconds := totalSeconds / 3600, (totalSeconds % 3600) / 60, totalSeconds % 60;
    assert hours * 3600 + minutes * 60 + seconds == totalSeconds by {
      SplitSeconds(totalSeconds);
    }
    ParseTwoDigitFields(hours, minutes, seconds);
  }

  lemma FormatParts(totalSeconds: nat)
    requires totalSeconds > 0
    ensures FormatTime(totalSeconds)
      == Join([TwoDigits(totalSeconds / 3600), TwoDigits((totalSeconds % 3600) / 60), TwoDigits(totalSeconds % 60)], ':')
  {
  }

  /** Three two-digit fields joined by ':' read back as their total. */
  lemma ParseTwoDigitFields(hours: nat, minutes: nat, seconds: nat)
    ensures ParseTimeString(Join([TwoDigits(hours), TwoDigits(minutes), TwoDigits(seconds)], ':'))
      == Some(hours * 3600 + minutes * 60 + seconds)
  {
    TwoDigitsShape(hours);
    TwoDigitsShape(minutes);
    TwoDigitsShape(seconds);
    ParseJoined(TwoDigits(hours), TwoDigits(minutes), TwoDigits(seconds), hours, minutes, seconds);
  }

  /** "00:00:00" reads back as 0. */
  lemma ZeroRoundTrip()
    ensures ParseTimeString("00:00:00") == Some(0)
  {
    var zero := "00";
    assert zero == ['0'] + ['0'];
    assert ParseInt(zero) == Some(0) by {
      assert AllDigits(zero);
      ParseDigits(zero);
      assert zero[..1] == "0";
    }
    assert [zero, zero, zero][1..] == [zero, zero] && [zero, zero][1..] == [zero];
    assert Join([zero], ':') == zero;
    assert Join([zero, zero], ':') == zero + [':'] + zero;
    assert Join([zero, zero, zero], ':') == zero + [':'] + (zero + [':'] + zero);
    assert zero + [':'] + (zero + [':'] + zero) == "00:00:00";
    ParseJoined(zero, zero, zero, 0, 0, 0);
  }

  /** `parseTimeString("H:M:S")` for numerals H, M and S. */
  lemma ParseHms(h: nat, m: nat, s: nat)
    ensures ParseTimeString(Join([NatToString(h), NatToString(m), NatToString(s)], ':')) == Some(h * 3600 + m * 60 + s)
  {
    NumeralShape(h);
    NumeralShape(m);
    NumeralShape(s);
    ParseJoined(NatToString(h), NatToString(m), NatToString(s), h, m, s);
  }

  /** Missing minutes and seconds count as 0: "H" and "H:M". */
  lemma ParseMissingParts(h: nat, m: nat)
    ensures ParseTimeString(NatToString(h)) == Some(h * 3600)
    ensures ParseTimeString(Join([NatToString(h), NatToString(m)], ':')) == Some(h * 3600 + m * 60)
  {
    NumeralShape(h);
    NumeralShape(m);
    ParseOnePart(NatToString(h), h);
    ParseTwoParts(NatToString(h), NatToString(m), h, m);
  }

  lemma ZeroPart()
    ensures ParseInt("0") == Some(0)
  {
    assert AllDigits("0");
    ParseDigits("0");
  }

  lemma ParseOnePart(a: string, h: int)
    requires a != "" && ':' !in a && ParseInt(a) == Some(h)
    ensures ParseTimeString(a) == Some(h * 3600)
  {
    IndexOfAbsent(a, ':');
    assert Split(a, ':') == [a];
    ZeroPart();
  }

  lemma ParseTwoParts(a: string, b: string, h: int, m: int)
    requires a != "" && ':' !in a && b != "" && ':' !in b
    requires ParseInt(a) == Some(h) && ParseInt(b) == Some(m)
    ensures ParseTimeString(Join([a, b], ':')) == Some(h * 3600 + m * 60)
  {
    var parts := [a, b];
    assert forall k :: 0 <= k < |parts| ==> ':' !in parts[k];
    SplitJoin(parts, ':');
    TwoParts(a, b, h, m);
  }

  lemma TwoParts(a: string, b: string, h: int, m: int)
    requires a != "" && b != ""
    requires ParseInt(a) == Some(h) && ParseInt(b) == Some(m)
    ensures ParseTimeParts([a, b]) == Some(h * 3600 + m * 60)
  {
    assert PartOrZero([a, b], 0) == a;
    assert PartOrZero([a, b], 1) == b;
    assert PartOrZero([a, b], 2) == "0";
    ZeroPart();
  }

  lemma NumeralShape(n: nat)
    ensures NatToString(n) != "" && ':' !in NatToString(n)
    ensures ParseInt(NatToString(n)) == Some(n)
  {
    var s := NatToString(n);
    assert forall i :: 0 <= i < |s| ==> IsDigit(s[i]);
    ParseDigits(s);
  }

  /** The shown time never goes up as time passes. */
  lemma RemainingNonIncreasing(initialRemainingSeconds: int, elapsed1: int, elapsed2: int)
    requires elapsed1 <= elapsed2
    ensures RemainingSeconds(initialRemainingSeconds, elapsed2) <= RemainingSeconds(initialRemainingSeconds, elapsed1)
  {
    assert elapsed1 / 1000 <= elapsed2 / 1000;
  }
}

/** The time arithmetic of the segment editor: a millisecond instant shown as
    whole minutes and seconds, edited one field at a time, checked before
    saving, and printed as `M:SS`. Both editor versions use these. */
module TimeFields {
  import opened Util
  import opened Decimal

  datatype TimeUnit = Minutes | Seconds

  /** The minutes field shown for `ms`: `Math.floor(ms / 60000)`. */
  function MinutesField(ms: int): int
  {
    FloorDiv(ms, 60000)
  }

  /** The seconds field shown for `ms`: `Math.floor((ms % 60000) / 1000)`,
      with JavaScript's truncating `%`. */
  function SecondsField(ms: int): int
  {
    FloorDiv(JsRem(ms, 60000), 1000)
  }

  /** `(minutes * 60 + seconds) * 1000`. */
  function Recombine(minutes: int, seconds: int): int
  {
    (minutes * 60 + seconds) * 1000
  }

  /** For an instant that is not negative the fields are its whole minutes
      and the whole seconds left over: seconds lie in 0..59 and the fields
      recombine to the instant less its sub-second part. */
  lemma FieldsOfInstant(ms: int)
    requires ms >= 0
    ensures MinutesField(ms) == ms / 60000 && SecondsField(ms) == ms % 60000 / 1000
    ensures 0 <= SecondsField(ms) < 60
    ensures Recombine(MinutesField(ms), SecondsField(ms)) == ms - ms % 1000
  {
    var m := ms / 60000;
    var r := ms % 60000;
    assert ms == m * 60000 + r;
    assert r / 1000 * 1000 + r % 1000 == r;
    assert r % 1000 == ms % 1000 by {
      assert ms == (m * 60 + r / 1000) * 1000 + r % 1000;
    }
  }

  /** For a negative instant the seconds field is not in 0..59: it lies in
      -60..0. */
  lemma FieldsOfNegativeInstant(ms: int)
    requires ms < 0
    ensures -60 <= SecondsField(ms) <= 0
    ensures MinutesField(ms) < 0
  {
  }

  /** The instant an edit of one field produces, before any clamp: the other
      field is read off the current instant and kept. */
  function EditedMs(current: int, unit: TimeUnit, value: int): int
  {
    match unit
    case Minutes => Recombine(value, SecondsField(current))
    case Seconds => Recombine(MinutesField(current), value)
  }

  /** An edit always lands on a whole second. */
  lemma EditedWholeSecond(current: int, unit: TimeUnit, value: int)
    ensures EditedMs(current, unit, value) % 1000 == 0
  {
    var k := match unit
      case Minutes => value * 60 + SecondsField(current)
      case Seconds => MinutesField(current) * 60 + value;
    assert EditedMs(current, unit, value) == k * 1000;
  }

  /** Editing the minutes keeps the seconds field and shows the new minutes;
      whatever milliseconds the instant had below a whole second are lost. */
  lemma EditMinutesKeepsSeconds(current: int, value: int)
    requires current >= 0 && value >= 0
    ensures MinutesField(EditedMs(current, Minutes, value)) == value
    ensures SecondsField(EditedMs(current, Minutes, value)) == SecondsField(current)
    ensures EditedMs(current, Minutes, MinutesField(current)) == current - current % 1000
  {
    FieldsOfInstant(current);
    var s := SecondsField(current);
    var ms := EditedMs(current, Minutes, value);
    assert ms == value * 60000 + s * 1000;
    assert ms / 60000 == value && ms % 60000 == s * 1000;
    FieldsOfInstant(ms);
  }

  /** Editing the seconds keeps the minutes and carries whole minutes of the
      input into the minutes field (a negative input borrows), leaving a
      seconds field in 0..59. */
  lemma EditSecondsCarries(current: int, value: int)
    requires current >= 0 && MinutesField(current) * 60 + value >= 0
    ensures MinutesField(EditedMs(current, Seconds, value)) == MinutesField(current) + value / 60
    ensures SecondsField(EditedMs(current, Seconds, value)) == value % 60
  {
    var m := MinutesField(current);
    var ms := EditedMs(current, Seconds, value);
    assert m * 60 + value == (m + value / 60) * 60 + value % 60;
    assert ms == (m + value / 60) * 60000 + value % 60 * 1000;
    assert ms / 60000 == m + value / 60 && ms % 60000 == value % 60 * 1000;
    FieldsOfInstant(ms);
  }

  /** The seconds normalisation of the clamping editor: a seconds value of 60
      or more carries whole minutes, a negative one borrows them, so that the
      seconds end in 0..59. */
  method CarrySeconds(minutes: int, seconds: int) returns (m: int, s: int)
    ensures 0 <= s < 60
    ensures m == minutes + seconds / 60 && s == seconds % 60
    ensures m * 60 + s == minutes * 60 + seconds
  {
    m, s := minutes, seconds;
    if s >= 60 {
      m := m + FloorDiv(s, 60);
      s := JsRem(s, 60);
    } else if s < 0 {
      m := m + FloorDiv(s, 60);
      s := JsRem(JsRem(s, 60) + 60, 60);
      assert JsRem(seconds, 60) + 60 == seconds % 60 || JsRem(seconds, 60) + 60 == 60;
    }
  }

  /** The carry never changes the instant: recombining the normalised fields
      gives what the raw ones give, so both editors compute the same instant
      before clamping. */
  lemma CarryKeepsInstant(minutes: int, seconds: int)
    ensures Recombine(minutes + seconds / 60, seconds % 60) == Recombine(minutes, seconds)
  {
  }

  /** `parseInt(value, 10) || 0` applied to a number the input already
      parsed: the number itself. */
  function Reparse(value: int): (r: int)
    ensures r == value
  {
    ParseIntOfDecimal(value);
    match ParseInt(IntToDecimal(value))
    case None => 0
    case Some(n) => if n != 0 then n else 0
  }

  /** What `handleSave` does: reject an empty or reversed range, then an end
      beyond the track; otherwise save exactly the range and close. */
  datatype SaveOutcome = Saved(startMs: int, endMs: int) | RejectedOrder | RejectedBeyondTrack

  function CheckSave(startMs: int, endMs: int, durationMs: int): (r: SaveOutcome)
    ensures r.Saved? <==> startMs < endMs <= durationMs
    ensures r.Saved? ==> r.startMs == startMs && r.endMs == endMs
    ensures r.RejectedOrder? <==> startMs >= endMs
    ensures r.RejectedBeyondTrack? <==> startMs < endMs && endMs > durationMs
  {
    if startMs >= endMs then RejectedOrder
    else if endMs > durationMs then RejectedBeyondTrack
    else Saved(startMs, endMs)
  }

  /** `formatDuration(ms)`: whole minutes, `:`, the remaining whole seconds
      with a `0` in front when below ten. */
  function FormatDuration(ms: int): string
  {
    var totalSeconds := FloorDiv(ms, 1000);
    var minutes := FloorDiv(totalSeconds, 60);
    var seconds := JsRem(totalSeconds, 60);
    IntToDecimal(minutes) + ":" + (if seconds < 10 then "0" else "") + IntToDecimal(seconds)
  }

  /** Two decimal digits for a number of seconds. */
  function TwoDigits(n: int): (s: string)
    requires 0 <= n < 60
    ensures |s| == 2 && AllDigits(s)
  {
    [DigitChar(n / 10), DigitChar(n % 10)]
  }

  lemma TwoDigitsValue(n: int)
    requires 0 <= n < 60
    ensures DigitsValue(TwoDigits(n)) == n
  {
    var s := TwoDigits(n);
    assert s[..1][..0] == [];
    assert s[..1] == [DigitChar(n / 10)];
    assert DigitValue(DigitChar(n / 10)) == n / 10;
    assert DigitValue(DigitChar(n % 10)) == n % 10;
    assert DigitsValue(s[..1]) == n / 10;
  }

  /** For an instant that is not negative the text is the whole minutes, a
      colon and exactly two digits of seconds. */
  lemma FormatDurationShape(ms: int)
    requires ms >= 0
    ensures FormatDuration(ms) == NatToDecimal(ms / 60000) + ":" + TwoDigits(ms / 1000 % 60)
  {
    var t := ms / 1000;
    assert t / 60 == ms / 60000;
    var s := t % 60;
    assert JsRem(t, 60) == s;
    if s < 10 {
      assert NatToDecimal(s) == [DigitChar(s)];
      assert TwoDigits(s) == "0" + NatToDecimal(s);
    } else {
      assert NatToDecimal(s / 10) == [DigitChar(s / 10)];
      assert NatToDecimal(s) == [DigitChar(s / 10)] + [DigitChar(s % 10)];
    }
  }

  /** Reads an `M:SS` text back as a number of whole seconds; the partner of
      `FormatDuration`. */
  function ParseDuration(text: string): (r: Option<int>)
    ensures r.Some? ==> r.value >= 0
  {
    if |text| < 4 || text[|text| - 3] != ':' then None
    else
      var minutes := text[..|text| - 3];
      var seconds := text[|text| - 2..];
      if AllDigits(minutes) && AllDigits(seconds) && DigitsValue(seconds) < 60
      then Some(DigitsValue(minutes) * 60 + DigitsValue(seconds))
      else None
  }

  /** Minutes and two-digit seconds read back as their number of seconds. */
  lemma ParseMinutesSeconds(m: nat, sec: int)
    requires 0 <= sec < 60
    ensures ParseDuration(NatToDecimal(m) + ":" + TwoDigits(sec)) == Some(m * 60 + sec)
  {
    var digits := NatToDecimal(m);
    var text := digits + ":" + TwoDigits(sec);
    assert text[..|text| - 3] == digits;
    assert text[|text| - 2..] == TwoDigits(sec);
    DigitsValueOfDecimal(m);
    TwoDigitsValue(sec);
  }

  /** The text of a non-negative instant reads back as its whole seconds: no
      two instants in different seconds print alike. */
  lemma FormatDurationRoundTrip(ms: int)
    requires ms >= 0
    ensures ParseDuration(FormatDuration(ms)) == Some(ms / 1000)
  {
    FormatDurationShape(ms);
    ParseMinutesSeconds(ms / 60000, ms / 1000 % 60);
    assert ms / 60000 * 60 + ms / 1000 % 60 == ms / 1000;
  }

  /** Without a clamp an edit of the start can move it past the end: from
      any range, entering one more minute than the end shows puts the start
      after the end. */
  lemma UnclampedStartCanPassEnd(startMs: int, endMs: int)
    requires 0 <= startMs <= endMs
    ensures EditedMs(startMs, Minutes, MinutesField(endMs) + 1) > endMs
  {
    FieldsOfInstant(startMs);
    assert endMs < (endMs / 60000 + 1) * 60000;
  }
}

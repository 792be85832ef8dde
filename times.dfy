/** Times of day as `time.fromisoformat` yields them for the `HH:MM` pieces of a schedule line. */
module Times {
  import opened Results

  /** A wall-clock time of day with minute resolution. */
  datatype Time = Time(hour: nat, minute: nat)

  predicate ValidTime(t: Time) {
    t.hour < 24 && t.minute < 60
  }

  predicate IsDigit(c: char) {
    '0' <= c <= '9'
  }

  function DigitValue(c: char): (n: nat)
    requires IsDigit(c)
    ensures n < 10
  {
    (c as int - '0' as int) as nat
  }

  function DigitChar(n: nat): (c: char)
    requires n < 10
    ensures IsDigit(c) && DigitValue(c) == n
  {
    ('0' as int + n) as char
  }

  /** The value of two decimal digits. */
  function TwoDigits(hi: char, lo: char): (n: nat)
    requires IsDigit(hi) && IsDigit(lo)
    ensures n < 100
  {
    DigitValue(hi) * 10 + DigitValue(lo)
  }

  /**
   * The ISO 8601 extended time of day `hh:mm`: two digits of hour 00-23, a colon,
   * two digits of minute 00-59. Anything else is rejected (a `ValueError` in the source).
   */
  function ParseTime(s: string): (r: Option<Time>)
    ensures r.Some? ==> ValidTime(r.value) && |s| == 5 && s[2] == ':'
  {
    if |s| == 5 && IsDigit(s[0]) && IsDigit(s[1]) && s[2] == ':' && IsDigit(s[3]) && IsDigit(s[4]) then
      var hour := TwoDigits(s[0], s[1]);
      var minute := TwoDigits(s[3], s[4]);
      if hour < 24 && minute < 60 then Some(Time(hour, minute)) else None
    else
      None
  }

  /** The canonical `hh:mm` text of a time, as `time.isoformat(timespec="minutes")` writes it. */
  function FormatTime(t: Time): (s: string)
    requires ValidTime(t)
    ensures |s| == 5 && s[2] == ':'
  {
    [DigitChar(t.hour / 10), DigitChar(t.hour % 10), ':', DigitChar(t.minute / 10), DigitChar(t.minute % 10)]
  }

  /** Every valid time is read back from its own text. */
  lemma ParseFormat(t: Time)
    requires ValidTime(t)
    ensures ParseTime(FormatTime(t)) == Some(t)
  {
    var s := FormatTime(t);
    assert TwoDigits(s[0], s[1]) == t.hour;
    assert TwoDigits(s[3], s[4]) == t.minute;
  }

  /** Text accepted by the parser is exactly the canonical text of what it yields. */
  lemma FormatParse(s: string)
    requires ParseTime(s).Some?
    ensures FormatTime(ParseTime(s).value) == s
  {
    var t := ParseTime(s).value;
    var f := FormatTime(t);
    assert DigitValue(f[0]) == DigitValue(s[0]) && DigitValue(f[1]) == DigitValue(s[1]);
    assert DigitValue(f[3]) == DigitValue(s[3]) && DigitValue(f[4]) == DigitValue(s[4]);
    DigitInjective(f[0], s[0]);
    DigitInjective(f[1], s[1]);
    DigitInjective(f[3], s[3]);
    DigitInjective(f[4], s[4]);
  }

  lemma DigitInjective(a: char, b: char)
    requires IsDigit(a) && IsDigit(b) && DigitValue(a) == DigitValue(b)
    ensures a == b
  {
  }
}

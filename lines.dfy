/**
 * Classification of the text lines extracted from the schedule PDF, and the split of a
 * time line on its `" - "` separator.
 */
module Lines {
  import opened Times

  /** The separator between start and end time: `" - "`. */
  predicate SepAt(s: string, i: int) {
    0 <= i && i + 3 <= |s| && s[i] == ' ' && s[i + 1] == '-' && s[i + 2] == ' '
  }

  /**
   * The code point of the digit zero of every run of decimal digits in Unicode 15.0 (general
   * category Nd). Each run holds the ten digits 0 to 9 in order, and together they are all
   * the characters of the category.
   */
  const DecimalZeros: seq<int> :=
    [0x30, 0x660, 0x6F0, 0x7C0, 0x966, 0x9E6, 0xA66, 0xAE6, 0xB66, 0xBE6] +
    [0xC66, 0xCE6, 0xD66, 0xDE6, 0xE50, 0xED0, 0xF20, 0x1040, 0x1090, 0x17E0] +
    [0x1810, 0x1946, 0x19D0, 0x1A80, 0x1A90, 0x1B50, 0x1BB0, 0x1C40, 0x1C50, 0xA620] +
    [0xA8D0, 0xA900, 0xA9D0, 0xA9F0, 0xAA50, 0xABF0, 0xFF10, 0x104A0, 0x10D30, 0x11066] +
    [0x110F0, 0x11136, 0x111D0, 0x112F0, 0x11450, 0x114D0, 0x11650, 0x116C0, 0x11730, 0x118E0] +
    [0x11950, 0x11C50, 0x11D50, 0x11DA0, 0x11F50, 0x16A60, 0x16AC0, 0x16B50, 0x1D7CE, 0x1D7D8] +
    [0x1D7E2, 0x1D7EC, 0x1D7F6, 0x1E140, 0x1E2F0, 0x1E4F0, 0x1E950, 0x1FBF0]

  /** `\d` of a `str` pattern: any Unicode decimal digit, not only `0` to `9`. */
  predicate IsDecimalDigit(c: char) {
    InDigitRun(c as int, DecimalZeros, 0)
  }

  /** Code point `x` lies in one of the ten-wide runs starting at `zeros[k]`, `zeros[k + 1]`, .... */
  predicate InDigitRun(x: int, zeros: seq<int>, k: nat)
    decreases |zeros| - k
  {
    k < |zeros| && (zeros[k] <= x < zeros[k] + 10 || InDigitRun(x, zeros, k + 1))
  }

  /** Walking the runs one by one finds `x` exactly when some run from the `k`-th on holds it. */
  lemma {:induction false} InDigitRunIff(x: int, zeros: seq<int>, k: nat)
    ensures InDigitRun(x, zeros, k) <==> exists m :: k <= m < |zeros| && zeros[m] <= x < zeros[m] + 10
    decreases |zeros| - k
  {
    if k < |zeros| {
      InDigitRunIff(x, zeros, k + 1);
    }
  }

  /** A character is a decimal digit exactly when it is one of the ten digits of some script. */
  lemma DecimalDigitIff(c: char)
    ensures IsDecimalDigit(c) <==> exists m :: 0 <= m < |DecimalZeros| && DecimalZeros[m] <= c as int < DecimalZeros[m] + 10
  {
    InDigitRunIff(c as int, DecimalZeros, 0);
  }

  /** `s` holds the pattern `\d\d:\d\d - \d\d:\d\d` starting at index `k`. */
  predicate TimeRangeAt(s: string, k: int) {
    0 <= k && k + 13 <= |s|
    && IsDecimalDigit(s[k]) && IsDecimalDigit(s[k + 1]) && s[k + 2] == ':'
    && IsDecimalDigit(s[k + 3]) && IsDecimalDigit(s[k + 4])
    && SepAt(s, k + 5)
    && IsDecimalDigit(s[k + 8]) && IsDecimalDigit(s[k + 9]) && s[k + 10] == ':'
    && IsDecimalDigit(s[k + 11]) && IsDecimalDigit(s[k + 12])
  }

  /** A line that contains a time range anywhere (a regular-expression search, not a full match). */
  predicate IsTimeLine(s: string) {
    exists k :: 0 <= k && k <= |s| - 13 && TimeRangeAt(s, k)
  }

  datatype LineKind = TimeRange | EmptyDayMarker | Boundary | Noise

  /** The first test that holds wins: time line, then `"-"`, then `""`; everything else is noise. */
  function Classify(line: string): (k: LineKind)
    ensures k == TimeRange <==> IsTimeLine(line)
    ensures k == EmptyDayMarker <==> line == "-"
    ensures k == Boundary <==> line == ""
  {
    if IsTimeLine(line) then TimeRange
    else if line == "-" then EmptyDayMarker
    else if line == "" then Boundary
    else Noise
  }

  /** Index of the first separator at or after `from`, or `|s|` when there is none. */
  function FindSep(s: string, from: nat): (i: nat)
    requires from <= |s|
    ensures from <= i <= |s|
    ensures i < |s| ==> SepAt(s, i)
    ensures forall j :: from <= j < i ==> !SepAt(s, j)
    decreases |s| - from
  {
    if from + 3 > |s| then |s|
    else if SepAt(s, from) then from
    else FindSep(s, from + 1)
  }

  ghost predicate NoSep(p: string) {
    forall j :: !SepAt(p, j)
  }

  /** Rejoins pieces with the separator (the inverse of `Split`). */
  function Join(pieces: seq<string>): string
    requires |pieces| >= 1
  {
    if |pieces| == 1 then pieces[0] else pieces[0] + " - " + Join(pieces[1..])
  }

  /**
   * `str.split(" - ")`: scan left to right, cut at each separator not overlapping an earlier
   * cut. The pieces rejoin to the line and none of them contains the separator.
   */
  function Split(s: string): (pieces: seq<string>)
    ensures |pieces| >= 1
    ensures Join(pieces) == s
    ensures forall m :: 0 <= m < |pieces| ==> NoSep(pieces[m])
    ensures forall m, j :: 0 <= m < |pieces| - 1 && 0 <= j < |pieces[m]| ==> !SepAt(Join(pieces[m..]), j)
    decreases |s|
  {
    var i := FindSep(s, 0);
    if i == |s| then
      assert NoSep(s) by {
        forall j ensures !SepAt(s, j) {
          if 0 <= j < |s| { assert !SepAt(s, j); }
        }
      }
      [s]
    else
      var head, rest := s[..i], s[i + 3..];
      assert NoSep(head) by {
        forall j ensures !SepAt(head, j) {
          if SepAt(head, j) { assert SepAt(s, j); }
        }
      }
      var tail := Split(rest);
      assert s == head + " - " + rest;
      var pieces := [head] + tail;
      assert pieces[1..] == tail;
      forall m, j | 0 <= m < |pieces| - 1 && 0 <= j < |pieces[m]|
        ensures !SepAt(Join(pieces[m..]), j)
      {
        if m == 0 {
          assert pieces[m..] == pieces;
        } else {
          assert pieces[m..] == tail[m - 1..];
        }
      }
      pieces
  }

  /** A time line always splits into at least a start piece and an end piece. */
  lemma TimeLineSplits(s: string)
    requires IsTimeLine(s)
    ensures |Split(s)| >= 2
  {
    var k :| 0 <= k && k <= |s| - 13 && TimeRangeAt(s, k);
    assert SepAt(s, k + 5);
    var i := FindSep(s, 0);
    assert i <= k + 5;
  }
}

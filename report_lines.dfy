/** What `Row` makes of report lines of known shape: a line laid out as
    `<a>-<b> sec <x> <volume unit> <y> <rate unit>` gives back exactly the numbers and units
    written into it, and an interval padded with more than one space before `sec`, as iperf3
    pads short interval ends, is not recognised at all. */
module ReportLines {
  import opened Wrappers
  import opened ReportScan
  import opened PlotOutput

  /** One report line with its fields separated by single spaces. */
  function ReportLine(a: string, b: string, x: string, xu: string, y: string, yu: string): string {
    a + "-" + b + " sec " + x + " " + xu + " " + y + " " + yu
  }

  /** The number and unit texts a well-formed report line is built from. */
  predicate WellFormed(a: string, b: string, x: string, xu: string, y: string, yu: string) {
    a != [] && b != [] && x != [] && y != []
    && IsNumberText(a) && IsNumberText(b) && IsNumberText(x) && IsNumberText(y)
    && xu in ["MBytes", "GBytes"] && yu in ["Mbits/sec", "Gbits/sec"]
  }

  /** Where each field of a report line sits. */
  predicate LaidOut(s: string, a: string, b: string, x: string, xu: string, y: string, yu: string) {
    var ib := |a| + 1; var ix := ib + |b| + 5; var iu := ix + |x| + 1;
    var iy := iu + |xu| + 1; var iv := iy + |y| + 1;
    |s| == iv + |yu| && s[0..|a|] == a && s[|a|] == '-' && s[ib..ib + |b|] == b
    && s[ib + |b|..ix] == " sec " && s[ix..ix + |x|] == x && s[ix + |x|] == ' '
    && s[iu..iu + |xu|] == xu && s[iu + |xu|] == ' ' && s[iy..iy + |y|] == y
    && s[iy + |y|] == ' ' && s[iv..] == yu
  }

  lemma Layout(a: string, b: string, x: string, xu: string, y: string, yu: string)
    ensures LaidOut(ReportLine(a, b, x, xu, y, yu), a, b, x, xu, y, yu)
  {
  }

  /** The interval search matches at the very start of the line and captures `a` and `b`. */
  lemma IntervalOfLine(a: string, b: string, x: string, xu: string, y: string, yu: string)
    requires WellFormed(a, b, x, xu, y, yu)
    ensures Search(IntervalPattern, ReportLine(a, b, x, xu, y, yu)) == Some(Found(0, Groups(a, b)))
  {
    Layout(a, b, x, xu, y, yu);
    IntervalOfLaidOut(ReportLine(a, b, x, xu, y, yu), a, b, x, xu, y, yu);
  }

  lemma IntervalOfLaidOut(s: string, a: string, b: string, x: string, xu: string, y: string, yu: string)
    requires WellFormed(a, b, x, xu, y, yu) && LaidOut(s, a, b, x, xu, y, yu)
    ensures Search(IntervalPattern, s) == Some(Found(0, Groups(a, b)))
  {
    var ib := |a| + 1;
    var jb := ib + |b|;
    NumberRunOf(s, 0, a);
    NumberRunOf(s, ib, b);
    assert LiteralAt(s, jb, " sec") by { assert s[jb..jb + 4] == s[jb..jb + 5][..4]; }
    MatchAtComplete(IntervalPattern, s, 0, |a|, ib, jb, Groups(a, b));
    SearchFindsFirst(IntervalPattern, s, 0);
  }

  /** A number written at `i` is a run of number characters. */
  lemma NumberRunOf(s: string, i: nat, t: string)
    requires t != [] && IsNumberText(t) && i + |t| <= |s| && s[i..i + |t|] == t
    ensures NumberRun(s, i, i + |t|)
  {
    forall k | i <= k < i + |t| ensures IsNumChar(s[k]) {
      assert s[k] == s[i..i + |t|][k - i];
    }
  }

  /** No match of pattern `p` starts inside the number `t` written at `i`, or at the
      character after it, when `p` cannot go on from that character. */
  lemma NoMatchInNumber(p: Pattern, s: string, i: nat, t: string)
    requires i + |t| < |s| && s[i..i + |t|] == t && IsNumberText(t) && !IsNumChar(s[i + |t|])
    requires p == IntervalPattern ==> s[i + |t|] != '-'
    requires p != IntervalPattern ==> UnitTail(p, s, i + |t|).None?
    ensures forall m :: i <= m <= i + |t| ==> MatchAt(p, s, m).None?
  {
    assert forall k :: i <= k < i + |t| ==> s[k] == t[k - i];
    NoMatchInRun(p, s, i, i + |t|);
  }

  /** ` sec ` is not followed by a unit, and no match starts inside it. */
  lemma NoMatchInSec(p: Pattern, s: string, j: nat)
    requires p != IntervalPattern && j + 5 <= |s| && s[j..j + 5] == " sec "
    ensures UnitTail(p, s, j).None?
    ensures forall m :: j < m < j + 5 ==> MatchAt(p, s, m).None?
  {
    assert forall k :: j <= k < j + 5 ==> s[k] == s[j..j + 5][k - j];
    NotLiteralAt(s, j + 1, Units(p)[0], 0);
    NotLiteralAt(s, j + 1, Units(p)[1], 0);
    NoMatchOutsideNumbers(p, s, j + 1, j + 5);
  }

  /** A volume unit is not a rate unit, and no rate match starts inside it. */
  lemma NoRateInVolumeUnit(s: string, j: nat, xu: string)
    requires xu in ["MBytes", "GBytes"] && j + |xu| + 1 < |s| && s[j] == ' '
    requires s[j + 1..j + 1 + |xu|] == xu && s[j + 1 + |xu|] == ' '
    ensures UnitTail(BandwidthPattern, s, j).None?
    ensures forall m :: j < m <= j + 1 + |xu| ==> MatchAt(BandwidthPattern, s, m).None?
  {
    assert forall k :: j < k <= j + |xu| ==> s[k] == xu[k - j - 1];
    NotLiteralAt(s, j + 1, "Mbits/sec", 1);
    NotLiteralAt(s, j + 1, "Gbits/sec", 1);
    NoMatchOutsideNumbers(BandwidthPattern, s, j + 1, j + 2 + |xu|);
  }

  /** Neither unit pattern matches anywhere in the interval or the `sec` after it. */
  lemma SkipsInterval(p: Pattern, s: string, a: string, b: string, x: string, xu: string, y: string, yu: string)
    requires p != IntervalPattern && WellFormed(a, b, x, xu, y, yu) && LaidOut(s, a, b, x, xu, y, yu)
    ensures forall m :: 0 <= m < |a| + |b| + 6 ==> MatchAt(p, s, m).None?
  {
    var jb := |a| + 1 + |b|;
    assert s[jb..jb + 5] == s[jb..|a| + |b| + 6];
    NoUnitInInterval(p, s, a, b);
  }

  /** `a-b sec ` at the start of `s`: no unit pattern matches before the character after it. */
  lemma NoUnitInInterval(p: Pattern, s: string, a: string, b: string)
    requires p != IntervalPattern && a != [] && b != [] && IsNumberText(a) && IsNumberText(b)
    requires |a| + |b| + 6 <= |s| && s[0..|a|] == a && s[|a|] == '-'
    requires s[|a| + 1..|a| + 1 + |b|] == b && s[|a| + 1 + |b|..|a| + |b| + 6] == " sec "
    ensures forall m :: 0 <= m < |a| + |b| + 6 ==> MatchAt(p, s, m).None?
  {
    var jb := |a| + 1 + |b|;
    NoMatchInNumber(p, s, 0, a);
    NoMatchInSec(p, s, jb);
    assert s[jb] == s[jb..jb + 5][0] == ' ';
    NoMatchInNumber(p, s, |a| + 1, b);
  }

  /** The rate pattern does not match in the volume or its unit. */
  lemma SkipsVolume(s: string, a: string, b: string, x: string, xu: string, y: string, yu: string)
    requires WellFormed(a, b, x, xu, y, yu) && LaidOut(s, a, b, x, xu, y, yu)
    ensures forall m :: |a| + |b| + 6 <= m < |a| + |b| + |x| + |xu| + 8 ==> MatchAt(BandwidthPattern, s, m).None?
  {
    var ix := |a| + |b| + 6;
    NoRateInVolumeUnit(s, ix + |x|, xu);
    NoMatchInNumber(BandwidthPattern, s, ix, x);
  }

  /** The volume search skips the interval and captures `x` and its unit. */
  lemma TransferOfLine(a: string, b: string, x: string, xu: string, y: string, yu: string)
    requires WellFormed(a, b, x, xu, y, yu)
    ensures var ix := |a| + |b| + 6;
      Search(TransferPattern, ReportLine(a, b, x, xu, y, yu)) == Some(Found(ix, Groups(x, xu)))
  {
    Layout(a, b, x, xu, y, yu);
    TransferOfLaidOut(ReportLine(a, b, x, xu, y, yu), a, b, x, xu, y, yu);
  }

  lemma TransferOfLaidOut(s: string, a: string, b: string, x: string, xu: string, y: string, yu: string)
    requires WellFormed(a, b, x, xu, y, yu) && LaidOut(s, a, b, x, xu, y, yu)
    ensures Search(TransferPattern, s) == Some(Found(|a| + |b| + 6, Groups(x, xu)))
  {
    var ix := |a| + |b| + 6;
    var jx := ix + |x|;
    SkipsInterval(TransferPattern, s, a, b, x, xu, y, yu);
    NumberRunOf(s, ix, x);
    MatchAtComplete(TransferPattern, s, ix, jx, jx + 1, jx + 1 + |xu|, Groups(x, xu));
    SearchFindsFirst(TransferPattern, s, ix);
  }

  /** The rate search skips the interval and the volume and captures `y` and its unit. */
  lemma BandwidthOfLine(a: string, b: string, x: string, xu: string, y: string, yu: string)
    requires WellFormed(a, b, x, xu, y, yu)
    ensures var iy := |a| + |b| + |x| + |xu| + 8;
      Search(BandwidthPattern, ReportLine(a, b, x, xu, y, yu)) == Some(Found(iy, Groups(y, yu)))
  {
    Layout(a, b, x, xu, y, yu);
    BandwidthOfLaidOut(ReportLine(a, b, x, xu, y, yu), a, b, x, xu, y, yu);
  }

  lemma BandwidthOfLaidOut(s: string, a: string, b: string, x: string, xu: string, y: string, yu: string)
    requires WellFormed(a, b, x, xu, y, yu) && LaidOut(s, a, b, x, xu, y, yu)
    ensures Search(BandwidthPattern, s) == Some(Found(|a| + |b| + |x| + |xu| + 8, Groups(y, yu)))
  {
    var iy := |a| + |b| + |x| + |xu| + 8;
    var jy := iy + |y|;
    SkipsInterval(BandwidthPattern, s, a, b, x, xu, y, yu);
    SkipsVolume(s, a, b, x, xu, y, yu);
    NumberRunOf(s, iy, y);
    assert s[jy] == ' ' && s[jy + 1..|s|] == yu;
    assert yu in Units(BandwidthPattern);
    MatchAtComplete(BandwidthPattern, s, iy, jy, jy + 1, |s|, Groups(y, yu));
    SearchFindsFirst(BandwidthPattern, s, iy);
  }

  /** The numbers `Row` converts from such a line are the ones written into it, in the order
      volume, interval start, interval end, rate. */
  lemma ReportLineNumbers(a: string, b: string, x: string, xu: string, y: string, yu: string)
    requires WellFormed(a, b, x, xu, y, yu)
    ensures CapturedNumbers(ReportLine(a, b, x, xu, y, yu)) == [x, a, b, y]
  {
    IntervalOfLine(a, b, x, xu, y, yu);
    TransferOfLine(a, b, x, xu, y, yu);
    BandwidthOfLine(a, b, x, xu, y, yu);
  }

  /** A report line whose numbers all convert gives back exactly what was written: each number
      as `float()` reads it, unconverted, next to its unit, and the row is valid. */
  lemma ReportLineRoundTrip(a: string, b: string, x: string, xu: string, y: string, yu: string)
    requires WellFormed(a, b, x, xu, y, yu)
    requires IsFloat(a) && IsFloat(b) && IsFloat(x) && IsFloat(y)
    ensures ParseRow(ReportLine(a, b, x, xu, y, yu))
      == Success(RowValue(ParseFloat(x), Some(xu), ParseFloat(a), ParseFloat(b), ParseFloat(y), Some(yu)))
    ensures ParseRow(ReportLine(a, b, x, xu, y, yu)).value.IsValid()
  {
    IntervalOfLine(a, b, x, xu, y, yu);
    TransferOfLine(a, b, x, xu, y, yu);
    BandwidthOfLine(a, b, x, xu, y, yu);
  }

  /** A report line with a number `float()` rejects raises on the first such number, in the
      order volume, interval start, interval end, rate. */
  lemma ReportLineRaises(a: string, b: string, x: string, xu: string, y: string, yu: string)
    requires WellFormed(a, b, x, xu, y, yu)
    requires !(IsFloat(a) && IsFloat(b) && IsFloat(x) && IsFloat(y))
    ensures ParseRow(ReportLine(a, b, x, xu, y, yu)).Failure?
    ensures FirstNonFloat([x, a, b, y], ParseRow(ReportLine(a, b, x, xu, y, yu)).error.text)
  {
    ReportLineNumbers(a, b, x, xu, y, yu);
    ParseRowRaisesOnFirstBadNumber(ReportLine(a, b, x, xu, y, yu));
    assert !AllFloats([x, a, b, y]) by {
      if !IsFloat(a) { assert [x, a, b, y][1] == a; }
      else if !IsFloat(b) { assert [x, a, b, y][2] == b; }
      else if !IsFloat(x) { assert [x, a, b, y][0] == x; }
      else { assert [x, a, b, y][3] == y; }
    }
  }

  /** A line whose numbers are printed with two decimals, as iperf3 prints interval ends,
      reads back as the hundredths that were printed. */
  lemma TwoDecimalLine(start: nat, end: nat, volume: nat, xu: string, rate: nat, yu: string)
    requires xu in ["MBytes", "GBytes"] && yu in ["Mbits/sec", "Gbits/sec"]
    ensures var line := ReportLine(FormatFixed(start, 2), FormatFixed(end, 2), FormatFixed(volume, 2), xu,
                                   FormatFixed(rate, 2), yu);
      ParseRow(line) == Success(RowValue(Some(volume as real / 100.0), Some(xu), Some(start as real / 100.0),
                                         Some(end as real / 100.0), Some(rate as real / 100.0), Some(yu)))
  {
    var a, b, x, y := FormatFixed(start, 2), FormatFixed(end, 2), FormatFixed(volume, 2), FormatFixed(rate, 2);
    TwoDecimals(start);
    TwoDecimals(end);
    TwoDecimals(volume);
    TwoDecimals(rate);
    ReportLineRoundTrip(a, b, x, xu, y, yu);
  }

  /** iperf3 prints volumes and rates with as many decimals as their size leaves room for
      (`30.1 MBytes`, `252 Mbits/sec`); with any number of decimals per field, the line reads
      back as the values printed. */
  lemma FixedPointLine(start: nat, sa: nat, end: nat, sb: nat, volume: nat, sx: nat, xu: string,
                       rate: nat, sy: nat, yu: string)
    requires xu in ["MBytes", "GBytes"] && yu in ["Mbits/sec", "Gbits/sec"]
    ensures var line := ReportLine(FormatFixed(start, sa), FormatFixed(end, sb), FormatFixed(volume, sx), xu,
                                   FormatFixed(rate, sy), yu);
      ParseRow(line) == Success(RowValue(Some(volume as real / Pow10(sx) as real), Some(xu),
                                         Some(start as real / Pow10(sa) as real), Some(end as real / Pow10(sb) as real),
                                         Some(rate as real / Pow10(sy) as real), Some(yu)))
  {
    var a, b, x, y := FormatFixed(start, sa), FormatFixed(end, sb), FormatFixed(volume, sx), FormatFixed(rate, sy);
    FixedReadsBack(start, sa);
    FixedReadsBack(end, sb);
    FixedReadsBack(volume, sx);
    FixedReadsBack(rate, sy);
    ReportLineRoundTrip(a, b, x, xu, y, yu);
  }

  /** A fixed-point text is a non-empty number `float()` accepts, with the value printed. */
  lemma FixedReadsBack(n: nat, scale: nat)
    ensures var t := FormatFixed(n, scale);
      t != [] && IsFloat(t) && ParseFloat(t) == Some(n as real / Pow10(scale) as real)
  {
    FormatFixedRoundTrip(n, scale);
  }

  /** `%.2f` of `n` hundredths reads back as `n / 100`. */
  lemma TwoDecimals(n: nat)
    ensures var t := FormatFixed(n, 2);
      t != [] && IsFloat(t) && ParseFloat(t) == Some(n as real / 100.0)
  {
    FormatFixedRoundTrip(n, 2);
    HundredthsOf(FormatFixed(n, 2), n);
  }

  /** A text that reads back as `n / 10^2` reads back as `n / 100`. */
  lemma HundredthsOf(t: string, n: nat)
    requires IsNumberText(t) && ParseFloat(t) == Some(n as real / Pow10(2) as real)
    ensures t != [] && IsFloat(t) && ParseFloat(t) == Some(n as real / 100.0)
  {
    assert Pow10(2) == 100;
  }

  /** An interval whose end is followed by two or more spaces before `sec`, as iperf3 pads
      short interval ends, is not recognised; when the rest of the line holds no interval of
      its own, the row is invalid. */
  lemma PaddedIntervalNotRecognised(a: string, b: string, gap: string, rest: string)
    requires a != [] && b != [] && IsNumberText(a) && IsNumberText(b)
    requires |gap| >= 2 && forall k :: 0 <= k < |gap| ==> gap[k] == ' '
    requires Search(IntervalPattern, rest).None?
    ensures Search(IntervalPattern, a + "-" + b + gap + "sec" + rest).None?
    ensures ParseRow(a + "-" + b + gap + "sec" + rest).Success? ==> !ParseRow(a + "-" + b + gap + "sec" + rest).value.IsValid()
  {
    var u := a + "-" + b + gap + "sec";
    NoIntervalBeforeGap(a, b, gap, rest);
    SearchShift(IntervalPattern, u, rest);
    assert u + rest == a + "-" + b + gap + "sec" + rest;
  }

  /** After `<n>-<m>`, a second space where ` sec` needs its `s` ends the interval pattern. */
  lemma GapAfterEnd(s: string, j: nat, l: nat)
    requires j < |s| && s[j] == '-' && NumberRun(s, j + 1, l) && l + 1 < |s| && s[l] == ' ' && s[l + 1] == ' '
    ensures IntervalTail(s, j).None?
  {
    RunEndOfRun(s, j + 1, l);
    NotLiteralAt(s, l, " sec", 1);
  }

  lemma NoIntervalBeforeGap(a: string, b: string, gap: string, rest: string)
    requires a != [] && b != [] && IsNumberText(a) && IsNumberText(b)
    requires |gap| >= 2 && forall k :: 0 <= k < |gap| ==> gap[k] == ' '
    ensures var u := a + "-" + b + gap + "sec";
      forall m :: 0 <= m < |u| ==> MatchAt(IntervalPattern, u + rest, m).None?
  {
    var u := a + "-" + b + gap + "sec";
    var s := u + rest;
    var ib := |a| + 1;
    var jb := ib + |b|;
    assert s[0..|a|] == a && s[|a|] == '-' && s[ib..jb] == b;
    assert s[jb] == ' ' && s[jb + 1] == ' ';
    assert forall k :: jb <= k < |u| ==> !IsNumChar(s[k]);
    NoIntervalInGapped(s, a, b, |u|);
  }

  /** `a-b` followed by two spaces and no further number character before `n`: no interval
      match starts before `n`. */
  lemma NoIntervalInGapped(s: string, a: string, b: string, n: nat)
    requires a != [] && b != [] && IsNumberText(a) && IsNumberText(b)
    requires |a| + |b| + 3 <= n <= |s|
    requires s[0..|a|] == a && s[|a|] == '-' && s[|a| + 1..|a| + 1 + |b|] == b
    requires s[|a| + 1 + |b|] == ' ' && s[|a| + 2 + |b|] == ' '
    requires forall k :: |a| + 1 + |b| <= k < n ==> !IsNumChar(s[k])
    ensures forall m :: 0 <= m < n ==> MatchAt(IntervalPattern, s, m).None?
  {
    var ib := |a| + 1;
    var jb := ib + |b|;
    // from inside `a` the run stops at `-`, then `b`, then a second space where ` sec` must be
    NumberRunOf(s, ib, b);
    GapAfterEnd(s, |a|, jb);
    NumberRunOf(s, 0, a);
    forall m | 0 <= m < |a| ensures MatchAt(IntervalPattern, s, m).None? {
      RunEndOfRun(s, m, |a|);
    }
    NoMatchInNumber(IntervalPattern, s, ib, b);
    NoMatchOutsideNumbers(IntervalPattern, s, jb, n);
  }
}

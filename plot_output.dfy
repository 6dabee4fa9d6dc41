/** plot_output.py: turning the lines of an iperf3 log into rows, and choosing the rows that
    are plotted.

    `ParseRow` is the meaning of constructing a `Row` from one line: three independent
    searches (volume, interval, rate), each of whose captured numbers goes through `float()`,
    which may raise. The `Row` class follows the source's shape: the constructor runs the
    three `_parse_*` methods, which assign the object's attributes one pair at a time.
    `ReadOutput` is what the `read_output_file` generator yields, and `PlotSeries` what
    `plot_congestion` and `plot_bandwidth` hand to the plotting library. */
module PlotOutput {
  import opened Wrappers
  import opened ReportScan

  /** `float()` raised `ValueError` on the captured text. */
  datatype ValueError = ValueError(text: string)

  /** The attributes of a `Row` (its `__dict__`); numbers are kept in their reported unit. */
  datatype RowValue = RowValue(
    transfer: Option<real>, transferUnit: Option<string>,
    intervalStart: Option<real>, intervalEnd: Option<real>,
    bandwidth: Option<real>, bandwidthUnit: Option<string>)
  {
    /** `Row.is_valid`. */
    predicate IsValid() { intervalStart.Some? }
  }

  /** `float(text)`. */
  function Float(text: string): (r: Result<real, ValueError>)
    requires IsNumberText(text)
    ensures r.Success? <==> HasDigit(text) && DotCount(text) <= 1
    ensures r.Failure? ==> r.error.text == text
  {
    match ParseFloat(text)
    case Some(v) => Success(v)
    case None => Failure(ValueError(text))
  }

  /** The number texts a search captured (group 1, and group 2 of the interval). */
  function NumbersOf(p: Pattern, line: string): (nums: seq<string>)
    ensures forall k :: 0 <= k < |nums| ==> IsNumberText(nums[k])
  {
    match Search(p, line)
    case None => []
    case Some(m) => if p == IntervalPattern then [m.groups.first, m.groups.second] else [m.groups.first]
  }

  /** The numbers the three searches capture, in the order `Row.__init__` converts them. */
  function CapturedNumbers(line: string): seq<string> {
    NumbersOf(TransferPattern, line) + NumbersOf(IntervalPattern, line) + NumbersOf(BandwidthPattern, line)
  }

  predicate IsFloat(text: string) { IsNumberText(text) && ParseFloat(text).Some? }

  predicate AllFloats(nums: seq<string>) { forall k :: 0 <= k < |nums| ==> IsFloat(nums[k]) }

  /** `text` is the first of `nums` that `float()` rejects. */
  ghost predicate FirstNonFloat(nums: seq<string>, text: string) {
    exists k :: 0 <= k < |nums| && nums[k] == text && !IsFloat(text) && AllFloats(nums[..k])
  }

  /** A conversion of `nums` in order either succeeds on all of them or raises on the first bad one. */
  ghost predicate ConvertsInOrder<T>(nums: seq<string>, r: Result<T, ValueError>) {
    (r.Success? <==> AllFloats(nums)) && (r.Failure? ==> FirstNonFloat(nums, r.error.text))
  }

  lemma ConvertsInOrderAppend<T, U>(a: seq<string>, b: seq<string>, ra: Result<T, ValueError>, rb: Result<U, ValueError>)
    requires ConvertsInOrder(a, ra) && (ra.Success? ==> ConvertsInOrder(b, rb))
    ensures ConvertsInOrder(a + b, if ra.Failure? then Failure(ra.error) else rb)
  {
    if ra.Failure? {
      FirstBadInHead(a, b, ra.error.text);
    } else {
      AllFloatsAppend(a, b);
      if rb.Failure? {
        FirstBadInTail(a, b, rb.error.text);
      }
    }
  }

  lemma FirstBadInHead(a: seq<string>, b: seq<string>, text: string)
    requires FirstNonFloat(a, text)
    ensures FirstNonFloat(a + b, text) && !AllFloats(a + b)
  {
    var k :| 0 <= k < |a| && a[k] == text && !IsFloat(text) && AllFloats(a[..k]);
    assert (a + b)[k] == a[k] && (a + b)[..k] == a[..k];
  }

  lemma AllFloatsAppend(a: seq<string>, b: seq<string>)
    requires AllFloats(a)
    ensures AllFloats(a + b) <==> AllFloats(b)
  {
    assert forall k :: 0 <= k < |a| ==> (a + b)[k] == a[k];
    assert forall k :: 0 <= k < |b| ==> (a + b)[|a| + k] == b[k];
  }

  lemma FirstBadInTail(a: seq<string>, b: seq<string>, text: string)
    requires AllFloats(a) && FirstNonFloat(b, text)
    ensures FirstNonFloat(a + b, text)
  {
    var k :| 0 <= k < |b| && b[k] == text && !IsFloat(text) && AllFloats(b[..k]);
    AllFloatsAppend(a, b[..k]);
    assert (a + b)[|a| + k] == b[k] && (a + b)[..|a| + k] == a + b[..k];
  }

  /** `_parse_transfer`: the value and unit of the first `<n> MBytes|GBytes`, or `None, None`. */
  function TransferField(line: string): (r: Result<(Option<real>, Option<string>), ValueError>)
    ensures ConvertsInOrder(NumbersOf(TransferPattern, line), r)
    ensures r.Success? ==> (r.value.0.Some? <==> Search(TransferPattern, line).Some?)
    ensures r.Success? ==> (r.value.0.Some? <==> r.value.1.Some?)
    ensures r.Success? && r.value.1.Some? ==> r.value.1.value in ["MBytes", "GBytes"]
  {
    match Search(TransferPattern, line)
    case None => Success((None, None))
    case Some(m) =>
      var nums := NumbersOf(TransferPattern, line);
      assert nums == [m.groups.first];
      match Float(m.groups.first)
      case Failure(e) =>
        assert nums[0] == e.text && nums[..0] == [];
        Failure(e)
      case Success(v) => Success((Some(v), Some(m.groups.second)))
  }

  /** `_parse_interval`: the two numbers of the first `<a>-<b> sec`, or `None, None`; the start
      is converted first. */
  function IntervalField(line: string): (r: Result<(Option<real>, Option<real>), ValueError>)
    ensures ConvertsInOrder(NumbersOf(IntervalPattern, line), r)
    ensures r.Success? ==> (r.value.0.Some? <==> Search(IntervalPattern, line).Some?)
    ensures r.Success? ==> (r.value.0.Some? <==> r.value.1.Some?)
  {
    match Search(IntervalPattern, line)
    case None => Success((None, None))
    case Some(m) =>
      var nums := NumbersOf(IntervalPattern, line);
      assert nums == [m.groups.first, m.groups.second];
      match Float(m.groups.first)
      case Failure(e) =>
        assert nums[0] == e.text && nums[..0] == [];
        Failure(e)
      case Success(a) =>
        match Float(m.groups.second)
        case Failure(e) =>
          assert nums[1] == e.text && nums[..1] == [m.groups.first];
          Failure(e)
        case Success(b) => Success((Some(a), Some(b)))
  }

  /** `_parse_bandwidth`: the value and unit of the first `<n> Mbits/sec|Gbits/sec`, or `None, None`. */
  function BandwidthField(line: string): (r: Result<(Option<real>, Option<string>), ValueError>)
    ensures ConvertsInOrder(NumbersOf(BandwidthPattern, line), r)
    ensures r.Success? ==> (r.value.0.Some? <==> Search(BandwidthPattern, line).Some?)
    ensures r.Success? ==> (r.value.0.Some? <==> r.value.1.Some?)
    ensures r.Success? && r.value.1.Some? ==> r.value.1.value in ["Mbits/sec", "Gbits/sec"]
  {
    match Search(BandwidthPattern, line)
    case None => Success((None, None))
    case Some(m) =>
      var nums := NumbersOf(BandwidthPattern, line);
      assert nums == [m.groups.first];
      match Float(m.groups.first)
      case Failure(e) =>
        assert nums[0] == e.text && nums[..0] == [];
        Failure(e)
      case Success(v) => Success((Some(v), Some(m.groups.second)))
  }

  /** `_parse_transfer` in terms of the regular expression: with no match anywhere both
      attributes are `None`; otherwise group 1 of the leftmost match goes through `float()`,
      which either raises on it or gives the volume, and group 2 is the unit. */
  lemma TransferFieldOfMatch(line: string)
    ensures (forall i: nat, g :: !RegexMatchesAt(TransferPattern, line, i, g)) ==> TransferField(line) == Success((None, None))
    ensures forall i: nat, g :: LeftmostRegexMatch(TransferPattern, line, i, g) ==>
      IsNumberText(g.first) &&
      TransferField(line) == if ParseFloat(g.first).Some? then Success((ParseFloat(g.first), Some(g.second)))
                             else Failure(ValueError(g.first))
  {
    SearchIsLeftmostMatch(TransferPattern, line);
    forall i: nat, g | LeftmostRegexMatch(TransferPattern, line, i, g)
      ensures IsNumberText(g.first) &&
        TransferField(line) == if ParseFloat(g.first).Some? then Success((ParseFloat(g.first), Some(g.second)))
                               else Failure(ValueError(g.first))
    {
      LeftmostIsFound(TransferPattern, line, i, g);
    }
  }

  /** `_parse_interval` in terms of the regular expression: with no match anywhere both
      attributes are `None`; otherwise the two groups of the leftmost match go through
      `float()`, the start first, and the first one rejected is raised. */
  lemma IntervalFieldOfMatch(line: string)
    ensures (forall i: nat, g :: !RegexMatchesAt(IntervalPattern, line, i, g)) ==> IntervalField(line) == Success((None, None))
    ensures forall i: nat, g :: LeftmostRegexMatch(IntervalPattern, line, i, g) ==>
      IsNumberText(g.first) && IsNumberText(g.second) &&
      IntervalField(line) == if ParseFloat(g.first).None? then Failure(ValueError(g.first))
                             else if ParseFloat(g.second).None? then Failure(ValueError(g.second))
                             else Success((ParseFloat(g.first), ParseFloat(g.second)))
  {
    SearchIsLeftmostMatch(IntervalPattern, line);
    forall i: nat, g | LeftmostRegexMatch(IntervalPattern, line, i, g)
      ensures IsNumberText(g.first) && IsNumberText(g.second) &&
        IntervalField(line) == if ParseFloat(g.first).None? then Failure(ValueError(g.first))
                               else if ParseFloat(g.second).None? then Failure(ValueError(g.second))
                               else Success((ParseFloat(g.first), ParseFloat(g.second)))
    {
      LeftmostIsFound(IntervalPattern, line, i, g);
    }
  }

  /** `_parse_bandwidth` in terms of the regular expression, as for the volume. */
  lemma BandwidthFieldOfMatch(line: string)
    ensures (forall i: nat, g :: !RegexMatchesAt(BandwidthPattern, line, i, g)) ==> BandwidthField(line) == Success((None, None))
    ensures forall i: nat, g :: LeftmostRegexMatch(BandwidthPattern, line, i, g) ==>
      IsNumberText(g.first) &&
      BandwidthField(line) == if ParseFloat(g.first).Some? then Success((ParseFloat(g.first), Some(g.second)))
                              else Failure(ValueError(g.first))
  {
    SearchIsLeftmostMatch(BandwidthPattern, line);
    forall i: nat, g | LeftmostRegexMatch(BandwidthPattern, line, i, g)
      ensures IsNumberText(g.first) &&
        BandwidthField(line) == if ParseFloat(g.first).Some? then Success((ParseFloat(g.first), Some(g.second)))
                                else Failure(ValueError(g.first))
    {
      LeftmostIsFound(BandwidthPattern, line, i, g);
    }
  }

  /** `Row(line)`: the row's attributes, or the `ValueError` of the first captured number that
      does not convert. */
  function ParseRow(line: string): (r: Result<RowValue, ValueError>)
    ensures r.Success? ==> (r.value.IsValid() <==> Search(IntervalPattern, line).Some?)
    ensures r.Success? ==> (r.value.intervalStart.Some? <==> r.value.intervalEnd.Some?)
    ensures r.Success? ==> (r.value.transfer.Some? <==> r.value.transferUnit.Some?)
    ensures r.Success? ==> (r.value.bandwidth.Some? <==> r.value.bandwidthUnit.Some?)
    ensures r.Success? && r.value.transferUnit.Some? ==> r.value.transferUnit.value in ["MBytes", "GBytes"]
    ensures r.Success? && r.value.bandwidthUnit.Some? ==> r.value.bandwidthUnit.value in ["Mbits/sec", "Gbits/sec"]
  {
    match TransferField(line)
    case Failure(e) => Failure(e)
    case Success(t) =>
      match IntervalField(line)
      case Failure(e) => Failure(e)
      case Success(i) =>
        match BandwidthField(line)
        case Failure(e) => Failure(e)
        case Success(b) => Success(RowValue(t.0, t.1, i.0, i.1, b.0, b.1))
  }

  /** A row is built exactly when every captured number converts; otherwise the error is the
      one of the first number, in the order volume, interval start, interval end, rate, that
      `float()` rejects. */
  lemma ParseRowRaisesOnFirstBadNumber(line: string)
    ensures ConvertsInOrder(CapturedNumbers(line), ParseRow(line))
  {
    var t, i, b := TransferField(line), IntervalField(line), BandwidthField(line);
    var nt, ni, nb := NumbersOf(TransferPattern, line), NumbersOf(IntervalPattern, line), NumbersOf(BandwidthPattern, line);
    ParseRowOutcome(line);
    ConvertsInOrderThree(nt, ni, nb, t, i, b, ParseRow(line));
  }

  /** The attributes of a built row are what the regular expressions capture: the volume and
      rate with their units come from the leftmost match of their expression, the interval
      ends from the leftmost `<a>-<b> sec`, each number through `float()`; an expression that
      matches nowhere leaves its pair `None`. */
  lemma ParseRowOfMatches(line: string)
    ensures var r := ParseRow(line); r.Success? ==>
      (forall i: nat, g :: LeftmostRegexMatch(TransferPattern, line, i, g) ==>
        IsNumberText(g.first) && r.value.transfer == ParseFloat(g.first) && r.value.transferUnit == Some(g.second))
      && ((forall i: nat, g :: !RegexMatchesAt(TransferPattern, line, i, g)) ==>
        r.value.transfer.None? && r.value.transferUnit.None?)
    ensures var r := ParseRow(line); r.Success? ==>
      (forall i: nat, g :: LeftmostRegexMatch(IntervalPattern, line, i, g) ==>
        IsNumberText(g.first) && IsNumberText(g.second)
        && r.value.intervalStart == ParseFloat(g.first) && r.value.intervalEnd == ParseFloat(g.second))
      && ((forall i: nat, g :: !RegexMatchesAt(IntervalPattern, line, i, g)) ==>
        r.value.intervalStart.None? && r.value.intervalEnd.None?)
    ensures var r := ParseRow(line); r.Success? ==>
      (forall i: nat, g :: LeftmostRegexMatch(BandwidthPattern, line, i, g) ==>
        IsNumberText(g.first) && r.value.bandwidth == ParseFloat(g.first) && r.value.bandwidthUnit == Some(g.second))
      && ((forall i: nat, g :: !RegexMatchesAt(BandwidthPattern, line, i, g)) ==>
        r.value.bandwidth.None? && r.value.bandwidthUnit.None?)
  {
    var r := ParseRow(line);
    ParseRowFields(line);
    TransferOfMatch(line, r);
    IntervalOfMatch(line, r);
    BandwidthOfMatch(line, r);
  }

  /** A built row holds the three pairs its parsers returned. */
  lemma ParseRowFields(line: string)
    ensures var r := ParseRow(line); r.Success? ==>
      TransferField(line) == Success((r.value.transfer, r.value.transferUnit))
      && IntervalField(line) == Success((r.value.intervalStart, r.value.intervalEnd))
      && BandwidthField(line) == Success((r.value.bandwidth, r.value.bandwidthUnit))
  {
  }

  lemma TransferOfMatch(line: string, r: Result<RowValue, ValueError>)
    requires r.Success? ==> TransferField(line) == Success((r.value.transfer, r.value.transferUnit))
    ensures r.Success? ==>
      (forall i: nat, g :: LeftmostRegexMatch(TransferPattern, line, i, g) ==>
        IsNumberText(g.first) && r.value.transfer == ParseFloat(g.first) && r.value.transferUnit == Some(g.second))
      && ((forall i: nat, g :: !RegexMatchesAt(TransferPattern, line, i, g)) ==>
        r.value.transfer.None? && r.value.transferUnit.None?)
  {
    TransferFieldOfMatch(line);
  }

  lemma IntervalOfMatch(line: string, r: Result<RowValue, ValueError>)
    requires r.Success? ==> IntervalField(line) == Success((r.value.intervalStart, r.value.intervalEnd))
    ensures r.Success? ==>
      (forall i: nat, g :: LeftmostRegexMatch(IntervalPattern, line, i, g) ==>
        IsNumberText(g.first) && IsNumberText(g.second)
        && r.value.intervalStart == ParseFloat(g.first) && r.value.intervalEnd == ParseFloat(g.second))
      && ((forall i: nat, g :: !RegexMatchesAt(IntervalPattern, line, i, g)) ==>
        r.value.intervalStart.None? && r.value.intervalEnd.None?)
  {
    IntervalFieldOfMatch(line);
  }

  lemma BandwidthOfMatch(line: string, r: Result<RowValue, ValueError>)
    requires r.Success? ==> BandwidthField(line) == Success((r.value.bandwidth, r.value.bandwidthUnit))
    ensures r.Success? ==>
      (forall i: nat, g :: LeftmostRegexMatch(BandwidthPattern, line, i, g) ==>
        IsNumberText(g.first) && r.value.bandwidth == ParseFloat(g.first) && r.value.bandwidthUnit == Some(g.second))
      && ((forall i: nat, g :: !RegexMatchesAt(BandwidthPattern, line, i, g)) ==>
        r.value.bandwidth.None? && r.value.bandwidthUnit.None?)
  {
    BandwidthFieldOfMatch(line);
  }

  /** Three conversions run one after the other raise on the first bad number of all three. */
  lemma ConvertsInOrderThree<A, B, C, R>(nt: seq<string>, ni: seq<string>, nb: seq<string>,
      t: Result<A, ValueError>, i: Result<B, ValueError>, b: Result<C, ValueError>, r: Result<R, ValueError>)
    requires ConvertsInOrder(nt, t) && ConvertsInOrder(ni, i) && ConvertsInOrder(nb, b)
    requires r.Success? <==> t.Success? && i.Success? && b.Success?
    requires r.Failure? ==> r.error == if t.Failure? then t.error else if i.Failure? then i.error else b.error
    ensures ConvertsInOrder(nt + ni + nb, r)
  {
    var ib := if i.Failure? then Failure(i.error) else b;
    ConvertsInOrderAppend(ni, nb, i, b);
    ConvertsInOrderAppend(nt, ni + nb, t, ib);
    assert nt + ni + nb == nt + (ni + nb);
    var all := if t.Failure? then Failure(t.error) else ib;
    ConvertsInOrderSameOutcome(nt + ni + nb, all, r);
  }

  /** `Row(line)` raises exactly when one of its three parsers does, with the first one's error. */
  lemma ParseRowOutcome(line: string)
    ensures var t, i, b := TransferField(line), IntervalField(line), BandwidthField(line);
      (ParseRow(line).Success? <==> t.Success? && i.Success? && b.Success?)
      && (ParseRow(line).Failure? ==>
            ParseRow(line).error == if t.Failure? then t.error else if i.Failure? then i.error else b.error)
  {
  }

  /** Whether a conversion raises on the first bad number depends only on whether it raised and
      with which error. */
  lemma ConvertsInOrderSameOutcome<T, U>(nums: seq<string>, r: Result<T, ValueError>, r': Result<U, ValueError>)
    requires ConvertsInOrder(nums, r)
    requires (r.Success? <==> r'.Success?) && (r.Failure? ==> r.error == r'.error)
    ensures ConvertsInOrder(nums, r')
  {
  }

  /** One parsed report line, built in place as the source's `Row` is: each `_parse_*` method
      assigns one pair of attributes. */
  class Row {
    var transfer: Option<real>
    var transferUnit: Option<string>
    var intervalStart: Option<real>
    var intervalEnd: Option<real>
    var bandwidth: Option<real>
    var bandwidthUnit: Option<string>

    /** The attributes, as `row.__dict__` gives them. */
    function Value(): RowValue
      reads this
    {
      RowValue(transfer, transferUnit, intervalStart, intervalEnd, bandwidth, bandwidthUnit)
    }

    /** `Row.is_valid`. */
    predicate IsValid()
      reads this
    {
      Value().IsValid()
    }

    /** The fresh object `__init__` receives, before any attribute is assigned. */
    constructor Unset()
      ensures Value() == RowValue(None, None, None, None, None, None)
    {
      transfer, transferUnit := None, None;
      intervalStart, intervalEnd := None, None;
      bandwidth, bandwidthUnit := None, None;
    }

    /** `Row(line)`: the three parsers in the source's order; the first `ValueError` escapes and
        the half-built object is dropped. */
    static method Create(line: string) returns (r: Result<Row, ValueError>)
      ensures r.Success? <==> ParseRow(line).Success?
      ensures r.Success? ==> fresh(r.value) && r.value.Value() == ParseRow(line).value
      ensures r.Failure? ==> r.error == ParseRow(line).error
    {
      var row := new Row.Unset();
      var error := row.ParseTransfer(line);
      if error.Some? {
        return Failure(error.value);
      }
      error := row.ParseInterval(line);
      if error.Some? {
        return Failure(error.value);
      }
      error := row.ParseBandwidth(line);
      if error.Some? {
        return Failure(error.value);
      }
      return Success(row);
    }

    /** `_parse_transfer`. */
    method ParseTransfer(line: string) returns (error: Option<ValueError>)
      modifies this
      ensures TransferField(line).Failure? ==> error == Some(TransferField(line).error) && Value() == old(Value())
      ensures TransferField(line).Success? ==>
        error.None? && Value() == old(Value()).(transfer := TransferField(line).value.0, transferUnit := TransferField(line).value.1)
    {
      var m := Search(TransferPattern, line);
      if m.None? {
        transfer, transferUnit := None, None;
        return None;
      }
      var v := Float(m.value.groups.first);
      if v.Failure? {
        return Some(v.error);
      }
      transfer := Some(v.value);
      transferUnit := Some(m.value.groups.second);
      return None;
    }

    /** `_parse_interval`. */
    method ParseInterval(line: string) returns (error: Option<ValueError>)
      modifies this
      ensures IntervalField(line).Failure? ==>
        error == Some(IntervalField(line).error) && Value().(intervalStart := old(intervalStart)) == old(Value())
      // A bad end leaves the start assigned; a bad start assigns nothing.
      ensures IntervalField(line).Failure? ==> Search(IntervalPattern, line).Some?
      ensures IntervalField(line).Failure? ==>
        var start := Search(IntervalPattern, line).value.groups.first;
        intervalStart == if ParseFloat(start).Some? then ParseFloat(start) else old(intervalStart)
      ensures IntervalField(line).Success? ==>
        error.None? && Value() == old(Value()).(intervalStart := IntervalField(line).value.0, intervalEnd := IntervalField(line).value.1)
    {
      var m := Search(IntervalPattern, line);
      if m.None? {
        intervalStart, intervalEnd := None, None;
        return None;
      }
      var a := Float(m.value.groups.first);
      if a.Failure? {
        return Some(a.error);
      }
      intervalStart := Some(a.value);
      var b := Float(m.value.groups.second);
      if b.Failure? {
        return Some(b.error);
      }
      intervalEnd := Some(b.value);
      return None;
    }

    /** `_parse_bandwidth`. */
    method ParseBandwidth(line: string) returns (error: Option<ValueError>)
      modifies this
      ensures BandwidthField(line).Failure? ==> error == Some(BandwidthField(line).error) && Value() == old(Value())
      ensures BandwidthField(line).Success? ==>
        error.None? && Value() == old(Value()).(bandwidth := BandwidthField(line).value.0, bandwidthUnit := BandwidthField(line).value.1)
    {
      var m := Search(BandwidthPattern, line);
      if m.None? {
        bandwidth, bandwidthUnit := None, None;
        return None;
      }
      var v := Float(m.value.groups.first);
      if v.Failure? {
        return Some(v.error);
      }
      bandwidth := Some(v.value);
      bandwidthUnit := Some(m.value.groups.second);
      return None;
    }
  }

  /** The attributes of a sequence of rows. */
  function Values(rows: seq<Row>): (vs: seq<RowValue>)
    reads rows
    ensures |vs| == |rows| && forall k :: 0 <= k < |rows| ==> vs[k] == rows[k].Value()
  {
    if rows == [] then [] else Values(rows[..|rows| - 1]) + [rows[|rows| - 1].Value()]
  }

  /** The rows `read_output_file` yields before it stops, and the error it stops with. */
  datatype ReadResult = ReadResult(rows: seq<RowValue>, error: Option<ValueError>)

  /** The outcome of `Row(line)` for each line, in file order. */
  function ParseLines(lines: seq<string>): (rs: seq<Result<RowValue, ValueError>>)
    ensures |rs| == |lines| && forall k {:trigger ParseRow(lines[k])} :: 0 <= k < |lines| ==> rs[k] == ParseRow(lines[k])
  {
    seq(|lines|, k requires 0 <= k < |lines| => ParseRow(lines[k]))
  }

  /** What the generator has produced once it has been through the lines whose `Row(line)`
      outcomes are `results`: the valid rows, in order, and the error that ended it, if one
      did. No line after an error is looked at. */
  function Collect(results: seq<Result<RowValue, ValueError>>): (r: ReadResult)
    ensures forall k :: 0 <= k < |r.rows| ==> r.rows[k].IsValid()
    ensures |r.rows| <= |results|
  {
    if results == [] then ReadResult([], None)
    else
      var prev := Collect(results[..|results| - 1]);
      if prev.error.Some? then prev
      else match results[|results| - 1]
        case Failure(e) => ReadResult(prev.rows, Some(e))
        case Success(v) => ReadResult(prev.rows + (if v.IsValid() then [v] else []), None)
  }

  /** Going through line `i`: after an error nothing changes; otherwise its row is added when
      valid, or its error ends the iteration. */
  lemma CollectStep(results: seq<Result<RowValue, ValueError>>, i: nat)
    requires i < |results|
    ensures var prev := Collect(results[..i]);
      Collect(results[..i + 1]) ==
        if prev.error.Some? then prev
        else match results[i]
          case Failure(e) => ReadResult(prev.rows, Some(e))
          case Success(v) => ReadResult(prev.rows + (if v.IsValid() then [v] else []), None)
  {
    assert results[..i + 1][..i] == results[..i];
  }

  /** A line that makes a `Row` before any error: the row is added when it is valid. */
  lemma CollectGoesOn(results: seq<Result<RowValue, ValueError>>, i: nat)
    requires i < |results| && Collect(results[..i]).error.None? && results[i].Success?
    ensures Collect(results[..i + 1]) == ReadResult(
      Collect(results[..i]).rows + (if results[i].value.IsValid() then [results[i].value] else []), None)
  {
    CollectStep(results, i);
  }

  /** A line whose `Row` raises before any error ends the iteration with that error. */
  lemma CollectFails(results: seq<Result<RowValue, ValueError>>, i: nat)
    requires i < |results| && Collect(results[..i]).error.None? && results[i].Failure?
    ensures Collect(results) == ReadResult(Collect(results[..i]).rows, Some(results[i].error))
  {
    CollectStep(results, i);
    CollectSticks(results, i + 1);
  }

  /** Once an error has ended the iteration, the remaining lines change nothing. */
  lemma {:induction false} CollectSticks(results: seq<Result<RowValue, ValueError>>, n: nat)
    requires n <= |results| && Collect(results[..n]).error.Some?
    ensures Collect(results) == Collect(results[..n])
    decreases |results|
  {
    if n < |results| {
      var init := results[..|results| - 1];
      assert init[..n] == results[..n];
      CollectSticks(init, n);
    } else {
      assert results[..n] == results;
    }
  }

  /** Every row yielded is the outcome of one of the lines. */
  lemma {:induction false} CollectRowsAreResults(results: seq<Result<RowValue, ValueError>>)
    ensures forall k :: 0 <= k < |Collect(results).rows| ==>
      exists j :: 0 <= j < |results| && results[j] == Success(Collect(results).rows[k])
    decreases |results|
  {
    if results != [] {
      var n := |results| - 1;
      var init := results[..n];
      CollectRowsAreResults(init);
      var prev := Collect(init).rows;
      var rows := Collect(results).rows;
      assert rows == prev || (results[n].Success? && rows == prev + [results[n].value]);
      forall k | 0 <= k < |rows| ensures exists j :: 0 <= j < |results| && results[j] == Success(rows[k]) {
        if k < |prev| {
          assert rows[k] == prev[k];
          var j :| 0 <= j < |init| && init[j] == Success(prev[k]);
          assert results[j] == init[j];
        } else {
          assert results[n] == Success(rows[k]);
        }
      }
    } else {
      assert Collect(results).rows == [];
    }
  }

  /** What iterating `read_output_file` over the lines of a file gives: the valid rows, in
      file order, up to the first line whose `Row` raises, and then that error. */
  function ReadOutput(lines: seq<string>): (r: ReadResult)
    ensures forall k :: 0 <= k < |r.rows| ==> r.rows[k].IsValid() && r.rows[k].intervalEnd.Some?
    ensures |r.rows| <= |lines|
  {
    ParsedRowsAreComplete(lines);
    Collect(ParseLines(lines))
  }

  lemma ParsedRowsAreComplete(lines: seq<string>)
    ensures forall k :: 0 <= k < |Collect(ParseLines(lines)).rows| ==> Collect(ParseLines(lines)).rows[k].intervalEnd.Some?
  {
    var results := ParseLines(lines);
    var r := Collect(results);
    CollectRowsAreResults(results);
    forall k | 0 <= k < |r.rows| ensures r.rows[k].intervalEnd.Some? {
      var j :| 0 <= j < |results| && results[j] == Success(r.rows[k]);
    }
  }

  /** Reading ends without an error exactly when every line makes a `Row`. */
  lemma {:induction false} CollectErrorFree(results: seq<Result<RowValue, ValueError>>)
    ensures Collect(results).error.None? <==> forall k :: 0 <= k < |results| ==> results[k].Success?
    decreases |results|
  {
    if results != [] {
      var init := results[..|results| - 1];
      CollectErrorFree(init);
      assert forall k :: 0 <= k < |init| ==> init[k] == results[k];
    }
  }

  lemma ReadOutputErrorFree(lines: seq<string>)
    ensures ReadOutput(lines).error.None? <==> forall k :: 0 <= k < |lines| ==> ParseRow(lines[k]).Success?
  {
    CollectErrorFree(ParseLines(lines));
  }

  lemma ValuesSnoc(rows: seq<Row>, row: Row)
    ensures Values(rows + [row]) == Values(rows) + [row.Value()]
  {
    assert (rows + [row])[..|rows|] == rows;
  }

  /** `read_output_file(file_name)` over the file's lines: a `Row` per line, the valid ones
      kept. A `ValueError` ends the iteration; the rows yielded before it are returned with it. */
  method ReadOutputFile(lines: seq<string>) returns (rows: seq<Row>, error: Option<ValueError>)
    ensures Values(rows) == ReadOutput(lines).rows && error == ReadOutput(lines).error
  {
    ghost var results := LineOutcomes(lines);
    rows := [];
    var i := 0;
    while i < |lines|
      invariant 0 <= i <= |lines|
      invariant Values(rows) == Collect(results[..i]).rows && Collect(results[..i]).error.None?
    {
      var raised;
      rows, raised := ReadLine(results, lines, i, rows);
      if raised.Some? {
        return rows, raised;
      }
      i := i + 1;
    }
    assert results[..i] == results;
    error := None;
  }

  /** `results[k]` is the outcome of `Row(lines[k])`. */
  ghost predicate Outcomes(lines: seq<string>, results: seq<Result<RowValue, ValueError>>) {
    |results| == |lines| && forall k {:trigger ParseRow(lines[k])} :: 0 <= k < |lines| ==> results[k] == ParseRow(lines[k])
  }

  /** The outcomes of the lines, and what collecting them gives. */
  lemma LineOutcomes(lines: seq<string>) returns (results: seq<Result<RowValue, ValueError>>)
    ensures Outcomes(lines, results) && Collect(results) == ReadOutput(lines)
  {
    results := ParseLines(lines);
  }

  /** One turn of the generator's loop: `Row(lines[i])` is built and yielded when valid, or its
      `ValueError` ends the iteration. */
  method ReadLine(ghost results: seq<Result<RowValue, ValueError>>, lines: seq<string>, i: nat, rows: seq<Row>)
    returns (rows': seq<Row>, error: Option<ValueError>)
    requires Outcomes(lines, results) && i < |lines|
    requires Values(rows) == Collect(results[..i]).rows && Collect(results[..i]).error.None?
    ensures error.None? ==> Values(rows') == Collect(results[..i + 1]).rows && Collect(results[..i + 1]).error.None?
    ensures error.Some? ==> Values(rows') == Collect(results).rows && error == Collect(results).error
  {
    ghost var before := Values(rows);
    var row := Row.Create(lines[i]);
    assert Values(rows) == before;
    if row.Failure? {
      CollectFails(results, i);
      return rows, Some(row.error);
    }
    assert results[i] == Success(row.value.Value());
    CollectGoesOn(results, i);
    rows' := rows;
    if row.value.IsValid() {
      ValuesSnoc(rows, row.value);
      rows' := rows + [row.value];
    }
    error := None;
  }

  /** `rows` are exactly the valid rows among `results`, in their order: `idx` says which
      outcome each came from. */
  ghost predicate PicksValid(results: seq<Result<RowValue, ValueError>>, rows: seq<RowValue>, idx: seq<nat>) {
    |idx| == |rows|
    && (forall j :: 0 <= j < |idx| ==> idx[j] < |results| && results[idx[j]] == Success(rows[j]) && rows[j].IsValid())
    && (forall j :: 0 < j < |idx| ==> idx[j - 1] < idx[j])
    && (forall k :: 0 <= k < |results| && results[k].Success? && results[k].value.IsValid() ==> k in idx)
  }

  /** A last row that is not valid is passed over. */
  lemma PicksValidPass(results: seq<Result<RowValue, ValueError>>, rows: seq<RowValue>, idx: seq<nat>)
    requires results != [] && PicksValid(results[..|results| - 1], rows, idx)
    requires results[|results| - 1].Success? && !results[|results| - 1].value.IsValid()
    ensures PicksValid(results, rows, idx)
  {
    var init := results[..|results| - 1];
    forall j | 0 <= j < |idx| ensures idx[j] < |results| && results[idx[j]] == Success(rows[j]) && rows[j].IsValid() {
      assert results[idx[j]] == init[idx[j]];
    }
    forall k | 0 <= k < |results| && results[k].Success? && results[k].value.IsValid() ensures k in idx {
      assert k < |init| && init[k] == results[k];
    }
  }

  /** A last row that is valid is picked last, from the last line. */
  lemma PicksValidAppend(results: seq<Result<RowValue, ValueError>>, rows: seq<RowValue>, idx: seq<nat>)
    requires results != [] && PicksValid(results[..|results| - 1], rows, idx)
    requires results[|results| - 1].Success? && results[|results| - 1].value.IsValid()
    ensures PicksValid(results, rows + [results[|results| - 1].value], idx + [|results| - 1])
  {
    var n := |results| - 1;
    PickedFromResults(results, rows, idx);
    PickedInOrder(idx, n);
    PickedAll(results, idx);
  }

  lemma PickedFromResults(results: seq<Result<RowValue, ValueError>>, rows: seq<RowValue>, idx: seq<nat>)
    requires results != [] && |idx| == |rows|
    requires forall j :: 0 <= j < |idx| ==> idx[j] < |results| - 1 && results[idx[j]] == Success(rows[j]) && rows[j].IsValid()
    requires results[|results| - 1].Success? && results[|results| - 1].value.IsValid()
    ensures var rows', idx' := rows + [results[|results| - 1].value], idx + [|results| - 1];
      forall j :: 0 <= j < |idx'| ==> idx'[j] < |results| && results[idx'[j]] == Success(rows'[j]) && rows'[j].IsValid()
  {
    var rows', idx' := rows + [results[|results| - 1].value], idx + [|results| - 1];
    forall j | 0 <= j < |idx'|
      ensures idx'[j] < |results| && results[idx'[j]] == Success(rows'[j]) && rows'[j].IsValid()
    {
      if j < |idx| {
        assert idx'[j] == idx[j] && rows'[j] == rows[j];
      }
    }
  }

  lemma PickedInOrder(idx: seq<nat>, n: nat)
    requires forall j :: 0 <= j < |idx| ==> idx[j] < n
    requires forall j :: 0 < j < |idx| ==> idx[j - 1] < idx[j]
    ensures forall j :: 0 < j < |idx + [n]| ==> (idx + [n])[j - 1] < (idx + [n])[j]
  {
    var idx' := idx + [n];
    forall j | 0 < j < |idx'| ensures idx'[j - 1] < idx'[j] {
      assert idx'[j - 1] == idx[j - 1];
      if j < |idx| {
        assert idx'[j] == idx[j];
      }
    }
  }

  lemma PickedAll(results: seq<Result<RowValue, ValueError>>, idx: seq<nat>)
    requires results != []
    requires var init := results[..|results| - 1];
      forall k :: 0 <= k < |init| && init[k].Success? && init[k].value.IsValid() ==> k in idx
    ensures forall k :: 0 <= k < |results| && results[k].Success? && results[k].value.IsValid() ==> k in idx + [|results| - 1]
  {
    var n := |results| - 1;
    var init := results[..n];
    forall k | 0 <= k < |results| && results[k].Success? && results[k].value.IsValid() ensures k in idx + [n] {
      if k < n {
        assert init[k] == results[k];
      }
    }
  }

  /** With no error, the generator yields exactly the valid rows, in input order. */
  lemma {:induction false} CollectPicksValid(results: seq<Result<RowValue, ValueError>>)
    requires forall k :: 0 <= k < |results| ==> results[k].Success?
    ensures exists idx :: PicksValid(results, Collect(results).rows, idx)
    decreases |results|
  {
    if results == [] {
      assert Collect(results).rows == [];
      assert PicksValid(results, [], []);
    } else {
      var n := |results| - 1;
      var init := results[..n];
      assert forall k :: 0 <= k < n ==> init[k] == results[k];
      CollectPicksValid(init);
      CollectErrorFree(init);
      var prev := Collect(init).rows;
      var idx :| PicksValid(init, prev, idx);
      var v := results[n].value;
      if v.IsValid() {
        PicksValidAppend(results, prev, idx);
        assert Collect(results).rows == prev + [v];
      } else {
        PicksValidPass(results, prev, idx);
        assert Collect(results).rows == prev;
      }
    }
  }

  /** `read_output_file` over lines that all make a `Row` yields exactly the valid rows, in
      file order: row `j` is the row of line `idx[j]`. */
  lemma ReadOutputPicksValidRows(lines: seq<string>)
    requires forall k :: 0 <= k < |lines| ==> ParseRow(lines[k]).Success?
    ensures ReadOutput(lines).error.None?
    ensures exists idx :: PicksValid(ParseLines(lines), ReadOutput(lines).rows, idx)
  {
    ReadOutputErrorFree(lines);
    CollectPicksValid(ParseLines(lines));
  }

  /** Collecting up to the first error is collecting the outcomes before it, then that error. */
  lemma CollectStopsAtFirstError(results: seq<Result<RowValue, ValueError>>, k: nat)
    requires k < |results| && results[k].Failure?
    requires forall j :: 0 <= j < k ==> results[j].Success?
    ensures Collect(results) == ReadResult(Collect(results[..k]).rows, Some(results[k].error))
  {
    CollectErrorFree(results[..k]);
    CollectStep(results, k);
    CollectSticks(results, k + 1);
  }

  /** A line whose `Row` raises ends the iteration: the rows yielded are those of the lines
      before it, and the error is its error. */
  lemma ReadOutputStopsAtFirstError(lines: seq<string>, k: nat)
    requires k < |lines| && ParseRow(lines[k]).Failure?
    requires forall j :: 0 <= j < k ==> ParseRow(lines[j]).Success?
    ensures ReadOutput(lines) == ReadResult(ReadOutput(lines[..k]).rows, Some(ParseRow(lines[k]).error))
    ensures ReadOutput(lines[..k]).error.None?
  {
    var results := ParseLines(lines);
    CollectStopsAtFirstError(results, k);
    assert results[..k] == ParseLines(lines[..k]);
    ReadOutputErrorFree(lines[..k]);
  }

  // ---------------------------------------------------------------------------------------
  // plot_congestion and plot_bandwidth

  /** The column each plot draws against `interval_end`. */
  datatype Metric = CongestionWindow | Bandwidth

  /** The two ways a plot function fails before drawing: a `ValueError` out of the generator,
      or `data[0]` on an empty list while building the axis label. */
  datatype PlotError = ReadError(cause: ValueError) | IndexError

  /** One plotted point; a missing value is a gap in the line. */
  datatype Point = Point(time: real, value: Option<real>)

  /** What reaches the plotting library: the unit in the y-axis label and the points. */
  datatype Chart = Chart(unit: Option<string>, points: seq<Point>)

  /** The list slice `[:-1]`. */
  function DropLast<T>(s: seq<T>): (r: seq<T>)
    ensures s == [] ==> r == []
    ensures s != [] ==> r + [s[|s| - 1]] == s
  {
    if s == [] then [] else s[..|s| - 1]
  }

  function PointOf(row: RowValue, metric: Metric): Point
    requires row.intervalEnd.Some?
  {
    Point(row.intervalEnd.value, if metric == CongestionWindow then row.transfer else row.bandwidth)
  }

  function UnitOf(row: RowValue, metric: Metric): Option<string> {
    if metric == CongestionWindow then row.transferUnit else row.bandwidthUnit
  }

  /** `plot_congestion(file)` (for `CongestionWindow`) and `plot_bandwidth(file)` (for
      `Bandwidth`) up to the call into the plotting library: all rows are read first, the last
      one is dropped, and the label takes its unit from the first remaining row. */
  function PlotSeries(lines: seq<string>, metric: Metric): (r: Result<Chart, PlotError>)
    ensures r.Failure? && r.error.ReadError? <==> ReadOutput(lines).error.Some?
    ensures r.Failure? && r.error.ReadError? ==> r.error.cause == ReadOutput(lines).error.value
    ensures r == Failure(IndexError) <==> ReadOutput(lines).error.None? && |ReadOutput(lines).rows| <= 1
    ensures r.Success? ==>
      var rows := ReadOutput(lines).rows;
      |rows| >= 2 && r.value.unit == UnitOf(rows[0], metric) && |r.value.points| == |rows| - 1
      && forall j :: 0 <= j < |r.value.points| ==> r.value.points[j] == PointOf(rows[j], metric)
  {
    var read := ReadOutput(lines);
    if read.error.Some? then Failure(ReadError(read.error.value))
    else
      var data := DropLast(read.rows);
      if data == [] then Failure(IndexError)
      else Success(Chart(UnitOf(data[0], metric), seq(|data|, j requires 0 <= j < |data| => PointOf(data[j], metric))))
  }

  /** The last valid row is never plotted: the plotted points followed by the last row's point
      are the points of all the rows the file yields. */
  lemma PlotDropsLastRow(lines: seq<string>, metric: Metric)
    requires PlotSeries(lines, metric).Success?
    ensures var rows := ReadOutput(lines).rows;
      PlotSeries(lines, metric).value.points + [PointOf(rows[|rows| - 1], metric)]
      == seq(|rows|, j requires 0 <= j < |rows| => PointOf(rows[j], metric))
  {
  }
}

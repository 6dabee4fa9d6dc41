/** The text scanning behind plot_output.py: the three `re.search` patterns that pick an
    interval, a transferred volume and a rate out of one iperf3 report line, and Python's
    `float()` applied to the number a pattern captured.

    A pattern is scanned the way Python's backtracking engine does it: `re.search` tries the
    start positions from left to right and reports the first one where the pattern matches.
    `MatchAt` is the deterministic scanner for one start position; `MatchesWith` is the
    declarative reading of the regular expression (any way of splitting the text that the
    pattern admits), and the two are proved to agree, including that a match, when there is
    one, is unique. Numbers are kept as written; `ParseFloat` gives their exact value. */
module ReportScan {
  import opened Wrappers

  /** `[0-9\.]`, the character class of every number group. */
  predicate IsNumChar(c: char) { '0' <= c <= '9' || c == '.' }

  predicate IsDigit(c: char) { '0' <= c <= '9' }

  /** A text `[0-9\.]*` could capture. */
  predicate IsNumberText(t: string) { forall k :: 0 <= k < |t| ==> IsNumChar(t[k]) }

  /** `\s` in a `str` pattern: the characters for which Python's `str.isspace()` holds. */
  predicate IsSpace(c: char) {
    c == ' ' || '\t' <= c <= '\r' || '\U{1C}' <= c <= '\U{1F}' || c == '\U{85}' || c == '\U{A0}'
    || c == '\U{1680}' || '\U{2000}' <= c <= '\U{200A}' || c == '\U{2028}' || c == '\U{2029}'
    || c == '\U{202F}' || c == '\U{205F}' || c == '\U{3000}'
  }

  /** The three patterns of plot_output.py. */
  datatype Pattern =
    | TransferPattern   // ([0-9\.]+) ([MG]Bytes)
    | IntervalPattern   // ([0-9\.]+)-\s?([0-9\.]+) sec
    | BandwidthPattern  // ([0-9\.]+) ([MG]bits/sec)

  /** The two capture groups of a match: `m.group(1)` and `m.group(2)`. */
  datatype Groups = Groups(first: string, second: string)

  /** A successful search: where the match starts and what it captured. */
  datatype Found = Found(pos: nat, groups: Groups)

  /** The words `[MG]Bytes` and `[MG]bits/sec` can stand for. */
  function Units(p: Pattern): seq<string>
    requires p != IntervalPattern
  {
    if p == TransferPattern then ["MBytes", "GBytes"] else ["Mbits/sec", "Gbits/sec"]
  }

  predicate LiteralAt(s: string, i: nat, lit: string) {
    i + |lit| <= |s| && s[i..i + |lit|] == lit
  }

  /** One differing character rules a literal out. */
  lemma NotLiteralAt(s: string, i: nat, lit: string, k: nat)
    requires k < |lit| && i + k < |s| && s[i + k] != lit[k]
    ensures !LiteralAt(s, i, lit)
  {
  }

  /** The end of the longest run of `[0-9\.]` that starts at `i` (greedy `[0-9\.]+`). */
  function RunEnd(s: string, i: nat): (j: nat)
    requires i <= |s|
    ensures i <= j <= |s|
    ensures forall k :: i <= k < j ==> IsNumChar(s[k])
    ensures j == |s| || !IsNumChar(s[j])
    decreases |s| - i
  {
    if i < |s| && IsNumChar(s[i]) then RunEnd(s, i + 1) else i
  }

  /** The unit word of `p` that occurs at position `i`, if any. */
  function UnitAt(p: Pattern, s: string, i: nat): (u: Option<string>)
    requires p != IntervalPattern
    ensures u.Some? ==> u.value in Units(p) && LiteralAt(s, i, u.value)
    ensures u.None? ==> forall w :: w in Units(p) ==> !LiteralAt(s, i, w)
  {
    var units := Units(p);
    if LiteralAt(s, i, units[0]) then Some(units[0])
    else if LiteralAt(s, i, units[1]) then Some(units[1])
    else None
  }

  /** What `-\s?([0-9\.]+) sec` captures when the engine reaches position `j`. */
  function IntervalTail(s: string, j: nat): (b: Option<string>)
    requires j < |s|
    ensures b.Some? ==> b.value != [] && IsNumberText(b.value)
  {
    if s[j] != '-' then None
    else SecondNumber(s, if j + 1 < |s| && IsSpace(s[j + 1]) then j + 2 else j + 1)
  }

  /** What `([0-9\.]+) sec` captures from position `k`. */
  function SecondNumber(s: string, k: nat): (b: Option<string>)
    requires k <= |s|
    ensures b.Some? ==> b.value != [] && IsNumberText(b.value)
  {
    var l := RunEnd(s, k);
    if k < l && LiteralAt(s, l, " sec") then Some(s[k..l]) else None
  }

  /** What ` ([MG]Bytes)` or ` ([MG]bits/sec)` captures when the engine reaches position `j`. */
  function UnitTail(p: Pattern, s: string, j: nat): (u: Option<string>)
    requires p != IntervalPattern && j < |s|
    ensures u.Some? ==> u.value in Units(p)
  {
    if s[j] != ' ' then None else UnitAt(p, s, j + 1)
  }

  /** The scanner: whether pattern `p` matches when the engine starts at position `i`, and the
      groups it captures. The greedy number group can only give back characters that are
      themselves `[0-9\.]`, and the character after each group (`' '` or `'-'`) is not, so the
      group is the whole run; `\s?` first tries to take one whitespace character. */
  function MatchAt(p: Pattern, s: string, i: nat): (r: Option<Groups>)
    requires i <= |s|
    ensures r.Some? ==> r.value.first != [] && IsNumberText(r.value.first)
    ensures r.Some? && p == IntervalPattern ==> r.value.second != [] && IsNumberText(r.value.second)
    ensures r.Some? && p != IntervalPattern ==> r.value.second in Units(p)
  {
    var j := RunEnd(s, i);
    if i == j || j == |s| then None
    else match p
      case IntervalPattern =>
        (match IntervalTail(s, j)
         case Some(b) => Some(Groups(s[i..j], b))
         case None => None)
      case _ =>
        match UnitTail(p, s, j)
        case Some(u) => Some(Groups(s[i..j], u))
        case None => None
  }

  predicate NumberRun(s: string, i: nat, j: nat) {
    i < j <= |s| && forall k :: i <= k < j ==> IsNumChar(s[k])
  }

  /** The regular expression of `p` read declaratively: it matches `s` from position `i` with
      group 1 = `s[i..j]` and group 2 = `s[k..l]`. Nothing here says "longest" or "first". */
  predicate MatchesWith(p: Pattern, s: string, i: nat, j: nat, k: nat, l: nat, g: Groups) {
    NumberRun(s, i, j) && j < |s| && g.first == s[i..j] &&
    match p
    case IntervalPattern =>
      s[j] == '-' && (k == j + 1 || (k == j + 2 && j + 1 < |s| && IsSpace(s[j + 1])))
      && NumberRun(s, k, l) && LiteralAt(s, l, " sec") && g.second == s[k..l]
    case _ =>
      s[j] == ' ' && k == j + 1 && k <= l <= |s| && s[k..l] in Units(p) && g.second == s[k..l]
  }

  /** A run of number characters ending before a non-number character is what the greedy
      group takes, from wherever inside the run it starts. */
  lemma {:induction false} RunEndOfRun(s: string, i: nat, j: nat)
    requires i <= j <= |s|
    requires forall k :: i <= k < j ==> IsNumChar(s[k])
    requires j == |s| || !IsNumChar(s[j])
    ensures RunEnd(s, i) == j
    decreases j - i
  {
    if i < j {
      RunEndOfRun(s, i + 1, j);
    }
  }

  /** Every way the regular expression can match at `i` yields the groups the scanner returns:
      a match at a given position is unique, so backtracking order cannot change the result. */
  lemma MatchAtComplete(p: Pattern, s: string, i: nat, j: nat, k: nat, l: nat, g: Groups)
    requires MatchesWith(p, s, i, j, k, l, g)
    ensures MatchAt(p, s, i) == Some(g)
  {
    RunEndOfRun(s, i, j);
    if p == IntervalPattern {
      IntervalTailComplete(s, j, k, l);
    } else {
      UnitTailComplete(p, s, j, l);
    }
  }

  lemma IntervalTailComplete(s: string, j: nat, k: nat, l: nat)
    requires j < |s| && s[j] == '-' && (k == j + 1 || (k == j + 2 && j + 1 < |s| && IsSpace(s[j + 1])))
    requires NumberRun(s, k, l) && LiteralAt(s, l, " sec")
    ensures IntervalTail(s, j) == Some(s[k..l])
  {
    assert !IsNumChar(s[l]) by { assert s[l] == s[l..l + 4][0]; }
    RunEndOfRun(s, k, l);
    if k == j + 1 && j + 1 < |s| {
      assert !IsSpace(s[j + 1]) by { assert IsNumChar(s[k]); }
    }
  }

  lemma UnitTailComplete(p: Pattern, s: string, j: nat, l: nat)
    requires p != IntervalPattern && j < |s| && s[j] == ' ' && j + 1 <= l <= |s| && s[j + 1..l] in Units(p)
    ensures UnitTail(p, s, j) == Some(s[j + 1..l])
  {
    assert LiteralAt(s, j + 1, s[j + 1..l]);
  }

  /** What the scanner returns is a match of the regular expression. */
  lemma MatchAtSound(p: Pattern, s: string, i: nat)
    requires i <= |s| && MatchAt(p, s, i).Some?
    ensures exists j, k, l :: MatchesWith(p, s, i, j, k, l, MatchAt(p, s, i).value)
  {
    var j, k, l := MatchAtWitness(p, s, i);
  }

  lemma MatchAtWitness(p: Pattern, s: string, i: nat) returns (j: nat, k: nat, l: nat)
    requires i <= |s| && MatchAt(p, s, i).Some?
    ensures MatchesWith(p, s, i, j, k, l, MatchAt(p, s, i).value)
  {
    j := RunEnd(s, i);
    var g := MatchAt(p, s, i).value;
    assert NumberRun(s, i, j) && j < |s| && g.first == s[i..j];
    if p == IntervalPattern {
      k, l := IntervalTailSound(s, j);
    } else {
      k, l := UnitTailSound(p, s, j);
    }
  }

  lemma IntervalTailSound(s: string, j: nat) returns (k: nat, l: nat)
    requires j < |s| && IntervalTail(s, j).Some?
    ensures s[j] == '-' && (k == j + 1 || (k == j + 2 && j + 1 < |s| && IsSpace(s[j + 1])))
    ensures NumberRun(s, k, l) && LiteralAt(s, l, " sec") && IntervalTail(s, j).value == s[k..l]
  {
    k := if j + 1 < |s| && IsSpace(s[j + 1]) then j + 2 else j + 1;
    l := RunEnd(s, k);
  }

  lemma UnitTailSound(p: Pattern, s: string, j: nat) returns (k: nat, l: nat)
    requires p != IntervalPattern && j < |s| && UnitTail(p, s, j).Some?
    ensures s[j] == ' ' && k == j + 1 && k <= l <= |s| && s[k..l] in Units(p) && UnitTail(p, s, j).value == s[k..l]
  {
    var u := UnitTail(p, s, j).value;
    k, l := j + 1, j + 1 + |u|;
  }

  /** `re.search` from position `i`: the leftmost start position where the pattern matches. */
  function SearchFrom(p: Pattern, s: string, i: nat): (r: Option<Found>)
    requires i <= |s|
    ensures r.Some? ==> i <= r.value.pos < |s| && MatchAt(p, s, r.value.pos) == Some(r.value.groups)
    ensures forall k :: i <= k < (if r.Some? then r.value.pos else |s|) ==> MatchAt(p, s, k).None?
    decreases |s| - i
  {
    if i == |s| then None
    else match MatchAt(p, s, i)
      case Some(g) => Some(Found(i, g))
      case None => SearchFrom(p, s, i + 1)
  }

  /** `re.search(pattern, s)`. */
  function Search(p: Pattern, s: string): (r: Option<Found>)
    ensures r.Some? ==> r.value.pos < |s| && MatchAt(p, s, r.value.pos) == Some(r.value.groups)
    ensures forall k :: 0 <= k < (if r.Some? then r.value.pos else |s|) ==> MatchAt(p, s, k).None?
  {
    SearchFrom(p, s, 0)
  }

  /** The search result is pinned down by where the pattern first matches. */
  lemma SearchFindsFirst(p: Pattern, s: string, k: nat)
    requires k < |s| && MatchAt(p, s, k).Some?
    requires forall m :: 0 <= m < k ==> MatchAt(p, s, m).None?
    ensures Search(p, s) == Some(Found(k, MatchAt(p, s, k).value))
  {
  }

  lemma SearchFindsMatch(p: Pattern, s: string, k: nat, g: Groups)
    requires k < |s| && MatchAt(p, s, k) == Some(g)
    requires forall m :: 0 <= m < k ==> MatchAt(p, s, m).None?
    ensures Search(p, s) == Some(Found(k, g))
  {
    SearchFindsFirst(p, s, k);
  }

  lemma SearchFindsNothing(p: Pattern, s: string)
    requires forall m :: 0 <= m < |s| ==> MatchAt(p, s, m).None?
    ensures Search(p, s).None?
  {
  }

  /** No match starts inside a number run, or just after it, when the pattern cannot go on
      from the character that ends the run. */
  lemma NoMatchInRun(p: Pattern, s: string, i: nat, j: nat)
    requires i <= j < |s| && !IsNumChar(s[j])
    requires forall k :: i <= k < j ==> IsNumChar(s[k])
    requires p == IntervalPattern ==> s[j] != '-'
    requires p != IntervalPattern ==> UnitTail(p, s, j).None?
    ensures forall m :: i <= m <= j ==> MatchAt(p, s, m).None?
  {
    forall m | i <= m <= j ensures MatchAt(p, s, m).None? {
      RunEndOfRun(s, m, j);
    }
  }

  /** No match starts at a character that cannot begin a number. */
  lemma NoMatchOutsideNumbers(p: Pattern, s: string, i: nat, j: nat)
    requires i <= j <= |s|
    requires forall k :: i <= k < j ==> !IsNumChar(s[k])
    ensures forall m :: i <= m < j ==> MatchAt(p, s, m).None?
  {
  }

  /** The scanner only looks forward: text in front of position `|u|` does not change what
      happens there. */
  lemma {:induction false} RunEndShift(u: string, v: string, m: nat)
    requires m <= |v|
    ensures RunEnd(u + v, |u| + m) == |u| + RunEnd(v, m)
    decreases |v| - m
  {
    if m < |v| {
      assert (u + v)[|u| + m] == v[m];
      if IsNumChar(v[m]) {
        RunEndShift(u, v, m + 1);
      }
    }
  }

  lemma SliceShift(u: string, v: string, i: nat, j: nat)
    requires i <= j <= |v|
    ensures (u + v)[|u| + i..|u| + j] == v[i..j]
  {
  }

  lemma LiteralAtShift(u: string, v: string, i: nat, lit: string)
    requires i <= |v|
    ensures LiteralAt(u + v, |u| + i, lit) <==> LiteralAt(v, i, lit)
  {
    if i + |lit| <= |v| {
      SliceShift(u, v, i, i + |lit|);
    }
  }

  lemma UnitAtShift(p: Pattern, u: string, v: string, i: nat)
    requires p != IntervalPattern && i <= |v|
    ensures UnitAt(p, u + v, |u| + i) == UnitAt(p, v, i)
  {
    LiteralAtShift(u, v, i, Units(p)[0]);
    LiteralAtShift(u, v, i, Units(p)[1]);
  }

  lemma MatchAtShift(p: Pattern, u: string, v: string, m: nat)
    requires m <= |v|
    ensures MatchAt(p, u + v, |u| + m) == MatchAt(p, v, m)
  {
    RunEndShift(u, v, m);
    var j := RunEnd(v, m);
    if m < j < |v| {
      if p == IntervalPattern {
        IntervalMatchShift(u, v, m, j);
      } else {
        UnitMatchShift(p, u, v, m, j);
      }
    }
  }

  lemma IntervalMatchShift(u: string, v: string, m: nat, j: nat)
    requires m < j < |v| && j == RunEnd(v, m) && RunEnd(u + v, |u| + m) == |u| + j
    ensures MatchAt(IntervalPattern, u + v, |u| + m) == MatchAt(IntervalPattern, v, m)
  {
    SliceShift(u, v, m, j);
    IntervalTailShift(u, v, j);
  }

  lemma UnitMatchShift(p: Pattern, u: string, v: string, m: nat, j: nat)
    requires p != IntervalPattern
    requires m < j < |v| && j == RunEnd(v, m) && RunEnd(u + v, |u| + m) == |u| + j
    ensures MatchAt(p, u + v, |u| + m) == MatchAt(p, v, m)
  {
    SliceShift(u, v, m, j);
    UnitTailShift(p, u, v, j);
    var tail := UnitTail(p, v, j);
    if tail.Some? {
      assert MatchAt(p, v, m) == Some(Groups(v[m..j], tail.value));
    } else {
      assert MatchAt(p, v, m).None?;
    }
  }

  lemma UnitTailShift(p: Pattern, u: string, v: string, j: nat)
    requires p != IntervalPattern && j < |v|
    ensures UnitTail(p, u + v, |u| + j) == UnitTail(p, v, j)
  {
    assert (u + v)[|u| + j] == v[j];
    UnitAtShift(p, u, v, j + 1);
  }

  lemma IntervalTailShift(u: string, v: string, j: nat)
    requires j < |v|
    ensures IntervalTail(u + v, |u| + j) == IntervalTail(v, j)
  {
    var s := u + v;
    assert s[|u| + j] == v[j];
    if j + 1 < |v| {
      assert s[|u| + j + 1] == v[j + 1];
    }
    var k := if j + 1 < |v| && IsSpace(v[j + 1]) then j + 2 else j + 1;
    SecondNumberShift(u, v, k);
  }

  lemma SecondNumberShift(u: string, v: string, k: nat)
    requires k <= |v|
    ensures SecondNumber(u + v, |u| + k) == SecondNumber(v, k)
  {
    RunEndShift(u, v, k);
    var l := RunEnd(v, k);
    LiteralAtShift(u, v, l, " sec");
    SliceShift(u, v, k, l);
  }

  /** No match in `u` and none in the first `n` positions of `v` leaves none in the first
      `|u| + n` positions of `u + v`. */
  lemma NoMatchShift(p: Pattern, u: string, v: string, n: nat)
    requires n <= |v|
    requires forall m :: 0 <= m < |u| ==> MatchAt(p, u + v, m).None?
    requires forall k :: 0 <= k < n ==> MatchAt(p, v, k).None?
    ensures forall m :: 0 <= m < |u| + n ==> MatchAt(p, u + v, m).None?
  {
    forall m | |u| <= m < |u| + n ensures MatchAt(p, u + v, m).None? {
      MatchAtShift(p, u, v, m - |u|);
    }
  }

  /** A search result moved along by `n` positions. */
  function Shifted(r: Option<Found>, n: nat): Option<Found> {
    match r
    case None => None
    case Some(f) => Some(Found(n + f.pos, f.groups))
  }

  /** A search over `u + v` that finds nothing starting in `u` is the search over `v`, moved
      along by `|u|`. */
  lemma SearchShift(p: Pattern, u: string, v: string)
    requires forall m :: 0 <= m < |u| ==> MatchAt(p, u + v, m).None?
    ensures Search(p, u + v) == Shifted(Search(p, v), |u|)
  {
    match Search(p, v)
    case None => SearchShiftNone(p, u, v);
    case Some(f) =>
      SearchFound(p, v, f);
      SearchShiftSome(p, u, v, f);
  }

  /** What a search returns is a match, with none further left. */
  lemma SearchFound(p: Pattern, s: string, f: Found)
    requires Search(p, s) == Some(f)
    ensures f.pos < |s| && MatchAt(p, s, f.pos) == Some(f.groups)
    ensures forall k :: 0 <= k < f.pos ==> MatchAt(p, s, k).None?
  {
  }

  lemma SearchShiftNone(p: Pattern, u: string, v: string)
    requires forall m :: 0 <= m < |u| ==> MatchAt(p, u + v, m).None?
    requires Search(p, v).None?
    ensures Search(p, u + v).None?
  {
    NoMatchShift(p, u, v, |v|);
    SearchFindsNothing(p, u + v);
  }

  lemma SearchShiftSome(p: Pattern, u: string, v: string, f: Found)
    requires forall m :: 0 <= m < |u| ==> MatchAt(p, u + v, m).None?
    requires f.pos < |v| && MatchAt(p, v, f.pos) == Some(f.groups)
    requires forall k :: 0 <= k < f.pos ==> MatchAt(p, v, k).None?
    ensures Search(p, u + v) == Some(Found(|u| + f.pos, f.groups))
  {
    var k := |u| + f.pos;
    MatchAtShift(p, u, v, f.pos);
    NoMatchShift(p, u, v, f.pos);
    SearchFindsMatch(p, u + v, k, f.groups);
  }

  /** The regular expression matches at `i`, capturing `g`, in some way. */
  ghost predicate RegexMatchesAt(p: Pattern, s: string, i: nat, g: Groups) {
    exists j, k, l :: MatchesWith(p, s, i, j, k, l, g)
  }

  /** What `re.search` promises: the match that starts furthest left. */
  ghost predicate LeftmostRegexMatch(p: Pattern, s: string, i: nat, g: Groups) {
    RegexMatchesAt(p, s, i, g) && forall i': nat, g' :: i' < i ==> !RegexMatchesAt(p, s, i', g')
  }

  lemma NoMatchAt(p: Pattern, s: string, i: nat, g: Groups)
    requires i <= |s| && MatchAt(p, s, i).None?
    ensures !RegexMatchesAt(p, s, i, g)
  {
    if RegexMatchesAt(p, s, i, g) {
      var j, k, l :| MatchesWith(p, s, i, j, k, l, g);
      MatchAtComplete(p, s, i, j, k, l, g);
    }
  }

  lemma FoundIsLeftmost(p: Pattern, s: string, i: nat, g: Groups)
    requires Search(p, s) == Some(Found(i, g))
    ensures LeftmostRegexMatch(p, s, i, g)
  {
    MatchAtSound(p, s, i);
    forall i': nat, g' | i' < i ensures !RegexMatchesAt(p, s, i', g') { NoMatchAt(p, s, i', g'); }
  }

  lemma LeftmostIsFound(p: Pattern, s: string, i: nat, g: Groups)
    requires LeftmostRegexMatch(p, s, i, g)
    ensures Search(p, s) == Some(Found(i, g))
  {
    var j, k, l :| MatchesWith(p, s, i, j, k, l, g);
    MatchAtComplete(p, s, i, j, k, l, g);
    forall m | 0 <= m < i ensures MatchAt(p, s, m).None? {
      if MatchAt(p, s, m).Some? {
        MatchAtSound(p, s, m);
        assert RegexMatchesAt(p, s, m, MatchAt(p, s, m).value);
      }
    }
    SearchFindsMatch(p, s, i, g);
  }

  /** The search finds exactly the leftmost match of the regular expression, and finds nothing
      exactly when the regular expression matches nowhere. */
  lemma SearchIsLeftmostMatch(p: Pattern, s: string)
    ensures forall i: nat, g :: Search(p, s) == Some(Found(i, g)) <==> LeftmostRegexMatch(p, s, i, g)
    ensures Search(p, s).None? <==> forall i: nat, g :: !RegexMatchesAt(p, s, i, g)
  {
    forall i: nat, g ensures Search(p, s) == Some(Found(i, g)) <==> LeftmostRegexMatch(p, s, i, g) {
      if Search(p, s) == Some(Found(i, g)) { FoundIsLeftmost(p, s, i, g); }
      if LeftmostRegexMatch(p, s, i, g) { LeftmostIsFound(p, s, i, g); }
    }
    var r := Search(p, s);
    if r.None? {
      forall i: nat, g ensures !RegexMatchesAt(p, s, i, g) {
        if i <= |s| { NoMatchAt(p, s, i, g); }
      }
    } else {
      MatchAtSound(p, s, r.value.pos);
    }
  }

  // ---------------------------------------------------------------------------------------
  // float() on a captured number

  predicate AllDigits(t: string) { forall k :: 0 <= k < |t| ==> IsDigit(t[k]) }

  predicate HasDigit(t: string) { exists k :: 0 <= k < |t| && IsDigit(t[k]) }

  function DotCount(t: string): nat { multiset(t)['.'] }

  function Pow10(n: nat): (r: nat)
    ensures r >= 1
  {
    if n == 0 then 1 else 10 * Pow10(n - 1)
  }

  function DigitValue(c: char): nat
    requires IsDigit(c)
  {
    c as int - '0' as int
  }

  /** The natural number a string of decimal digits denotes (leading zeros allowed). */
  function DigitsValue(d: string): nat
    requires AllDigits(d)
  {
    if d == [] then 0 else 10 * DigitsValue(d[..|d| - 1]) + DigitValue(d[|d| - 1])
  }

  /** The position of the first `.` from `i` on, or `|t|`. */
  function FindDot(t: string, i: nat): (k: nat)
    requires i <= |t|
    ensures i <= k <= |t|
    ensures k < |t| ==> t[k] == '.'
    ensures forall m :: i <= m < k ==> t[m] != '.'
    decreases |t| - i
  {
    if i == |t| || t[i] == '.' then i else FindDot(t, i + 1)
  }

  /** The value of the number written `whole.fraction`. */
  function DecimalValue(whole: string, fraction: string): real
    requires AllDigits(whole) && AllDigits(fraction)
  {
    DigitsValue(whole) as real + DigitsValue(fraction) as real / Pow10(|fraction|) as real
  }

  /** A stretch of a number text with no dot is all digits and contributes no dot. */
  lemma DotFree(t: string, i: nat, j: nat)
    requires IsNumberText(t) && i <= j <= |t|
    requires forall m :: i <= m < j ==> t[m] != '.'
    ensures AllDigits(t[i..j]) && DotCount(t[i..j]) == 0
    ensures i < j ==> HasDigit(t)
  {
    var u := t[i..j];
    assert forall m :: 0 <= m < |u| ==> u[m] == t[i + m];
    assert '.' !in u;
    if i < j { assert IsDigit(t[i]); }
  }

  /** The dots of a text are those before, at and after position `k`. */
  lemma DotCountAround(t: string, k: nat)
    requires k < |t| && t[k] == '.'
    ensures DotCount(t) == DotCount(t[..k]) + 1 + DotCount(t[k + 1..])
  {
    assert t == t[..k] + [t[k]] + t[k + 1..];
  }

  /** `float(t)` for a text made of `[0-9\.]`: it is accepted exactly when it has at least one
      digit and at most one dot ("." and "1.2.3" raise `ValueError`); the value is exact. */
  function ParseFloat(t: string): (r: Option<real>)
    requires IsNumberText(t)
    ensures r.Some? <==> HasDigit(t) && DotCount(t) <= 1
  {
    var k := FindDot(t, 0);
    if k == |t| then
      DotFree(t, 0, |t|);
      assert t[0..|t|] == t;
      if t == [] then None else Some(DigitsValue(t) as real)
    else
      DotCountAround(t, k);
      DotFree(t, 0, k);
      var k' := FindDot(t, k + 1);
      if k' < |t| then
        DotCountAround(t[k + 1..], k' - k - 1);
        None
      else
        DotFree(t, k + 1, |t|);
        if |t| == 1 then
          assert !HasDigit(t) by { assert t[0] == '.'; }
          None
        else
          assert HasDigit(t) by { if k == 0 { assert IsDigit(t[1]); } }
          assert t[..k] == t[0..k];
          Some(DecimalValue(t[..k], t[k + 1..]))
  }

  // ---------------------------------------------------------------------------------------
  // Fixed-point rendering, the inverse of ParseFloat on the numbers iperf3 writes

  function DigitChar(n: nat): (c: char)
    requires n < 10
    ensures IsDigit(c) && DigitValue(c) == n
  {
    ('0' as int + n) as char
  }

  /** The decimal digits of `n`, without leading zeros. */
  function NatDigits(n: nat): (d: string)
    ensures |d| >= 1 && AllDigits(d)
  {
    if n < 10 then [DigitChar(n)] else NatDigits(n / 10) + [DigitChar(n % 10)]
  }

  function Zeros(w: nat): (z: string)
    ensures |z| == w && AllDigits(z) && DigitsValue(z) == 0
  {
    if w == 0 then [] else
      var z := Zeros(w - 1) + ['0'];
      assert z[..|z| - 1] == Zeros(w - 1);
      z
  }

  /** The digits of `n`, with leading zeros so that there are more than `scale` of them. */
  function PaddedDigits(n: nat, scale: nat): (d: string)
    ensures AllDigits(d) && |d| > scale && DigitsValue(d) == n
  {
    var d := NatDigits(n);
    NatDigitsValue(n);
    if |d| <= scale then PadValue(d, scale + 1 - |d|); Zeros(scale + 1 - |d|) + d else d
  }

  /** `n / 10^scale` written with exactly `scale` decimals, as `%.<scale>f` writes it. */
  function FormatFixed(n: nat, scale: nat): string {
    var d := PaddedDigits(n, scale);
    if scale == 0 then d else d[..|d| - scale] + "." + d[|d| - scale..]
  }

  lemma {:induction false} NatDigitsValue(n: nat)
    ensures DigitsValue(NatDigits(n)) == n
  {
    if n >= 10 {
      var d := NatDigits(n);
      assert d[..|d| - 1] == NatDigits(n / 10);
      NatDigitsValue(n / 10);
    }
  }

  /** Digits split into a head and a tail of `|b|` digits: the head counts `10^|b|` times. */
  lemma {:induction false} DigitsValueAppend(a: string, b: string)
    requires AllDigits(a) && AllDigits(b)
    ensures AllDigits(a + b)
    ensures DigitsValue(a + b) == DigitsValue(a) * Pow10(|b|) + DigitsValue(b)
    decreases |b|
  {
    if b == [] {
      assert a + b == a;
    } else {
      var b' := b[..|b| - 1];
      DigitsValueAppend(a, b');
      DigitsValueAppendStep(a, b);
    }
  }

  /** One more digit at the end of `b`: the head's weight grows tenfold. */
  lemma DigitsValueAppendStep(a: string, b: string)
    requires AllDigits(a) && AllDigits(b) && b != []
    requires AllDigits(a + b[..|b| - 1])
    requires DigitsValue(a + b[..|b| - 1]) == DigitsValue(a) * Pow10(|b| - 1) + DigitsValue(b[..|b| - 1])
    ensures AllDigits(a + b)
    ensures DigitsValue(a + b) == DigitsValue(a) * Pow10(|b|) + DigitsValue(b)
  {
    var ab, b' := a + b, b[..|b| - 1];
    assert ab[..|ab| - 1] == a + b' && ab[|ab| - 1] == b[|b| - 1];
    ShiftDigit(DigitsValue(a), DigitsValue(b'), Pow10(|b'|), DigitValue(b[|b| - 1]),
               DigitsValue(ab), DigitsValue(b), Pow10(|b|));
  }

  lemma ShiftDigit(x: nat, y: nat, p: nat, c: nat, v: nat, w: nat, q: nat)
    requires v == 10 * (x * p + y) + c && w == 10 * y + c && q == 10 * p
    ensures v == x * q + w
  {
  }

  lemma PadValue(d: string, w: nat)
    requires AllDigits(d)
    ensures AllDigits(Zeros(w) + d) && DigitsValue(Zeros(w) + d) == DigitsValue(d)
  {
    DigitsValueAppend(Zeros(w), d);
  }

  lemma SplitValue(whole: nat, fraction: nat, p: nat, v: nat)
    requires p >= 1 && v == whole * p + fraction
    ensures whole as real + fraction as real / p as real == v as real / p as real
  {
  }

  /** The first dot from `i` on is at `k` when there is none before it. */
  lemma {:induction false} FindDotAt(t: string, i: nat, k: nat)
    requires i <= k <= |t|
    requires forall m :: i <= m < k ==> t[m] != '.'
    requires k == |t| || t[k] == '.'
    ensures FindDot(t, i) == k
    decreases k - i
  {
    if i < k {
      FindDotAt(t, i + 1, k);
    }
  }

  /** `float()` of a digit string is the number it denotes. */
  lemma ParseFloatOfDigits(d: string)
    requires AllDigits(d) && d != []
    ensures IsNumberText(d) && ParseFloat(d) == Some(DigitsValue(d) as real)
  {
    assert forall m :: 0 <= m < |d| ==> d[m] != '.';
    FindDotAt(d, 0, |d|);
  }

  /** `float()` of `whole.fraction` is `whole + fraction / 10^|fraction|`. */
  lemma ParseFloatOfDecimal(whole: string, fraction: string)
    requires AllDigits(whole) && AllDigits(fraction) && whole + fraction != []
    ensures IsNumberText(whole + "." + fraction)
    ensures ParseFloat(whole + "." + fraction)
         == Some(DecimalValue(whole, fraction))
  {
    var t := whole + "." + fraction;
    assert forall m :: 0 <= m < |whole| ==> t[m] == whole[m];
    assert forall m :: |whole| < m < |t| ==> t[m] == fraction[m - |whole| - 1];
    FindDotAt(t, 0, |whole|);
    assert t[..|whole|] == whole && t[|whole| + 1..] == fraction;
    FindDotAt(t, |whole| + 1, |t|);
  }

  /** Putting the point `scale` digits from the right divides the value by `10^scale`. */
  lemma PointValue(d: string, scale: nat)
    requires AllDigits(d) && |d| > scale
    ensures AllDigits(d[..|d| - scale]) && AllDigits(d[|d| - scale..])
    ensures DecimalValue(d[..|d| - scale], d[|d| - scale..]) == DigitsValue(d) as real / Pow10(scale) as real
  {
    var whole, fraction := d[..|d| - scale], d[|d| - scale..];
    assert d == whole + fraction;
    DigitsValueAppend(whole, fraction);
    SplitValue(DigitsValue(whole), DigitsValue(fraction), Pow10(|fraction|), DigitsValue(d));
  }

  lemma RoundTripWhole(n: nat)
    ensures IsNumberText(FormatFixed(n, 0)) && ParseFloat(FormatFixed(n, 0)) == Some(n as real)
  {
    ParseFloatOfDigits(PaddedDigits(n, 0));
  }

  lemma RoundTripFraction(n: nat, scale: nat)
    requires scale > 0
    ensures IsNumberText(FormatFixed(n, scale))
    ensures ParseFloat(FormatFixed(n, scale)) == Some(n as real / Pow10(scale) as real)
  {
    var d := PaddedDigits(n, scale);
    PointReadsBack(FormatFixed(n, scale), d, scale);
  }

  /** Digits with a point put `scale` places from the right read back as their value over
      `10^scale`. */
  lemma PointReadsBack(t: string, d: string, scale: nat)
    requires AllDigits(d) && |d| > scale
    requires t == d[..|d| - scale] + "." + d[|d| - scale..]
    ensures IsNumberText(t)
    ensures ParseFloat(t) == Some(DigitsValue(d) as real / Pow10(scale) as real)
  {
    PointValue(d, scale);
    ParseFloatOfDecimal(d[..|d| - scale], d[|d| - scale..]);
  }

  /** Round trip: reading back what `FormatFixed` writes gives the value that was written. */
  lemma FormatFixedRoundTrip(n: nat, scale: nat)
    ensures IsNumberText(FormatFixed(n, scale))
    ensures ParseFloat(FormatFixed(n, scale)) == Some(n as real / Pow10(scale) as real)
  {
    if scale == 0 {
      RoundTripWhole(n);
      assert Pow10(0) == 1;
      assert n as real / Pow10(scale) as real == n as real;
    } else {
      RoundTripFraction(n, scale);
    }
  }
}

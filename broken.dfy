/** The decision of `check_test_broken` in tools/utils.py: whether an
    Apache Bench run shows the e1000 stall, judged from the median and the
    longest request time in its percentile table (`  50%    12` and
    `  100%   3077 (longest request)`). The last such line of each kind
    counts. */
module Broken {
  import opened Base
  import opened Text

  /** Leading ` ` characters (the pattern's ` *`, not all whitespace). */
  function Blanks(s: string): (n: nat)
    ensures n <= |s|
    ensures forall j :: 0 <= j < n ==> s[j] == ' '
    ensures n < |s| ==> s[n] != ' '
  {
    if s == [] || s[0] != ' ' then 0 else 1 + Blanks(s[1..])
  }

  /** `^ *<mark> *(\d+)<tail>$` with `$` at the end of the line (the line is
      taken without its newline): the digits' value. */
  function MatchRow(line: string, mark: string, tail: string): (r: Option<nat>)
  {
    var after := line[Blanks(line)..];
    if !StartsWith(after, mark) then None
    else
      var rest := after[|mark|..];
      var b := Blanks(rest);
      var digits := rest[b..];
      var n := DigitRun(digits);
      if n == 0 || digits[n..] != tail then None
      else Some(DigitsValue(digits[..n]))
  }

  /** `median_regex.match(line)`. */
  function MatchMedian(line: string): Option<nat> {
    MatchRow(line, "50%", "")
  }

  /** `longest_regex.match(line)`. */
  function MatchLongest(line: string): Option<nat> {
    MatchRow(line, "100%", " (longest request)")
  }

  /** Whether the median or the longest-request pattern accepts a line. */
  function Matcher(line: string, median: bool): Option<nat> {
    if median then MatchMedian(line) else MatchLongest(line)
  }

  /** What one pattern makes of each line. */
  function Matches(lines: seq<string>, median: bool): (ms: seq<Option<nat>>)
    ensures |ms| == |lines|
    ensures forall j :: 0 <= j < |lines| ==> ms[j] == Matcher(lines[j], median)
  {
    seq(|lines|, j requires 0 <= j < |lines| => Matcher(lines[j], median))
  }

  /** The value of the last match. */
  function LastOf(ms: seq<Option<nat>>): Option<nat>
    decreases |ms|
  {
    if ms == [] then None
    else if ms[|ms| - 1].Some? then ms[|ms| - 1]
    else LastOf(ms[..|ms| - 1])
  }

  /** The value the variable holds after the loop: that of the last line
      the pattern accepts. */
  function LastMatch(lines: seq<string>, median: bool): Option<nat> {
    LastOf(Matches(lines, median))
  }

  /** The loop over the lines of `ab.out`: `median` and `longest` as the
      last matching line left them. */
  method ScanDurations(lines: seq<string>) returns (median: Option<nat>, longest: Option<nat>)
    ensures median == LastMatch(lines, true)
    ensures longest == LastMatch(lines, false)
  {
    ghost var ms, ls := Matches(lines, true), Matches(lines, false);
    median, longest := None, None;
    var i := 0;
    while i < |lines|
      invariant 0 <= i <= |lines|
      invariant median == LastOf(ms[..i])
      invariant longest == LastOf(ls[..i])
    {
      LastOfSnoc(ms, i);
      LastOfSnoc(ls, i);
      var m := MatchLine(lines[i], true);
      assert m == ms[i];
      if m.Some? {
        median := m;
      }
      var l := MatchLine(lines[i], false);
      assert l == ls[i];
      if l.Some? {
        longest := l;
      }
      i := i + 1;
    }
    assert ms[..i] == ms;
    assert ls[..i] == ls;
  }

  lemma LastOfSnoc(ms: seq<Option<nat>>, i: nat)
    requires i < |ms|
    ensures LastOf(ms[..i + 1]) == if ms[i].Some? then ms[i] else LastOf(ms[..i])
  {
    assert ms[..i + 1][..i] == ms[..i];
  }

  /** One `regex.match(line)` of the loop. */
  method MatchLine(line: string, median: bool) returns (m: Option<nat>)
    ensures m == Matcher(line, median)
  {
    if median {
      m := MatchMedian(line);
    } else {
      m := MatchLongest(line);
    }
  }

  /** The verdict from the two durations: "unknown" when either is missing
      or zero (both falsy in Python), "false" when the longest request is
      under ten medians (floor division) or under a second, else "true". */
  function Verdict(median: Option<nat>, longest: Option<nat>): string {
    if longest.None? || longest.value == 0 || median.None? || median.value == 0 then "unknown"
    else if longest.value / median.value < 10 || longest.value < 1000 then "false"
    else "true"
  }

  /** `check_test_broken(test_directory)`, given the lines of the `ab.out`
      found under the directory, or None when there is none. */
  method CheckTestBroken(abFile: Option<seq<string>>) returns (verdict: string)
    ensures abFile.None? ==> verdict == "unknown"
    ensures abFile.Some? ==> verdict == Verdict(LastMatch(abFile.value, true), LastMatch(abFile.value, false))
  {
    if abFile.None? {
      return "unknown";
    }
    var median, longest := ScanDurations(abFile.value);
    verdict := Verdict(median, longest);
  }

  // ------------------------------------------------------------- properties

  /** A run is broken exactly when both durations are known and the longest
      request took at least ten times the median and at least a second. */
  lemma BrokenExactly(median: Option<nat>, longest: Option<nat>)
    ensures Verdict(median, longest) == "true" <==>
            median.Some? && longest.Some? && median.value > 0
            && longest.value >= 10 * median.value && longest.value >= 1000
    ensures Verdict(median, longest) == "unknown" <==>
            median.None? || longest.None? || median.value == 0 || longest.value == 0
  {
    if median.Some? && longest.Some? && median.value > 0 {
      TenTimes(longest.value, median.value);
    }
  }

  /** The floor division `longest/median < 10` is `longest < 10 * median`. */
  lemma TenTimes(l: nat, m: nat)
    requires m > 0
    ensures l / m >= 10 <==> l >= 10 * m
  {
    var q, r := l / m, l % m;
    assert l == q * m + r && r < m;
    if q >= 10 {
      assert q * m == 10 * m + (q - 10) * m;
    } else {
      assert q * m + m <= 10 * m by {
        assert (q + 1) * m == q * m + m;
        assert 10 * m == (q + 1) * m + (9 - q) * m;
      }
    }
  }

  /** Nothing is kept exactly when no line matches. */
  lemma {:induction false} LastOfNone(ms: seq<Option<nat>>)
    ensures LastOf(ms).None? <==> forall j :: 0 <= j < |ms| ==> ms[j].None?
    decreases |ms|
  {
    if ms != [] {
      var init := ms[..|ms| - 1];
      LastOfNone(init);
      assert forall j :: 0 <= j < |init| ==> init[j] == ms[j];
    }
  }

  /** The value kept is that of the last matching line: it matches with that
      value and no later line matches. */
  lemma {:induction false} LastOfIsLast(ms: seq<Option<nat>>)
    requires LastOf(ms).Some?
    ensures exists k :: 0 <= k < |ms| && ms[k] == LastOf(ms) && forall j :: k < j < |ms| ==> ms[j].None?
    decreases |ms|
  {
    var last := |ms| - 1;
    if ms[last].None? {
      var init := ms[..last];
      LastOfIsLast(init);
      var k :| 0 <= k < |init| && init[k] == LastOf(init) && forall j :: k < j < |init| ==> init[j].None?;
      assert ms[k] == init[k];
      forall j | k < j < |ms| ensures ms[j].None? {
        if j < last {
          assert ms[j] == init[j];
        }
      }
    }
  }

  /** For the lines of a file: the duration kept is that of the last line
      the pattern accepts, and none when it accepts none. */
  lemma LastMatchIsLast(lines: seq<string>, median: bool)
    ensures LastMatch(lines, median).None? <==> forall j :: 0 <= j < |lines| ==> Matcher(lines[j], median).None?
    ensures LastMatch(lines, median).Some? ==>
              exists k :: 0 <= k < |lines| && Matcher(lines[k], median) == LastMatch(lines, median)
                          && forall j :: k < j < |lines| ==> Matcher(lines[j], median).None?
  {
    var ms := Matches(lines, median);
    LastOfNone(ms);
    if LastOf(ms).Some? {
      LastOfIsLast(ms);
      var k :| 0 <= k < |ms| && ms[k] == LastOf(ms) && forall j :: k < j < |ms| ==> ms[j].None?;
      assert Matcher(lines[k], median) == LastMatch(lines, median);
    }
  }

  /** `ab`'s own rows are read: `  50%  <digits>` gives the median. */
  lemma MedianRow(ws: string, gap: string, digits: string)
    requires forall j :: 0 <= j < |ws| ==> ws[j] == ' '
    requires forall j :: 0 <= j < |gap| ==> gap[j] == ' '
    requires IsDigits(digits)
    ensures MatchMedian(ws + ("50%" + (gap + digits))) == Some(DigitsValue(digits))
  {
    RowRead(ws, "50%", gap, digits, "");
    assert digits + "" == digits;
  }

  /** ... and `  100%  <digits> (longest request)` the longest request. */
  lemma LongestRow(ws: string, gap: string, digits: string)
    requires forall j :: 0 <= j < |ws| ==> ws[j] == ' '
    requires forall j :: 0 <= j < |gap| ==> gap[j] == ' '
    requires IsDigits(digits)
    ensures MatchLongest(ws + ("100%" + (gap + (digits + " (longest request)")))) == Some(DigitsValue(digits))
  {
    RowRead(ws, "100%", gap, digits, " (longest request)");
  }

  lemma RowRead(ws: string, mark: string, gap: string, digits: string, tail: string)
    requires forall j :: 0 <= j < |ws| ==> ws[j] == ' '
    requires mark != [] && mark[0] != ' '
    requires forall j :: 0 <= j < |gap| ==> gap[j] == ' '
    requires IsDigits(digits)
    requires tail == [] || !IsDigit(tail[0])
    ensures MatchRow(ws + (mark + (gap + (digits + tail))), mark, tail) == Some(DigitsValue(digits))
  {
    var number := digits + tail;
    var rest := gap + number;
    var after := mark + rest;
    AfterBlanks(ws, after);
    assert after[..|mark|] == mark;
    assert after[|mark|..] == rest;
    AfterBlanks(gap, number);
    DigitRunPrefix(digits, tail);
    assert number[..|digits|] == digits;
    assert number[|digits|..] == tail;
  }

  /** Past the blanks of `ws + rest` is `rest`. */
  lemma AfterBlanks(ws: string, rest: string)
    requires forall j :: 0 <= j < |ws| ==> ws[j] == ' '
    requires rest != [] ==> rest[0] != ' '
    ensures Blanks(ws + rest) == |ws|
    ensures (ws + rest)[|ws|..] == rest
  {
    BlanksOf(ws, rest);
    assert (ws + rest)[|ws|..] == rest;
  }

  lemma {:induction false} BlanksOf(ws: string, rest: string)
    requires forall j :: 0 <= j < |ws| ==> ws[j] == ' '
    requires rest != [] ==> rest[0] != ' '
    ensures Blanks(ws + rest) == |ws|
    decreases |ws|
  {
    if ws == [] {
      assert ws + rest == rest;
    } else {
      assert (ws + rest)[1..] == ws[1..] + rest;
      BlanksOf(ws[1..], rest);
    }
  }
}

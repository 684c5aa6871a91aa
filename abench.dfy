/** `aBenchReader` in tools/summarize_test_results.py: five lines of the
    Apache Bench report, each picked out by an `if`/`elif` chain on its
    first words, matched by a regular expression and converted with
    `float()` or `int()`. A file yielding fewer than five values is
    reported as a parse error. */
module ABench {
  import opened Base
  import opened Text

  /** One branch of the `elif` chain: the text `startswith` tests, the
      literal text the branch's regular expression starts with, the name
      yielded, whether the value goes through `int()` rather than
      `float()`, and the text the expression requires after the number. */
  datatype Metric = Metric(start: string, heading: string, name: string, integral: bool, suffix: string)

  /** The branches in the order the chain tests them. */
  const Metrics: seq<Metric> := [
    Metric("Time taken", "Time taken for tests:", "ab_time_taken", false, " seconds"),
    Metric("Requests per", "Requests per second:", "ab_requests_per_second", false, ""),
    Metric("Transfer rate", "Transfer rate:", "ab_transfer_rate", false, ""),
    Metric("Failed requests", "Failed requests:", "ab_failed_requests", true, ""),
    Metric("Complete requests", "Complete requests:", "ab_completed_requests", true, "")
  ]

  /** Fewer values than this and `readfile` logs a parse error. */
  const Expected: nat := 5

  /** The branch of the `elif` chain a stripped line enters, from branch `k` on. */
  function BranchFrom(line: string, k: nat): (r: Option<nat>)
    requires k <= |Metrics|
    ensures r.Some? ==> k <= r.value < |Metrics| && StartsWith(line, Metrics[r.value].start)
    ensures r.Some? ==> forall j :: k <= j < r.value ==> !StartsWith(line, Metrics[j].start)
    ensures r.None? ==> forall j :: k <= j < |Metrics| ==> !StartsWith(line, Metrics[j].start)
    decreases |Metrics| - k
  {
    if k == |Metrics| then None
    else if StartsWith(line, Metrics[k].start) then Some(k)
    else BranchFrom(line, k + 1)
  }

  /** The text the branch's regular expression captures from a stripped
      line: the heading, at least one whitespace character, the number and
      the suffix. */
  function Capture(m: Metric, line: string): (r: Option<string>)
    ensures r.Some? ==> StartsWith(line, m.heading) && r.value != [] && IsDigit(r.value[0])
  {
    if !StartsWith(line, m.heading) then None
    else
      var rest := line[|m.heading|..];
      var w := LeadingSpaces(rest);
      var body := rest[w..];
      var n := DecimalLength(body);
      if w == 0 || n == 0 || !StartsWith(body[n..], m.suffix) then None
      else Some(body[..n])
  }

  /** `float(text)` or `int(text)`; None is the exception the branch logs. */
  function Convert(m: Metric, text: string): (r: Option<Cell>)
    ensures r.Some? ==> (if m.integral then r.value.Int? else r.value.Real?)
  {
    if m.integral then
      match PyInt(text)
      case Some(i) => Some(Int(i))
      case None => None
    else
      match PyFloat(text)
      case Some(x) => Some(Real(x))
      case None => None
  }

  /** What one line of the file yields: nothing, or one client value. */
  function LineYield(raw: string): (ts: seq<Triple>)
    ensures |ts| <= 1
  {
    var line := Strip(raw);
    match BranchFrom(line, 0)
    case None => []
    case Some(k) =>
      match Capture(Metrics[k], line)
      case None => []
      case Some(text) =>
        match Convert(Metrics[k], text)
        case None => []
        case Some(v) => [Triple(Client, Metrics[k].name, v)]
  }

  /** Everything `readfile` yields from the lines of a file. */
  function Yields(lines: seq<string>): seq<Triple>
    decreases |lines|
  {
    if lines == [] then [] else Yields(lines[..|lines| - 1]) + LineYield(lines[|lines| - 1])
  }

  /** `aBenchReader().readfile(f)`: the values yielded, and whether the
      "Parse error" message is logged at the end. */
  method ReadFile(lines: seq<string>) returns (out: seq<Triple>, parseError: bool)
    ensures out == Yields(lines)
    ensures parseError <==> |out| < Expected
  {
    var totalSeen := 0;
    out := [];
    var i := 0;
    while i < |lines|
      invariant 0 <= i <= |lines|
      invariant out == Yields(lines[..i])
      invariant totalSeen == |out|
    {
      YieldsSnoc(lines, i);
      var yielded := ReadLine(lines[i]);
      totalSeen := totalSeen + |yielded|;
      out := out + yielded;
      i := i + 1;
    }
    assert lines[..i] == lines;
    parseError := totalSeen < Expected;
  }

  /** The body of the loop for one line. */
  method ReadLine(raw: string) returns (yielded: seq<Triple>)
    ensures yielded == LineYield(raw)
  {
    var line := Strip(raw);
    yielded := [];
    var branch := BranchFrom(line, 0);
    if branch.Some? {
      var m := Metrics[branch.value];
      var text := Capture(m, line);
      if text.Some? {
        var v := Convert(m, text.value);
        if v.Some? {
          yielded := [Triple(Client, m.name, v.value)];
        }
      }
    }
  }

  lemma YieldsSnoc(lines: seq<string>, i: nat)
    requires i < |lines|
    ensures Yields(lines[..i + 1]) == Yields(lines[..i]) + LineYield(lines[i])
  {
    assert lines[..i + 1][..i] == lines[..i];
  }

  // ------------------------------------------------------------- properties

  /** Reading two pieces of a file one after the other yields what reading
      the whole file yields: each line is read on its own. */
  lemma {:induction false} YieldsAppend(a: seq<string>, b: seq<string>)
    ensures Yields(a + b) == Yields(a) + Yields(b)
    decreases |b|
  {
    if b == [] {
      assert a + b == a;
    } else {
      var init := b[..|b| - 1];
      var last := LineYield(b[|b| - 1]);
      assert Yields(a + b) == Yields(a + init) + last by {
        YieldsSnoc(a + b, |a + b| - 1);
        assert (a + b)[..|a + b| - 1] == a + init;
        assert (a + b)[..|a + b| - 1 + 1] == a + b;
        assert (a + b)[|a + b| - 1] == b[|b| - 1];
      }
      assert Yields(b) == Yields(init) + last by {
        YieldsSnoc(b, |b| - 1);
        assert b[..|b| - 1 + 1] == b;
      }
      YieldsAppend(a, init);
      AppendAssoc(Yields(a), Yields(init), last);
    }
  }

  /** Every value is a client value under one of the five names, an `int`
      for the two request counts and a `float` for the other three. */
  lemma {:induction false} YieldsShape(lines: seq<string>)
    ensures forall t :: t in Yields(lines) ==>
              t.side == Client
              && exists k :: 0 <= k < |Metrics| && t.field == Metrics[k].name
                             && (if Metrics[k].integral then t.value.Int? else t.value.Real?)
    decreases |lines|
  {
    if lines != [] {
      YieldsShape(lines[..|lines| - 1]);
    }
  }

  /** A report line `heading  digits suffix` yields exactly its number, as an
      `int` for the request counts and as a `float` otherwise. */
  lemma ReportLineYields(k: nat, ws: string, digits: string)
    requires k < |Metrics|
    requires ws != [] && forall j :: 0 <= j < |ws| ==> IsSpace(ws[j])
    requires IsDigits(digits)
    ensures var m := Metrics[k];
            LineYield(m.heading + ws + digits + m.suffix)
            == [Triple(Client, m.name, if m.integral then Int(DigitsValue(digits)) else Real(DigitsValue(digits) as real))]
  {
    var m := Metrics[k];
    MetricsWellFormed(k);
    DecimalLengthOf(digits, m.suffix);
    ReportLineRead(k, m, ws, digits);
    ConvertDigits(m, digits);
  }

  /** The branch's texts: the heading starts with the `startswith` text and
      with a non-space, and the suffix is empty or a space and then text
      that ends in a non-space. */
  predicate WellFormed(m: Metric) {
    && StartsWith(m.heading, m.start) && m.heading != [] && !IsSpace(m.heading[0])
    && (m.suffix == [] || (m.suffix[0] == ' ' && !IsSpace(m.suffix[|m.suffix| - 1])))
  }

  lemma MetricsWellFormed(k: nat)
    requires k < |Metrics|
    ensures WellFormed(Metrics[k])
  {
  }

  /** A line made of a branch's heading, whitespace, a number and the
      suffix enters that branch and captures the number. */
  lemma ReportLineRead(k: nat, m: Metric, ws: string, text: string)
    requires k < |Metrics| && m == Metrics[k] && WellFormed(m)
    requires ws != [] && forall j :: 0 <= j < |ws| ==> IsSpace(ws[j])
    requires text != [] && !IsSpace(text[0]) && !IsSpace(text[|text| - 1])
    requires DecimalLength(text + m.suffix) == |text|
    ensures var line := m.heading + ws + text + m.suffix;
            && Strip(line) == line
            && BranchFrom(line, 0) == Some(k)
            && Capture(m, line) == Some(text)
  {
    var line := m.heading + ws + text + m.suffix;
    assert line[0] == m.heading[0];
    assert line[|line| - 1] == if m.suffix == [] then text[|text| - 1] else m.suffix[|m.suffix| - 1];
    StripUnchanged(line);
    assert line[..|m.heading|] == m.heading;
    assert StartsWith(line, m.start) by {
      assert line[..|m.start|] == m.heading[..|m.start|];
    }
    BranchIs(line, k);
    CaptureOf(m, ws, text);
  }

  lemma CaptureOf(m: Metric, ws: string, text: string)
    requires ws != [] && forall j :: 0 <= j < |ws| ==> IsSpace(ws[j])
    requires text != [] && !IsSpace(text[0])
    requires DecimalLength(text + m.suffix) == |text|
    ensures Capture(m, m.heading + ws + text + m.suffix) == Some(text)
  {
    var line := m.heading + ws + text + m.suffix;
    assert line[..|m.heading|] == m.heading;
    var rest := line[|m.heading|..];
    assert rest == ws + (text + m.suffix);
    LeadingSpacesOf(ws, text + m.suffix);
    var body := rest[|ws|..];
    assert body == text + m.suffix;
    assert body[|text|..] == m.suffix;
    assert body[..|text|] == text;
  }

  /** The chain enters branch `k` on a line starting with that branch's text:
      the five texts exclude one another. */
  lemma BranchIs(line: string, k: nat)
    requires k < |Metrics| && StartsWith(line, Metrics[k].start)
    ensures BranchFrom(line, 0) == Some(k)
  {
    forall j | 0 <= j < k
      ensures !StartsWith(line, Metrics[j].start)
    {
      StartsExclusive(line, j, k);
    }
    BranchFromSkips(line, 0, k);
  }

  lemma {:induction false} BranchFromSkips(line: string, i: nat, k: nat)
    requires i <= k < |Metrics| && StartsWith(line, Metrics[k].start)
    requires forall j :: i <= j < k ==> !StartsWith(line, Metrics[j].start)
    ensures BranchFrom(line, i) == Some(k)
    decreases k - i
  {
    if i < k {
      BranchFromSkips(line, i + 1, k);
    }
  }

  /** No line starts with the texts of two different branches. */
  lemma StartsExclusive(line: string, j: nat, k: nat)
    requires j < k < |Metrics|
    requires StartsWith(line, Metrics[k].start)
    ensures !StartsWith(line, Metrics[j].start)
  {
    var a, b := Metrics[j].start, Metrics[k].start;
    // the two texts differ at a position both have
    var p :| 0 <= p < |a| && p < |b| && a[p] != b[p];
    assert line[..|b|][p] == line[p];
    assert |a| <= |line| ==> line[..|a|][p] == line[p];
  }

  lemma ConvertDigits(m: Metric, digits: string)
    requires IsDigits(digits)
    ensures Convert(m, digits)
         == Some(if m.integral then Int(DigitsValue(digits)) else Real(DigitsValue(digits) as real))
  {
    assert digits[0] != '-' && digits[0] != '+';
    assert !IsSpace(digits[0]) && !IsSpace(digits[|digits| - 1]);
    StripUnchanged(digits);
    assert PyInt(digits) == Some(DigitsValue(digits) as int);
    PyIntIsPyFloat(digits);
  }

  /** `int()` refuses a request count written with a fraction: the line is
      logged and not counted. */
  lemma FractionalCountSkipped(ws: string, whole: string, frac: string)
    requires ws != [] && forall j :: 0 <= j < |ws| ==> IsSpace(ws[j])
    requires IsDigits(whole) && IsDigits(frac)
    ensures LineYield(Metrics[4].heading + ws + (whole + "." + frac)) == []
  {
    var m := Metrics[4];
    var text := whole + "." + frac;
    MetricsWellFormed(4);
    FractionLength(whole, frac);
    assert text + m.suffix == text;
    ReportLineRead(4, m, ws, text);
    assert text[|whole|] == '.';
    NoIntWithDot(text);
  }

  lemma NoIntWithDot(s: string)
    requires '.' in s
    ensures PyInt(s) == None
  {
    var i :| 0 <= i < |s| && s[i] == '.';
    var l := LeadingSpaces(s);
    assert !IsSpace(s[i]);
    var t := Strip(s);
    assert t == TrimRight(s[l..]);
    assert s[l..][i - l] == '.';
    assert i - l < |t| && t[i - l] == '.';
    var body := Sign(t).1;
    assert body == t || (body == t[1..] && i - l > 0 && body[i - l - 1] == '.');
  }
}

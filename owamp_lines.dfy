/** The two regular expressions of `OwampReader` in
    tools/summarize_test_results.py, on a stripped line. */
module OwampLines {
  import opened Base
  import opened Text

  /** `packet_summary`, `^(\d+) sent, (\d+) lost.*, (\d+) duplicates`, on a
      stripped line: sent, lost and duplicate counts. */
  function MatchPackets(line: string): (r: Option<(nat, nat, nat)>)
  {
    var a := DigitRun(line);
    if a == 0 || !StartsWith(line[a..], " sent, ") then None
    else
      var r1 := line[a + 7..];
      var b := DigitRun(r1);
      if b == 0 || !StartsWith(r1[b..], " lost") then None
      else
        var x := r1[b + 5..];
        match LastDuplicates(x, |x|)
        case None => None
        case Some(d) => Some((DigitsValue(line[..a]), DigitsValue(r1[..b]), d))
  }

  /** The duplicate count of `, (\d+) duplicates` starting at position `p`
      of `x`. */
  function DuplicatesAt(x: string, p: nat): (r: Option<nat>)
    requires p <= |x|
  {
    var s := x[p..];
    if !StartsWith(s, ", ") then None
    else
      var d := DigitRun(s[2..]);
      if d == 0 || !StartsWith(s[2 + d..], " duplicates") then None
      else Some(DigitsValue(s[2..][..d]))
  }

  /** The greedy `.*` before `, (\d+) duplicates` backs off from the end of
      `x`, the text after "lost": the match is the last position at or
      before `p` where the tail matches. */
  function LastDuplicates(x: string, p: nat): (r: Option<nat>)
    requires p <= |x|
    decreases p
  {
    match DuplicatesAt(x, p)
    case Some(v) => Some(v)
    case None => if p == 0 then None else LastDuplicates(x, p - 1)
  }

  const JitterHead := "one-way jitter = "

  /** `jitter_summary`, `^one-way jitter = (\d+\.?\d*) ms`, then `float()`. */
  function MatchJitter(line: string): (r: Option<real>)
  {
    if !StartsWith(line, JitterHead) then None
    else
      var rest := line[|JitterHead|..];
      var n := DecimalLength(rest);
      if n == 0 || !StartsWith(rest[n..], " ms") then None
      else PyFloat(rest[..n])
  }

  /** What the two regular expressions make of one line, once stripped. */
  datatype OwampLine = OwampLine(packets: Option<(nat, nat, nat)>, jitter: Option<real>)

  function Parse(raw: string): OwampLine {
    var line := Strip(raw);
    OwampLine(MatchPackets(line), MatchJitter(line))
  }

  /** `MatchPackets` once both leading numbers and their words are found. */
  lemma MatchPacketsAt(line: string, a: nat, b: nat, v: nat)
    requires a == DigitRun(line) && a > 0 && StartsWith(line[a..], " sent, ")
    requires b == DigitRun(line[a + 7..]) && b > 0 && StartsWith(line[a + 7..][b..], " lost")
    requires LastDuplicates(line[a + 7..][b + 5..], |line[a + 7..][b + 5..]|) == Some(v)
    ensures MatchPackets(line) == Some((DigitsValue(line[..a]), DigitsValue(line[a + 7..][..b]), v))
  {
  }

  /** A number `n` at the start of `n + rest` is read whole. */
  lemma NumberThen(n: string, rest: string)
    requires IsDigits(n) && rest != [] && !IsDigit(rest[0])
    ensures DigitRun(n + rest) == |n| && (n + rest)[..|n|] == n && (n + rest)[|n|..] == rest
  {
    DigitRunAll(n);
    DigitRunPrefix(n, rest);
  }

  /** A line `n sent, l lost<x>` matches with the duplicate count the
      search over `x` finds. */
  lemma PacketsRead(n: string, l: string, x: string, v: nat)
    requires IsDigits(n) && IsDigits(l)
    requires LastDuplicates(x, |x|) == Some(v)
    ensures MatchPackets(n + (" sent, " + (l + (" lost" + x)))) == Some((DigitsValue(n), DigitsValue(l), v))
  {
    var r1 := l + (" lost" + x);
    var line := n + (" sent, " + r1);
    NumberThen(n, " sent, " + r1);
    assert line[|n| + 7..] == r1;
    NumberThen(l, " lost" + x);
    assert r1[|l| + 5..] == x;
    MatchPacketsAt(line, |n|, |l|, v);
  }

  /** `owping`'s summary line `n sent, l lost <anything>, d duplicates`
      reads back as its three counts, whatever the text in the middle. */
  lemma SummaryLineRead(n: string, l: string, mid: string, d: string)
    requires IsDigits(n) && IsDigits(l) && IsDigits(d)
    ensures MatchPackets(n + (" sent, " + (l + (" lost" + (mid + (", " + d + " duplicates"))))))
         == Some((DigitsValue(n), DigitsValue(l), DigitsValue(d)))
  {
    LastIsTail(mid, d);
    PacketsRead(n, l, mid + (", " + d + " duplicates"), DigitsValue(d));
  }

  /** Text ending in `, d duplicates` matches there. */
  lemma LastIsTail(pre: string, d: string)
    requires IsDigits(d)
    ensures var x := pre + (", " + d + " duplicates");
            LastDuplicates(x, |x|) == Some(DigitsValue(d))
  {
    var tail := ", " + d + " duplicates";
    var x := pre + tail;
    var p := |pre|;
    assert x[p..] == tail;
    DuplicatesTail(x, p, d);
    NoLaterDuplicates(x, p, d);
    LastDuplicatesAt(x, p, |x|);
  }

  /** The tail `, d duplicates` matches where it starts. */
  lemma DuplicatesTail(line: string, p: nat, d: string)
    requires IsDigits(d) && p <= |line| && line[p..] == ", " + d + " duplicates"
    ensures DuplicatesAt(line, p) == Some(DigitsValue(d))
  {
    var s := line[p..];
    assert s[..2] == ", ";
    assert s[2..] == d + " duplicates";
    DigitRunAll(d);
    DigitRunPrefix(d, " duplicates");
    assert s[2..][..|d|] == d;
    assert s[2 + |d|..] == " duplicates";
  }

  /** Past its first character the tail `, d duplicates` has no comma. */
  lemma NoCommaInTail(d: string)
    requires IsDigits(d)
    ensures var tail := ", " + d + " duplicates";
            forall j :: 1 <= j < |tail| ==> tail[j] != ','
  {
    var tail := ", " + d + " duplicates";
    forall j | 1 <= j < |tail| ensures tail[j] != ',' {
      if j == 1 {
        assert tail[j] == ' ';
      } else if j < 2 + |d| {
        assert tail[j] == d[j - 2];
      } else {
        assert tail[j] == " duplicates"[j - 2 - |d|];
      }
    }
  }

  /** No position inside the tail `, d duplicates` after its start matches. */
  lemma NoLaterDuplicates(line: string, p: nat, d: string)
    requires IsDigits(d) && p <= |line| && line[p..] == ", " + d + " duplicates"
    ensures forall k :: p < k <= |line| ==> DuplicatesAt(line, k).None?
  {
    NoCommaInTail(d);
    forall k | p < k <= |line| ensures DuplicatesAt(line, k).None? {
      assert k < |line| ==> line[k] == line[p..][k - p];
    }
  }

  lemma {:induction false} LastDuplicatesAt(x: string, p: nat, top: nat)
    requires p <= top <= |x|
    requires DuplicatesAt(x, p).Some?
    requires forall k :: p < k <= top ==> DuplicatesAt(x, k).None?
    ensures LastDuplicates(x, top) == DuplicatesAt(x, p)
    decreases top
  {
    if top > p {
      LastDuplicatesAt(x, p, top - 1);
    }
  }

  /** `MatchJitter` once the number and the " ms" after it are found. */
  lemma MatchJitterAt(line: string, n: nat)
    requires StartsWith(line, JitterHead)
    requires n == DecimalLength(line[|JitterHead|..]) && n > 0
    requires StartsWith(line[|JitterHead|..][n..], " ms")
    ensures MatchJitter(line) == PyFloat(line[|JitterHead|..][..n])
  {
  }

  /** `owping`'s jitter line reads back as its value. */
  lemma JitterLineRead(whole: string, frac: string, rest: string)
    requires IsDigits(whole) && IsDigits(frac)
    ensures MatchJitter(JitterHead + (whole + "." + frac) + " ms" + rest)
         == Some(DecimalValue(whole, frac))
  {
    var text := whole + "." + frac;
    var line := JitterHead + text + " ms" + rest;
    var after := text + (" ms" + rest);
    assert line == JitterHead + after;
    assert line[|JitterHead|..] == after;
    assert after == whole + "." + frac + (" ms" + rest);
    FractionLengthThen(whole, frac, " ms" + rest);
    assert after[..|text|] == text;
    assert after[|text|..] == " ms" + rest;
    MatchJitterAt(line, |text|);
    PyFloatFraction(whole, frac);
  }
}

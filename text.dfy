/** The string operations of Python 2's `str` and `posixpath` that the tools
    rely on, over ASCII text: whitespace stripping and splitting, `split(sep)`,
    `startswith`/`endswith`/`in`, `replace`, `lower`, `int()`, `float()`,
    `os.path.basename` and `os.path.dirname`. */
module Text {
  import opened Base

  /** Python 2's `str.isspace` characters, also what `\s` and `strip()` use. */
  predicate IsSpace(c: char) {
    c == ' ' || c == '\t' || c == '\n' || c == '\r' || c == '\U{0B}' || c == '\U{0C}'
  }

  predicate IsDigit(c: char) { '0' <= c <= '9' }

  predicate NoSpace(t: string) {
    forall j :: 0 <= j < |t| ==> !IsSpace(t[j])
  }

  /** Python 2's `str.isdigit()`: non-empty and all ASCII digits. */
  predicate IsDigits(t: string) {
    t != [] && forall j :: 0 <= j < |t| ==> IsDigit(t[j])
  }

  // ---------------------------------------------------------------- prefixes

  predicate StartsWith(s: string, p: string) {
    |p| <= |s| && s[..|p|] == p
  }

  predicate EndsWith(s: string, p: string) {
    |p| <= |s| && s[|s| - |p|..] == p
  }

  /** Python's `p in s` for strings. */
  predicate Contains(s: string, p: string)
    decreases |s|
  {
    StartsWith(s, p) || (s != [] && Contains(s[1..], p))
  }

  lemma {:induction false} ContainsInfix(a: string, p: string, b: string)
    ensures Contains(a + p + b, p)
    decreases |a|
  {
    if a == [] {
      assert (a + p + b)[..|p|] == p;
    } else {
      assert (a + p + b)[1..] == a[1..] + p + b;
      ContainsInfix(a[1..], p, b);
    }
  }

  // ------------------------------------------------------------- whitespace

  /** Number of leading whitespace characters. */
  function LeadingSpaces(s: string): (n: nat)
    ensures n <= |s|
    ensures forall j :: 0 <= j < n ==> IsSpace(s[j])
    ensures n < |s| ==> !IsSpace(s[n])
  {
    if s == [] || !IsSpace(s[0]) then 0 else 1 + LeadingSpaces(s[1..])
  }

  /** Length of the leading run of non-whitespace characters. */
  function TokenLength(s: string): (n: nat)
    ensures n <= |s|
    ensures forall j :: 0 <= j < n ==> !IsSpace(s[j])
    ensures n < |s| ==> IsSpace(s[n])
  {
    if s == [] || IsSpace(s[0]) then 0 else 1 + TokenLength(s[1..])
  }

  function TrimLeft(s: string): (t: string)
    ensures t == s[LeadingSpaces(s)..]
  {
    s[LeadingSpaces(s)..]
  }

  function TrimRight(s: string): (t: string)
    ensures |t| <= |s| && t == s[..|t|]
    ensures t != [] ==> !IsSpace(t[|t| - 1])
    ensures forall j :: |t| <= j < |s| ==> IsSpace(s[j])
  {
    if s == [] || !IsSpace(s[|s| - 1]) then s else TrimRight(s[..|s| - 1])
  }

  /** `s.rstrip(c)` for a single character `c`. */
  function TrimRightChar(s: string, c: char): (t: string)
    ensures |t| <= |s| && t == s[..|t|]
    ensures t != [] ==> t[|t| - 1] != c
    ensures forall j :: |t| <= j < |s| ==> s[j] == c
  {
    if s == [] || s[|s| - 1] != c then s else TrimRightChar(s[..|s| - 1], c)
  }

  /** `s.strip()`: what is left once the leading and the trailing
      whitespace of `s` are removed. */
  function Strip(s: string): (t: string)
    ensures t != [] ==> !IsSpace(t[0]) && !IsSpace(t[|t| - 1])
    ensures |t| <= |s|
  {
    TrimRight(s[LeadingSpaces(s)..])
  }

  /** `strip()` removes exactly the leading whitespace and the trailing
      whitespace: what is left is the slice of `s` after its leading
      whitespace, and only whitespace follows it. */
  lemma StripRemoves(s: string)
    ensures var a := LeadingSpaces(s); a + |Strip(s)| <= |s| && Strip(s) == s[a..a + |Strip(s)|]
    ensures forall j :: LeadingSpaces(s) + |Strip(s)| <= j < |s| ==> IsSpace(s[j])
  {
    StripSlice(s, LeadingSpaces(s), Strip(s));
  }

  /** What is left of `s[a..]` after trailing whitespace is removed is a
      slice of `s`, followed only by whitespace. */
  lemma StripSlice(s: string, a: nat, t: string)
    requires a <= |s| && |t| <= |s| - a && t == s[a..][..|t|]
    requires forall j :: |t| <= j < |s| - a ==> IsSpace(s[a..][j])
    ensures t == s[a..a + |t|]
    ensures forall j :: a + |t| <= j < |s| ==> IsSpace(s[j])
  {
    assert forall j :: a <= j < |s| ==> s[j] == s[a..][j - a];
  }

  /** `s.split()`: the maximal runs of non-whitespace characters. */
  function Split(s: string): (r: seq<string>)
    ensures forall i :: 0 <= i < |r| ==> r[i] != [] && NoSpace(r[i])
    decreases |s|
  {
    var t := TrimLeft(s);
    if t == [] then []
    else
      var n := TokenLength(t);
      [t[..n]] + Split(t[n..])
  }

  function JoinWith(parts: seq<string>, sep: char): (s: string)
  {
    if parts == [] then []
    else if |parts| == 1 then parts[0]
    else parts[0] + [sep] + JoinWith(parts[1..], sep)
  }

  /** Splitting a space-joined list of tokens gives the tokens back. */
  lemma {:induction false} SplitJoin(ts: seq<string>)
    requires forall i :: 0 <= i < |ts| ==> ts[i] != [] && NoSpace(ts[i])
    ensures Split(JoinWith(ts, ' ')) == ts
    decreases |ts|
  {
    if ts == [] {
    } else if |ts| == 1 {
      SplitCons(ts[0], []);
      assert ts[0] + [] == ts[0];
    } else {
      var rest := JoinWith(ts[1..], ' ');
      assert JoinWith(ts, ' ') == ts[0] + ([' '] + rest);
      SplitCons(ts[0], [' '] + rest);
      SplitLeadingSpace(rest);
      SplitJoin(ts[1..]);
    }
  }

  lemma SplitCons(t: string, rest: string)
    requires t != [] && NoSpace(t)
    requires rest == [] || IsSpace(rest[0])
    ensures Split(t + rest) == [t] + Split(rest)
  {
    var s := t + rest;
    assert LeadingSpaces(s) == 0 by { assert s[0] == t[0]; }
    assert TrimLeft(s) == s;
    TokenLengthOf(t, rest);
    assert s[..|t|] == t;
    assert s[|t|..] == rest;
  }

  lemma SplitLeadingSpace(rest: string)
    ensures Split([' '] + rest) == Split(rest)
  {
    var s := [' '] + rest;
    assert s[1..] == rest;
    assert LeadingSpaces(s) == 1 + LeadingSpaces(rest);
    assert TrimLeft(s) == TrimLeft(rest);
  }

  lemma TokenLengthOf(t: string, rest: string)
    requires NoSpace(t)
    requires rest == [] || IsSpace(rest[0])
    ensures TokenLength(t + rest) == |t|
    decreases |t|
  {
    if t != [] {
      assert (t + rest)[1..] == t[1..] + rest;
      TokenLengthOf(t[1..], rest);
    }
  }

  /** `s.split(sep)`: always at least one part; separators are dropped and
      empty parts kept. */
  function SplitOn(s: string, sep: char): (parts: seq<string>)
    ensures |parts| >= 1
    ensures forall i :: 0 <= i < |parts| ==> sep !in parts[i]
    decreases |s|
  {
    if s == [] then [[]]
    else if s[0] == sep then [[]] + SplitOn(s[1..], sep)
    else
      var rest := SplitOn(s[1..], sep);
      [[s[0]] + rest[0]] + rest[1..]
  }

  /** Joining the parts of a split with the same separator rebuilds the text. */
  lemma {:induction false} JoinSplitOn(s: string, sep: char)
    ensures JoinWith(SplitOn(s, sep), sep) == s
    decreases |s|
  {
    if s == [] {
    } else if s[0] == sep {
      JoinSplitOn(s[1..], sep);
      var rest := SplitOn(s[1..], sep);
      assert SplitOn(s, sep) == [[]] + rest;
      assert ([[]] + rest)[1..] == rest;
    } else {
      JoinSplitOn(s[1..], sep);
      var rest := SplitOn(s[1..], sep);
      var parts := SplitOn(s, sep);
      assert parts == [[s[0]] + rest[0]] + rest[1..];
      if |rest| == 1 {
      } else {
        assert parts[1..] == rest[1..];
        assert JoinWith(rest, sep) == rest[0] + [sep] + JoinWith(rest[1..], sep);
      }
    }
  }

  /** Splitting a joined list of separator-free parts gives the parts back. */
  lemma {:induction false} SplitOnJoin(parts: seq<string>, sep: char)
    requires parts != []
    requires forall i :: 0 <= i < |parts| ==> sep !in parts[i]
    ensures SplitOn(JoinWith(parts, sep), sep) == parts
    decreases |parts|, |parts[0]|
  {
    var p0 := parts[0];
    if |parts| == 1 {
      SplitOnNoSep(p0, sep, []);
      assert p0 + [] == p0;
    } else {
      var rest := JoinWith(parts[1..], sep);
      assert JoinWith(parts, sep) == p0 + [sep] + rest;
      SplitOnJoin(parts[1..], sep);
      SplitOnNoSep(p0, sep, [sep] + rest);
      assert SplitOn([sep] + rest, sep) == [[]] + SplitOn(rest, sep) by {
        assert ([sep] + rest)[1..] == rest;
      }
      assert p0 + ([sep] + rest) == p0 + [sep] + rest;
      var st := SplitOn([sep] + rest, sep);
      assert st[0] == [] && st[1..] == parts[1..];
      assert p0 + st[0] == p0;
      assert [p0] + parts[1..] == parts;
    }
  }

  /** Splitting `t + tail`, where `t` holds no separator and `tail` is empty
      or starts with one, glues `t` to the first part of `tail`'s split. */
  lemma {:induction false} SplitOnNoSep(t: string, sep: char, tail: string)
    requires sep !in t
    requires tail == [] || tail[0] == sep
    ensures SplitOn(t + tail, sep) == [t + SplitOn(tail, sep)[0]] + SplitOn(tail, sep)[1..]
    ensures tail == [] ==> SplitOn(t + tail, sep) == [t]
    ensures tail != [] ==> SplitOn(tail, sep)[0] == []
    decreases |t|
  {
    var st := SplitOn(tail, sep);
    if tail != [] {
      assert st == [[]] + SplitOn(tail[1..], sep);
    }
    if t == [] {
      assert t + tail == tail;
      assert [t + st[0]] + st[1..] == st;
    } else {
      assert (t + tail)[1..] == t[1..] + tail;
      SplitOnNoSep(t[1..], sep, tail);
      var r := SplitOn(t[1..] + tail, sep);
      assert r == [t[1..] + st[0]] + st[1..];
      assert SplitOn(t + tail, sep) == [[t[0]] + r[0]] + r[1..];
      assert [t[0]] + (t[1..] + st[0]) == t + st[0];
    }
    if tail == [] {
      assert st == [[]];
      assert t + tail == t && t + st[0] == t;
    }
  }

  // ---------------------------------------------------------------- rewrites

  /** `s.replace(pat, rep)`: non-overlapping occurrences, left to right. */
  function ReplaceAll(s: string, pat: string, rep: string): (r: string)
    requires pat != []
    decreases |s|
  {
    if s == [] then []
    else if StartsWith(s, pat) then rep + ReplaceAll(s[|pat|..], pat, rep)
    else [s[0]] + ReplaceAll(s[1..], pat, rep)
  }

  /** A text without the pattern is left alone by `replace`. */
  lemma {:induction false} ReplaceAbsent(s: string, pat: string, rep: string)
    requires pat != []
    requires !Contains(s, pat)
    ensures ReplaceAll(s, pat, rep) == s
    decreases |s|
  {
    if s != [] {
      ReplaceAbsent(s[1..], pat, rep);
    }
  }

  function LowerChar(c: char): char {
    if 'A' <= c <= 'Z' then (c as int - 'A' as int + 'a' as int) as char else c
  }

  /** `s.lower()` on ASCII text. */
  function Lower(s: string): (r: string)
    ensures |r| == |s|
    ensures forall j :: 0 <= j < |s| ==> r[j] == LowerChar(s[j])
  {
    if s == [] then [] else [LowerChar(s[0])] + Lower(s[1..])
  }

  /** Number of leading copies of `c`. */
  function LeadingRun(s: string, c: char): (n: nat)
    ensures n <= |s|
    ensures forall j :: 0 <= j < n ==> s[j] == c
    ensures n < |s| ==> s[n] != c
  {
    if s == [] || s[0] != c then 0 else 1 + LeadingRun(s[1..], c)
  }

  /** `s.strip(c)` for a single character `c`: what is left once the
      leading and the trailing copies of `c` are removed. */
  function StripChar(s: string, c: char): (t: string)
    ensures |t| <= |s|
    ensures t != [] ==> t[0] != c && t[|t| - 1] != c
  {
    var a := LeadingRun(s, c);
    var t := TrimRightChar(s[a..], c);
    assert t != [] ==> t[0] == s[a];
    t
  }

  /** `strip(c)` removes exactly the leading and the trailing copies of
      `c`: what is left is the slice of `s` after its leading copies, and
      only copies of `c` follow it. */
  lemma StripCharRemoves(s: string, c: char)
    ensures var a := LeadingRun(s, c); a + |StripChar(s, c)| <= |s| && StripChar(s, c) == s[a..a + |StripChar(s, c)|]
    ensures forall j :: LeadingRun(s, c) + |StripChar(s, c)| <= j < |s| ==> s[j] == c
  {
    StripCharSlice(s, c, LeadingRun(s, c), StripChar(s, c));
  }

  /** What is left of `s[a..]` after trailing copies of `c` are removed is
      a slice of `s`, followed only by `c`. */
  lemma StripCharSlice(s: string, c: char, a: nat, t: string)
    requires a <= |s| && |t| <= |s| - a && t == s[a..][..|t|]
    requires forall j :: |t| <= j < |s| - a ==> s[a..][j] == c
    ensures t == s[a..a + |t|]
    ensures forall j :: a + |t| <= j < |s| ==> s[j] == c
  {
    assert forall j :: a <= j < |s| ==> s[j] == s[a..][j - a];
  }

  // ----------------------------------------------------------------- numbers

  /** Length of the leading run of digits. */
  function DigitRun(s: string): (n: nat)
    ensures n <= |s|
    ensures forall j :: 0 <= j < n ==> IsDigit(s[j])
    ensures n < |s| ==> !IsDigit(s[n])
  {
    if s == [] || !IsDigit(s[0]) then 0 else 1 + DigitRun(s[1..])
  }

  /** The value of a run of decimal digits. */
  function DigitsValue(s: string): (v: nat)
    requires forall j :: 0 <= j < |s| ==> IsDigit(s[j])
    decreases |s|
  {
    if s == [] then 0
    else
      assert IsDigit(s[|s| - 1]);
      DigitsValue(s[..|s| - 1]) * 10 + (s[|s| - 1] as int - '0' as int)
  }

  /** An optional leading sign: whether it is '-', and the text after it. */
  function Sign(t: string): (r: (bool, string))
    ensures |r.1| <= |t|
  {
    if t != [] && (t[0] == '-' || t[0] == '+') then (t[0] == '-', t[1..]) else (false, t)
  }

  /** Python 2's `int(s)` in base 10: surrounding whitespace, an optional sign
      and at least one digit; None stands for the ValueError it raises. */
  function PyInt(s: string): (r: Option<int>)
  {
    var (negative, body) := Sign(Strip(s));
    if !IsDigits(body) then None
    else
      var v: int := DigitsValue(body);
      Some(if negative then -v else v)
  }

  /** The exact value of `digits.fraction`. */
  function DecimalValue(whole: string, frac: string): (v: real)
    requires forall j :: 0 <= j < |whole| ==> IsDigit(whole[j])
    requires forall j :: 0 <= j < |frac| ==> IsDigit(frac[j])
  {
    DigitsValue(whole) as real + (DigitsValue(frac) as real) / (Pow10(|frac|) as real)
  }

  function Pow10(n: nat): (p: nat)
    ensures p >= 1
  {
    if n == 0 then 1 else 10 * Pow10(n - 1)
  }

  /** Python 2's `float(s)` on finite text: surrounding whitespace, an
      optional sign, digits with at most one '.' and at least one digit,
      then optionally `e` or `E` and a signed decimal exponent. */
  function PyFloat(s: string): (r: Option<real>)
  {
    var (negative, body) := Sign(Strip(s));
    match Scaled(body)
    case None => None
    case Some(v) => Some(if negative then -v else v)
  }

  predicate IsExponentMark(c: char) {
    c == 'e' || c == 'E'
  }

  /** Index of the first `e` or `E`. */
  function ExponentMark(s: string): (r: Option<nat>)
    ensures r.Some? ==> r.value < |s| && IsExponentMark(s[r.value])
                        && forall j :: 0 <= j < r.value ==> !IsExponentMark(s[j])
    ensures r.None? ==> forall j :: 0 <= j < |s| ==> !IsExponentMark(s[j])
  {
    if s == [] then None
    else if IsExponentMark(s[0]) then Some(0)
    else
      match ExponentMark(s[1..])
      case None => None
      case Some(k) => Some(k + 1)
  }

  /** An unsigned mantissa, scaled by ten to the power of the exponent
      when there is one. */
  function Scaled(body: string): (r: Option<real>)
  {
    match ExponentMark(body)
    case None => Unsigned(body)
    case Some(k) =>
      var (down, digits) := Sign(body[k + 1..]);
      if !IsDigits(digits) then None
      else
        match Unsigned(body[..k])
        case None => None
        case Some(m) => Some(Scale(m, down, DigitsValue(digits)))
  }

  /** `m` times ten to the power `e`, or divided by it when `down`. */
  function Scale(m: real, down: bool, e: nat): real {
    var p := Pow10(e) as real;
    if down then m / p else m * p
  }

  /** Text with no `e` or `E` is read as plain decimal text. */
  lemma ScaledPlain(body: string)
    requires forall j :: 0 <= j < |body| ==> IsDigit(body[j]) || body[j] == '.'
    ensures Scaled(body) == Unsigned(body)
  {
    assert forall j :: 0 <= j < |body| ==> !IsExponentMark(body[j]);
  }

  /** A mantissa, `e` and unsigned exponent digits: the mantissa times a
      power of ten. */
  lemma ScaledUp(mantissa: string, digits: string)
    requires forall j :: 0 <= j < |mantissa| ==> !IsExponentMark(mantissa[j])
    requires IsDigits(digits)
    ensures var m := Unsigned(mantissa);
            Scaled(mantissa + "e" + digits)
            == if m.None? then None else Some(Scale(m.value, false, DigitsValue(digits)))
  {
    var s := mantissa + "e" + digits;
    assert s == mantissa + ("e" + digits);
    ExponentMarkAfter(mantissa, "e" + digits);
    var k := |mantissa|;
    assert s[..k] == mantissa;
    assert s[k + 1..] == digits;
    assert Sign(digits) == (false, digits);
    assert ExponentMark(s) == Some(k);
    assert Sign(s[k + 1..]) == (false, digits);
  }

  /** The first mark of `a + b` is in `b` when `a` has none. */
  lemma {:induction false} ExponentMarkAfter(a: string, b: string)
    requires forall j :: 0 <= j < |a| ==> !IsExponentMark(a[j])
    ensures ExponentMark(a + b) == if ExponentMark(b).None? then None else Some(|a| + ExponentMark(b).value)
    decreases |a|
  {
    if a == [] {
      assert a + b == b;
    } else {
      assert (a + b)[1..] == a[1..] + b;
      ExponentMarkAfter(a[1..], b);
    }
  }

  /** `float("1e3")`, as a tcptrace value may be written, is a thousand. */
  lemma ExponentExample()
    ensures Scaled("1e3") == Some(1000.0)
  {
    assert "1e3" == "1" + "e" + "3";
    ScaledUp("1", "3");
    assert DigitRun("1") == 1;
    assert Unsigned("1") == Some(1.0);
    assert DigitsValue("3") == 3;
  }

  /** Digits with at most one '.' and at least one digit, as a value. */
  function Unsigned(body: string): (r: Option<real>)
  {
    var w := DigitRun(body);
    var rest := body[w..];
    if rest == [] then
      if w == 0 then None else Some(DigitsValue(body) as real)
    else if rest[0] != '.' then None
    else
      var f := DigitRun(rest[1..]);
      if f != |rest| - 1 || w + f == 0 then None
      else Some(DecimalValue(body[..w], rest[1..]))
  }

  /** Whatever `int()` accepts, `float()` accepts with the same value. */
  lemma PyIntIsPyFloat(s: string)
    requires PyInt(s).Some?
    ensures PyFloat(s) == Some(PyInt(s).value as real)
  {
    var body := Sign(Strip(s)).1;
    ScaledPlain(body);
    DigitRunAll(body);
    assert body[|body|..] == [];
  }

  lemma DigitRunAll(s: string)
    requires forall j :: 0 <= j < |s| ==> IsDigit(s[j])
    ensures DigitRun(s) == |s|
  {
    if s != [] {
      DigitRunAll(s[1..]);
    }
  }

  /** Length of the greedy `\d+\.?\d*` at the start of `s`, 0 when `s`
      does not start with a digit. */
  function DecimalLength(s: string): (n: nat)
    ensures n <= |s|
    ensures n > 0 ==> IsDigit(s[0])
  {
    var w := DigitRun(s);
    if w == 0 then 0
    else if w < |s| && s[w] == '.' then w + 1 + DigitRun(s[w + 1..])
    else w
  }

  lemma DecimalLengthOf(digits: string, suffix: string)
    requires IsDigits(digits)
    requires suffix == [] || (!IsDigit(suffix[0]) && suffix[0] != '.')
    ensures DecimalLength(digits + suffix) == |digits|
  {
    DigitRunAll(digits);
    DigitRunPrefix(digits, suffix);
  }

  lemma {:induction false} DigitRunPrefix(digits: string, suffix: string)
    requires forall j :: 0 <= j < |digits| ==> IsDigit(digits[j])
    requires suffix == [] || !IsDigit(suffix[0])
    ensures DigitRun(digits + suffix) == |digits|
    decreases |digits|
  {
    if digits != [] {
      assert (digits + suffix)[1..] == digits[1..] + suffix;
      DigitRunPrefix(digits[1..], suffix);
    } else {
      assert digits + suffix == suffix;
    }
  }

  lemma FractionLength(whole: string, frac: string)
    requires IsDigits(whole) && IsDigits(frac)
    ensures DecimalLength(whole + "." + frac) == |whole| + 1 + |frac|
  {
    var s := whole + "." + frac;
    assert s == whole + ("." + frac);
    DigitRunPrefix(whole, "." + frac);
    assert s[|whole| + 1..] == frac;
    DigitRunAll(frac);
  }

  /** The greedy `\d+\.?\d*` stops at the end of `whole.frac` when what
      follows is not a digit. */
  lemma FractionLengthThen(whole: string, frac: string, suffix: string)
    requires IsDigits(whole) && IsDigits(frac)
    requires suffix == [] || !IsDigit(suffix[0])
    ensures DecimalLength(whole + "." + frac + suffix) == |whole| + 1 + |frac|
  {
    var s := whole + "." + frac + suffix;
    assert s == whole + ("." + (frac + suffix));
    DigitRunPrefix(whole, "." + (frac + suffix));
    assert s[|whole| + 1..] == frac + suffix;
    DigitRunPrefix(frac, suffix);
  }

  /** `float()` of `\d+\.\d*` text is its decimal value. */
  lemma PyFloatFraction(whole: string, frac: string)
    requires IsDigits(whole) && forall j :: 0 <= j < |frac| ==> IsDigit(frac[j])
    ensures PyFloat(whole + "." + frac) == Some(DecimalValue(whole, frac))
  {
    var s := whole + "." + frac;
    assert s == whole + ("." + frac);
    assert !IsSpace(s[0]) && !IsSpace(s[|s| - 1]);
    StripUnchanged(s);
    assert Sign(s) == (false, s);
    assert forall j :: 0 <= j < |s| ==> IsDigit(s[j]) || s[j] == '.' by {
      forall j | 0 <= j < |s| ensures IsDigit(s[j]) || s[j] == '.' {
        if j < |whole| {
          assert s[j] == whole[j];
        } else if j > |whole| {
          assert s[j] == frac[j - |whole| - 1];
        }
      }
    }
    ScaledPlain(s);
    UnsignedFraction(whole, frac);
  }

  lemma UnsignedFraction(whole: string, frac: string)
    requires IsDigits(whole) && forall j :: 0 <= j < |frac| ==> IsDigit(frac[j])
    ensures Unsigned(whole + "." + frac) == Some(DecimalValue(whole, frac))
  {
    var s := whole + "." + frac;
    assert s == whole + ("." + frac);
    DigitRunAll(whole);
    DigitRunPrefix(whole, "." + frac);
    assert s[..|whole|] == whole;
    assert s[|whole|..] == "." + frac;
    assert ("." + frac)[1..] == frac;
    DigitRunAll(frac);
  }

  // ---------------------------------------------------------------- search

  /** Index of the first occurrence of `c`. */
  function IndexOf(s: string, c: char): (r: Option<nat>)
    ensures r.Some? ==> r.value < |s| && s[r.value] == c && c !in s[..r.value]
    ensures r.None? ==> c !in s
  {
    if s == [] then None
    else if s[0] == c then Some(0)
    else
      match IndexOf(s[1..], c)
      case None => None
      case Some(k) =>
        assert s[..k + 1] == [s[0]] + s[1..][..k];
        Some(k + 1)
  }

  /** The first `c` of `a + [c] + b` is the one after `a` when `a` has none. */
  lemma {:induction false} IndexOfAfter(a: string, c: char, b: string)
    requires c !in a
    ensures IndexOf(a + [c] + b, c) == Some(|a|)
    decreases |a|
  {
    if a != [] {
      assert (a + [c] + b)[1..] == a[1..] + [c] + b;
      IndexOfAfter(a[1..], c, b);
    }
  }

  lemma {:induction false} LeadingSpacesOf(ws: string, rest: string)
    requires forall j :: 0 <= j < |ws| ==> IsSpace(ws[j])
    requires rest == [] || !IsSpace(rest[0])
    ensures LeadingSpaces(ws + rest) == |ws|
    decreases |ws|
  {
    if ws == [] {
      assert ws + rest == rest;
    } else {
      assert (ws + rest)[1..] == ws[1..] + rest;
      LeadingSpacesOf(ws[1..], rest);
    }
  }

  /** `a: x` with no colon in `a`: the first colon follows `a`. */
  lemma ColonAfter(a: string, x: string)
    requires ':' !in a
    ensures IndexOf(a + (": " + x), ':') == Some(|a|)
    ensures (a + (": " + x))[..|a|] == a
    ensures (a + (": " + x))[|a| + 1..] == " " + x
  {
    assert ": " + x == [':'] + (" " + x);
    AppendAssoc(a, [':'], " " + x);
    IndexOfAfter(a, ':', " " + x);
  }

  /** One space before non-space text. */
  lemma SpaceThen(x: string)
    requires x != [] && !IsSpace(x[0])
    ensures LeadingSpaces(" " + x) == 1
    ensures (" " + x)[1..] == x
  {
    LeadingSpacesOf(" ", x);
  }

  /** A token followed by a space. */
  lemma TokenThen(t: string, x: string)
    requires t != [] && NoSpace(t)
    ensures TokenLength(t + (" " + x)) == |t|
    ensures (t + (" " + x))[..|t|] == t
    ensures (t + (" " + x))[|t|..] == " " + x
  {
    TokenLengthOf(t, " " + x);
  }

  /** Text that neither starts nor ends with whitespace is its own `strip()`. */
  lemma StripUnchanged(s: string)
    requires s == [] || (!IsSpace(s[0]) && !IsSpace(s[|s| - 1]))
    ensures Strip(s) == s
  {
    assert LeadingSpaces(s) == 0;
    assert TrimLeft(s) == s;
  }

  // ------------------------------------------------------------------ paths

  function LastIndexOf(s: string, c: char): (r: Option<nat>)
    ensures r.Some? ==> r.value < |s| && s[r.value] == c
    ensures r.Some? ==> forall j :: r.value < j < |s| ==> s[j] != c
    ensures r.None? ==> c !in s
  {
    if s == [] then None
    else if s[|s| - 1] == c then Some(|s| - 1)
    else LastIndexOf(s[..|s| - 1], c)
  }

  /** Where the last path segment starts: just after the last '/'. */
  function SegmentStart(p: string): (i: nat)
    ensures i <= |p|
  {
    match LastIndexOf(p, '/')
    case None => 0
    case Some(k) => k + 1
  }

  predicate AllSlashes(s: string) {
    forall j :: 0 <= j < |s| ==> s[j] == '/'
  }

  /** `os.path.basename(p)`. */
  function Basename(p: string): (b: string)
    ensures '/' !in b
  {
    p[SegmentStart(p)..]
  }

  /** `os.path.dirname(p)`: the head up to the last '/', with trailing slashes
      removed unless the head is nothing but slashes. */
  function Dirname(p: string): (d: string)
    ensures |d| <= |p|
  {
    var head := p[..SegmentStart(p)];
    if head != [] && !AllSlashes(head) then TrimRightChar(head, '/') else head
  }

  /** Going up a level always shortens a path, except a path of two or more
      slashes, which `dirname` returns unchanged. */
  lemma DirnameShortens(p: string)
    requires p != []
    ensures AllSlashes(p) ==> Dirname(p) == p
    ensures !AllSlashes(p) ==> |Dirname(p)| < |p|
  {
    var i := SegmentStart(p);
    var head := p[..i];
    if AllSlashes(p) {
      assert LastIndexOf(p, '/') == Some(|p| - 1);
      assert head == p;
    } else if i == |p| {
      assert head == p;
      assert p[|p| - 1] == '/' by {
        assert LastIndexOf(p, '/').Some?;
      }
    }
  }

  /** `os.path.join(a, x)` for a directory `a` not ending in '/'. */
  function Child(a: string, x: string): string {
    a + ("/" + x)
  }

  lemma {:induction false} LastIndexOfBefore(a: string, c: char, b: string)
    requires c !in b
    ensures LastIndexOf(a + ([c] + b), c) == Some(|a|)
    decreases |b|
  {
    var s := a + ([c] + b);
    if b != [] {
      var init := b[..|b| - 1];
      assert s[..|s| - 1] == a + ([c] + init);
      LastIndexOfBefore(a, c, init);
    }
  }

  /** The last segment of `a/x` is `x`, and going up from it gives `a`
      back when `a` does not end in '/'. */
  lemma ChildParts(a: string, x: string)
    requires '/' !in x
    ensures Basename(Child(a, x)) == x
    ensures a != [] && a[|a| - 1] != '/' ==> Dirname(Child(a, x)) == a
  {
    var p := Child(a, x);
    LastIndexOfBefore(a, '/', x);
    assert SegmentStart(p) == |a| + 1;
    assert p[|a| + 1..] == x;
    var head := p[..|a| + 1];
    assert head == a + "/";
    if a != [] && a[|a| - 1] != '/' {
      assert !AllSlashes(head) by {
        assert head[|a| - 1] == a[|a| - 1];
      }
      assert head[..|head| - 1] == a;
      assert TrimRightChar(head, '/') == TrimRightChar(a, '/');
      assert TrimRightChar(a, '/') == a;
    }
  }

  /** `a/x`, for a segment `x` that is not empty and has no '/', is not a
      root and ends in the last character of `x`. */
  lemma ChildEnd(a: string, x: string)
    requires '/' !in x && x != []
    ensures var p := Child(a, x); p != [] && p[|p| - 1] == x[|x| - 1] && p[|p| - 1] != '/' && !AllSlashes(p)
  {
    var p := Child(a, x);
    assert p[|p| - 1] == x[|x| - 1];
    assert x[|x| - 1] in x;
  }

  /** Going up keeps a prefix of the path. */
  lemma DirnamePrefix(p: string)
    ensures Dirname(p) == p[..|Dirname(p)|]
  {
  }

  /** A text without the separator splits into itself. */
  lemma SplitOnSingle(t: string, sep: char)
    requires sep !in t
    ensures SplitOn(t, sep) == [t]
  {
    SplitOnNoSep(t, sep, []);
    assert t + [] == t;
  }

  /** A text holding `p` holds every character of `p`. */
  lemma {:induction false} ContainsChar(s: string, p: string, c: char)
    requires Contains(s, p) && c in p
    ensures c in s
    decreases |s|
  {
    if StartsWith(s, p) {
      var k :| 0 <= k < |p| && p[k] == c;
      assert s[k] == c;
    } else {
      ContainsChar(s[1..], p, c);
      assert s[1..] == s[1..];
      var k :| 0 <= k < |s[1..]| && s[1..][k] == c;
      assert s[k + 1] == c;
    }
  }

  /** A path of two or more slashes starts with "//". */
  lemma SlashesStart(p: string)
    ensures AllSlashes(p) && |p| >= 2 ==> StartsWith(p, "//")
  {
    if AllSlashes(p) && |p| >= 2 {
      assert p[..2] == [p[0], p[1]];
    }
  }
}

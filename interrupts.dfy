/** `InterruptsReader` in tools/summarize_test_results.py: a copy of
    `/proc/interrupts`, a header naming the CPUs and then one row per
    interrupt source with its count on each CPU. Each row of at least three
    columns gives the total count of its source over the CPUs the header
    names, under a name made of lower-case letters, digits and `_`. A count
    that is not an integer raises `ValueError`, which ends the generator. */
module Interrupts {
  import opened Base
  import opened Text

  /** The characters `re.sub("[^a-z0-9_]", "_", irq)` keeps. */
  predicate NameChar(c: char) {
    'a' <= c <= 'z' || '0' <= c <= '9' || c == '_'
  }

  /** Every character outside `[a-z0-9_]` replaced by `_`. */
  function Normalize(s: string): (r: string)
    ensures |r| == |s|
    ensures forall j :: 0 <= j < |s| ==> r[j] == (if NameChar(s[j]) then s[j] else '_')
  {
    seq(|s|, j requires 0 <= j < |s| => if NameChar(s[j]) then s[j] else '_')
  }

  /** The source's name: the first column without its colon, or, when that
      is a number, the last column (the device); lower-cased, normalized. */
  function IrqName(fields: seq<string>): string
    requires fields != []
  {
    var first := StripChar(fields[0], ':');
    var irq := if IsDigits(first) then Lower(fields[|fields| - 1]) else first;
    Normalize(Lower(irq))
  }

  /** `fields[1:cpu_count+1]`: the per-CPU counts (fewer when the row is
      shorter). */
  function Counts(fields: seq<string>, cpuCount: nat): (cs: seq<string>)
    requires fields != []
    ensures |cs| <= cpuCount
  {
    if cpuCount + 1 <= |fields| then fields[1..cpuCount + 1] else fields[1..]
  }

  /** The sum of `int(val)`, None when one of them raises. */
  function SumInts(vals: seq<string>): Option<int>
    decreases |vals|
  {
    if vals == [] then Some(0)
    else
      match (SumInts(vals[..|vals| - 1]), PyInt(vals[|vals| - 1]))
      case (Some(s), Some(v)) => Some(s + v)
      case _ => None
  }

  /** What one row gives: nothing, a total under a name, or an exception. */
  datatype Row = Skipped | Total(name: string, count: int) | Raises

  function RowOf(raw: string, cpuCount: nat): Row {
    var fields := Split(Strip(raw));
    if |fields| < 3 then Skipped
    else
      match SumInts(Counts(fields, cpuCount))
      case None => Raises
      case Some(n) => Total(IrqName(fields), n)
  }

  /** Each row after the header, read with `cpu_count` CPUs. */
  function RowsOf(rows: seq<string>, cpuCount: nat): (rs: seq<Row>)
    ensures |rs| == |rows|
    ensures forall k :: 0 <= k < |rows| ==> rs[k] == RowOf(rows[k], cpuCount)
  {
    seq(|rows|, k requires 0 <= k < |rows| => RowOf(rows[k], cpuCount))
  }

  /** What the generator yields for rows read as `rs`. */
  function RowsFrom(rs: seq<Row>, side: Side): Yield
    decreases |rs|
  {
    if rs == [] then Yield([], false)
    else
      match rs[0]
      case Raises => Yield([], true)
      case Skipped => RowsFrom(rs[1..], side)
      case Total(name, n) =>
        var rest := RowsFrom(rs[1..], side);
        Yield([Triple(side, "int_" + name, Int(n))] + rest.out, rest.raised)
  }

  /** What `InterruptsReader(direction).readfile(f)` yields; an empty file
      reads as an empty header. */
  function ReadFrom(lines: seq<string>, side: Side): Yield {
    if lines == [] then Yield([], false)
    else RowsFrom(RowsOf(lines[1..], |Split(lines[0])|), side)
  }

  /** `InterruptsReader(direction).readfile(f)` over the lines of `f`. */
  method ReadFile(lines: seq<string>, side: Side) returns (r: Yield)
    ensures r == ReadFrom(lines, side)
  {
    if lines == [] {
      return Yield([], false);
    }
    var cpuCount := |Split(lines[0])|;
    var rows := lines[1..];
    ghost var rs := RowsOf(rows, cpuCount);
    var out := [];
    var i := 0;
    assert rs[0..] == rs;
    while i < |rows|
      invariant 0 <= i <= |rows|
      invariant RowsFrom(rs, side) == After(out, RowsFrom(rs[i..], side))
    {
      RowsFromStep(rs, i, side);
      var row := ReadRow(rows[i], cpuCount);
      if row.Raises? {
        return Yield(out, true);
      }
      if row.Total? {
        var t := Triple(side, "int_" + row.name, Int(row.count));
        AfterAppend(out, t, RowsFrom(rs[i + 1..], side));
        out := out + [t];
      }
      i := i + 1;
    }
    assert rs[i..] == [];
    r := Yield(out, false);
  }

  lemma RowsFromStep(rs: seq<Row>, i: nat, side: Side)
    requires i < |rs|
    ensures var rest := RowsFrom(rs[i + 1..], side);
            RowsFrom(rs[i..], side)
            == match rs[i]
               case Raises => Yield([], true)
               case Skipped => rest
               case Total(name, n) => Yield([Triple(side, "int_" + name, Int(n))] + rest.out, rest.raised)
  {
    assert rs[i..][1..] == rs[i + 1..];
  }

  /** The body of the loop for one row. */
  method ReadRow(raw: string, cpuCount: nat) returns (row: Row)
    ensures row == RowOf(raw, cpuCount)
  {
    var fields := Split(Strip(raw));
    if |fields| < 3 {
      return Skipped;
    }
    var irq := StripChar(fields[0], ':');
    if IsDigits(irq) {
      irq := Lower(fields[|fields| - 1]);
    }
    irq := Normalize(Lower(irq));
    var total := SumColumns(Counts(fields, cpuCount));
    row := if total.None? then Raises else Total(irq, total.value);
  }

  /** `for val in ...: total_interrupts += int(val)`, None when `int` raises. */
  method SumColumns(vals: seq<string>) returns (total: Option<int>)
    ensures total == SumInts(vals)
  {
    var sum := 0;
    var i := 0;
    while i < |vals|
      invariant 0 <= i <= |vals|
      invariant SumInts(vals[..i]) == Some(sum)
    {
      assert vals[..i + 1][..i] == vals[..i];
      var v := PyInt(vals[i]);
      if v.None? {
        SumIntsRaises(vals, i);
        return None;
      }
      sum := sum + v.value;
      i := i + 1;
    }
    assert vals[..i] == vals;
    total := Some(sum);
  }

  // ------------------------------------------------------------- properties

  /** One count that is not an integer makes the sum raise. */
  lemma {:induction false} SumIntsRaises(vals: seq<string>, k: nat)
    requires k < |vals| && PyInt(vals[k]).None?
    ensures SumInts(vals) == None
    decreases |vals|
  {
    if k < |vals| - 1 {
      SumIntsRaises(vals[..|vals| - 1], k);
    }
  }

  /** The sum succeeds exactly when every count is an integer. */
  lemma {:induction false} SumIntsSome(vals: seq<string>)
    ensures SumInts(vals).Some? <==> forall j :: 0 <= j < |vals| ==> PyInt(vals[j]).Some?
    decreases |vals|
  {
    if vals != [] {
      var init := vals[..|vals| - 1];
      SumIntsSome(init);
      assert forall j :: 0 <= j < |init| ==> init[j] == vals[j];
    }
  }

  /** Counts of plain digits add up to the sum of their values. */
  lemma {:induction false} SumIntsDigits(vals: seq<string>)
    requires forall j :: 0 <= j < |vals| ==> IsDigits(vals[j])
    ensures SumInts(vals) == Some(DigitSum(vals))
    decreases |vals|
  {
    if vals != [] {
      var last := vals[|vals| - 1];
      SumIntsDigits(vals[..|vals| - 1]);
      StripUnchanged(last);
    }
  }

  function DigitSum(vals: seq<string>): int
    requires forall j :: 0 <= j < |vals| ==> IsDigits(vals[j])
    decreases |vals|
  {
    if vals == [] then 0
    else
      var last := vals[|vals| - 1];
      assert IsDigits(last);
      DigitSum(vals[..|vals| - 1]) + DigitsValue(last)
  }

  /** Every name is made of `[a-z0-9_]` and keeps the length of the column it
      comes from. */
  lemma IrqNameChars(fields: seq<string>)
    requires fields != []
    ensures forall j :: 0 <= j < |IrqName(fields)| ==> NameChar(IrqName(fields)[j])
    ensures IsDigits(StripChar(fields[0], ':')) ==> |IrqName(fields)| == |fields[|fields| - 1]|
    ensures !IsDigits(StripChar(fields[0], ':')) ==> |IrqName(fields)| == |StripChar(fields[0], ':')|
  {
  }

  /** A named source keeps its name, and a numbered one takes the device's,
      when those are already lower-case names. */
  lemma IrqNameOf(fields: seq<string>)
    requires fields != []
    ensures var first := StripChar(fields[0], ':');
            var named := if IsDigits(first) then fields[|fields| - 1] else first;
            (forall j :: 0 <= j < |named| ==> NameChar(named[j])) ==> IrqName(fields) == named
  {
    var first := StripChar(fields[0], ':');
    var named := if IsDigits(first) then fields[|fields| - 1] else first;
    if forall j :: 0 <= j < |named| ==> NameChar(named[j]) {
      NameKept(named);
      assert IrqName(fields) == Normalize(Lower(Lower(named)));
    }
  }

  /** A name already made of `[a-z0-9_]` is left alone by lower-casing,
      twice, and by the normalization. */
  lemma NameKept(named: string)
    requires forall j :: 0 <= j < |named| ==> NameChar(named[j])
    ensures Lower(named) == named && Normalize(Lower(Lower(named))) == named
  {
    assert Lower(named) == named;
  }

  /** At most one triple per row, each for the reader's side under an
      `int_` name. */
  lemma {:induction false} RowsFromTriples(rs: seq<Row>, side: Side)
    ensures var y := RowsFrom(rs, side);
            && |y.out| <= |rs|
            && (forall t :: t in y.out ==> t.side == side && StartsWith(t.field, "int_"))
    decreases |rs|
  {
    if rs != [] {
      RowsFromTriples(rs[1..], side);
    }
  }

  /** The generator raises exactly when some row's counts do not all read as
      integers. */
  lemma {:induction false} RowsFromRaises(rs: seq<Row>, side: Side)
    ensures RowsFrom(rs, side).raised <==> Raises in rs
    decreases |rs|
  {
    if rs != [] {
      RowsFromRaises(rs[1..], side);
      assert rs == [rs[0]] + rs[1..];
    }
  }

  /** Rows read before one that raises are yielded all the same: the
      generator's consumer has them when the exception arrives. */
  lemma {:induction false} RowsFromAppend(a: seq<Row>, b: seq<Row>, side: Side)
    requires !RowsFrom(a, side).raised
    ensures RowsFrom(a + b, side) == After(RowsFrom(a, side).out, RowsFrom(b, side))
    decreases |a|
  {
    if a == [] {
      assert a + b == b;
    } else {
      assert (a + b)[1..] == a[1..] + b;
      RowsFromAppend(a[1..], b, side);
      if a[0].Total? {
        AppendAssoc([Triple(side, "int_" + a[0].name, Int(a[0].count))], RowsFrom(a[1..], side).out,
                    RowsFrom(b, side).out);
      }
    }
  }

  /** Rows of fewer than three columns give nothing. */
  lemma ShortRowSkipped(raw: string, cpuCount: nat)
    requires |Split(Strip(raw))| < 3
    ensures RowOf(raw, cpuCount) == Skipped
  {
  }

  /** Only the columns the header names are counted: with no header, every
      row totals zero. */
  lemma NoCpus(fields: seq<string>)
    requires fields != []
    ensures Counts(fields, 0) == []
    ensures SumInts(Counts(fields, 0)) == Some(0)
  {
  }
}

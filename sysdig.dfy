/** `SysdigFreqReader` in tools/summarize_test_results.py: the table of
    system-call counts `sysdig` prints, two header lines and then one
    `count syscall` row per call. A truncated file repeats the table after
    an error message, so reading stops at the first row that is not exactly
    two columns. A count that is not an integer raises `ValueError`, which
    ends the generator. */
module Sysdig {
  import opened Base
  import opened Text

  /** Whether the counts are for the workload's calls or for all of them,
      from the file's name. */
  function Kind(fileName: string): (k: string)
    ensures k == "workload" <==> Contains(fileName, "workload")
    ensures k == "all" <==> !Contains(fileName, "workload")
  {
    if Contains(fileName, "workload") then "workload" else "all"
  }

  /** What one row gives. */
  datatype Row = Stop | Call(name: string, count: int) | Raises

  function RowOf(raw: string): Row {
    var parts := Split(raw);
    if |parts| != 2 then Stop
    else
      match PyInt(parts[0])
      case None => Raises
      case Some(n) => Call(parts[1], n)
  }

  function RowsOf(rows: seq<string>): (rs: seq<Row>)
    ensures |rs| == |rows|
    ensures forall k :: 0 <= k < |rows| ==> rs[k] == RowOf(rows[k])
  {
    seq(|rows|, k requires 0 <= k < |rows| => RowOf(rows[k]))
  }

  /** What the generator yields for rows read as `rs`. */
  function RowsFrom(rs: seq<Row>, kind: string, side: Side): Yield
    decreases |rs|
  {
    if rs == [] then Yield([], false)
    else
      match rs[0]
      case Stop => Yield([], false)
      case Raises => Yield([], true)
      case Call(name, n) =>
        var rest := RowsFrom(rs[1..], kind, side);
        Yield([Triple(side, "sc_" + kind + "_" + name, Int(n))] + rest.out, rest.raised)
  }

  /** The lines after the two header lines (none when the file is shorter). */
  function Body(lines: seq<string>): seq<string> {
    if |lines| <= 2 then [] else lines[2..]
  }

  /** What `SysdigFreqReader(direction).readfile(f)` yields for a file named
      `fileName`. */
  function ReadFrom(fileName: string, lines: seq<string>, side: Side): Yield {
    RowsFrom(RowsOf(Body(lines)), Kind(fileName), side)
  }

  /** `SysdigFreqReader(direction).readfile(f)` over the lines of `f`. */
  method ReadFile(fileName: string, lines: seq<string>, side: Side) returns (r: Yield)
    ensures r == ReadFrom(fileName, lines, side)
  {
    var kind := if Contains(fileName, "workload") then "workload" else "all";
    var rows := Body(lines);
    ghost var rs := RowsOf(rows);
    var out := [];
    var i := 0;
    assert rs[0..] == rs;
    while i < |rows|
      invariant 0 <= i <= |rows|
      invariant RowsFrom(rs, kind, side) == After(out, RowsFrom(rs[i..], kind, side))
    {
      RowsFromStep(rs, i, kind, side);
      var row := ReadRow(rows[i]);
      if row.Stop? {
        break;
      }
      if row.Raises? {
        return Yield(out, true);
      }
      var t := Triple(side, "sc_" + kind + "_" + row.name, Int(row.count));
      AfterAppend(out, t, RowsFrom(rs[i + 1..], kind, side));
      out := out + [t];
      i := i + 1;
    }
    if i == |rows| {
      assert rs[i..] == [];
    }
    r := Yield(out, false);
  }

  /** The body of the loop for one row: `parts = line.split()`, the
      `break`, and `int(parts[0])`. */
  method ReadRow(raw: string) returns (row: Row)
    ensures row == RowOf(raw)
  {
    var parts := Split(raw);
    if |parts| != 2 {
      return Stop;
    }
    var count := PyInt(parts[0]);
    row := if count.None? then Raises else Call(parts[1], count.value);
  }

  lemma RowsFromStep(rs: seq<Row>, i: nat, kind: string, side: Side)
    requires i < |rs|
    ensures var rest := RowsFrom(rs[i + 1..], kind, side);
            RowsFrom(rs[i..], kind, side)
            == match rs[i]
               case Stop => Yield([], false)
               case Raises => Yield([], true)
               case Call(name, n) => Yield([Triple(side, "sc_" + kind + "_" + name, Int(n))] + rest.out, rest.raised)
  {
    assert rs[i..][1..] == rs[i + 1..];
  }

  // ------------------------------------------------------------- properties

  /** Only the first table is read: nothing after the first row that is not
      two columns counts. */
  lemma {:induction false} StopsAtFirstTable(a: seq<Row>, b: seq<Row>, kind: string, side: Side)
    requires Stop in a
    ensures RowsFrom(a + b, kind, side) == RowsFrom(a, kind, side)
    decreases |a|
  {
    assert a != [];
    assert (a + b)[0] == a[0];
    if a[0] != Stop {
      assert (a + b)[1..] == a[1..] + b;
      assert Stop in a[1..] by {
        var k :| 0 <= k < |a| && a[k] == Stop;
        assert a[1..][k - 1] == a[k];
      }
      StopsAtFirstTable(a[1..], b, kind, side);
    }
  }

  /** At most one triple per row, each for the reader's side under the name
      `sc_<kind>_<syscall>`. */
  lemma {:induction false} RowsFromTriples(rs: seq<Row>, kind: string, side: Side)
    ensures var y := RowsFrom(rs, kind, side);
            && |y.out| <= |rs|
            && (forall t :: t in y.out ==> t.side == side && StartsWith(t.field, "sc_" + kind + "_"))
    decreases |rs|
  {
    if rs != [] {
      RowsFromTriples(rs[1..], kind, side);
      if rs[0].Call? {
        var f := "sc_" + kind + "_" + rs[0].name;
        assert f[..|"sc_" + kind + "_"|] == "sc_" + kind + "_";
      }
    }
  }

  /** A table of `count syscall` rows, ended by the end of the file or by a
      row of any other shape, gives each call's count in order. */
  lemma {:induction false} TableRead(names: seq<string>, counts: seq<int>, tail: seq<Row>, kind: string, side: Side)
    requires |names| == |counts|
    requires tail == [] || tail[0] == Stop
    ensures RowsFrom(Calls(names, counts) + tail, kind, side)
         == Yield(Named(names, counts, kind, side), false)
    decreases |names|
  {
    if names == [] {
      assert Calls(names, counts) + tail == tail;
    } else {
      assert (Calls(names, counts) + tail)[1..] == Calls(names[1..], counts[1..]) + tail;
      TableRead(names[1..], counts[1..], tail, kind, side);
    }
  }

  function Calls(names: seq<string>, counts: seq<int>): (rs: seq<Row>)
    requires |names| == |counts|
    ensures |rs| == |names|
    decreases |names|
  {
    if names == [] then [] else [Call(names[0], counts[0])] + Calls(names[1..], counts[1..])
  }

  function Named(names: seq<string>, counts: seq<int>, kind: string, side: Side): (ts: seq<Triple>)
    requires |names| == |counts|
    ensures |ts| == |names|
    ensures forall j :: 0 <= j < |names| ==> ts[j] == Triple(side, "sc_" + kind + "_" + names[j], Int(counts[j]))
    decreases |names|
  {
    if names == [] then []
    else [Triple(side, "sc_" + kind + "_" + names[0], Int(counts[0]))] + Named(names[1..], counts[1..], kind, side)
  }

  /** The generator raises exactly when a count in the first table is not an
      integer. */
  lemma {:induction false} RowsFromRaises(rs: seq<Row>, kind: string, side: Side)
    ensures RowsFrom(rs, kind, side).raised <==> Raises in FirstTable(rs)
    decreases |rs|
  {
    if rs != [] && rs[0] != Stop {
      RowsFromRaises(rs[1..], kind, side);
      assert FirstTable(rs) == [rs[0]] + FirstTable(rs[1..]);
    }
  }

  /** The rows before the first `Stop`. */
  function FirstTable(rs: seq<Row>): (t: seq<Row>)
    ensures Stop !in t
    decreases |rs|
  {
    if rs == [] || rs[0] == Stop then [] else [rs[0]] + FirstTable(rs[1..])
  }

  /** A header-only or shorter file yields nothing. */
  lemma HeaderOnly(fileName: string, lines: seq<string>, side: Side)
    requires |lines| <= 2
    ensures ReadFrom(fileName, lines, side) == Yield([], false)
  {
  }
}

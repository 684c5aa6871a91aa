/** `VmStatsReader` in tools/summarize_test_results.py: the columns `vmstat`
    prints, one sample per line, read as integers under seventeen fixed
    names. Each line is read inside a `try` that swallows every exception,
    and the reader is a generator, so a line gives the values of its columns
    up to the first one that is not an integer, or up to the seventeenth when
    the line has more columns than there are names. */
module VmStat {
  import opened Base
  import opened Text

  /** The names of the columns, in `vmstat`'s order. */
  const FieldNames: seq<string> := [
    "running", "blocked", "mem_swapped", "mem_free", "mem_buffers", "mem_cache",
    "swap_in", "swap_out", "blocks_in", "blocks_out", "int_rate", "cs_rate",
    "cpu_user", "cpu_sys", "cpu_idle", "cpu_wait", "cpu_stolen"]

  /** How many columns have a name. */
  const Columns := 17

  lemma ColumnsNamed()
    ensures |FieldNames| == Columns
  {
  }

  /** `int(value)` of every column of a line, `None` where it raises. */
  function Ints(fields: seq<string>): (vs: seq<Option<int>>)
    ensures |vs| == |fields|
    ensures forall j :: 0 <= j < |fields| ==> vs[j] == PyInt(fields[j])
  {
    seq(|fields|, j requires 0 <= j < |fields| => PyInt(fields[j]))
  }

  /** The triples the columns from `i` on give: one per integer column,
      stopping at the first column that is not an integer or has no name. */
  function ColumnsFrom(vs: seq<Option<int>>, i: nat, side: Side): seq<Triple>
    decreases |vs| - i
  {
    if i >= |vs| || i >= Columns then []
    else
      ColumnsNamed();
      match vs[i]
      case None => []
      case Some(v) => [Triple(side, "vm_" + FieldNames[i], Int(v))] + ColumnsFrom(vs, i + 1, side)
  }

  /** What one line of the file gives: its columns, split on whitespace. */
  function LineTriples(raw: string, side: Side): seq<Triple> {
    ColumnsFrom(Ints(Split(Strip(raw))), 0, side)
  }

  /** What `VmStatsReader(direction).readfile(f)` yields. */
  function ReadFrom(lines: seq<string>, side: Side): seq<Triple>
    decreases |lines|
  {
    if lines == [] then [] else LineTriples(lines[0], side) + ReadFrom(lines[1..], side)
  }

  /** `VmStatsReader(direction).readfile(f)` over the lines of `f`. */
  method ReadFile(lines: seq<string>, side: Side) returns (out: seq<Triple>)
    ensures out == ReadFrom(lines, side)
  {
    out := [];
    var i := 0;
    assert lines[0..] == lines;
    while i < |lines|
      invariant 0 <= i <= |lines|
      invariant ReadFrom(lines, side) == out + ReadFrom(lines[i..], side)
    {
      ReadFromStep(lines, i, side);
      var yielded := ReadLine(lines[i], side);
      AppendAssoc(out, yielded, ReadFrom(lines[i + 1..], side));
      out := out + yielded;
      i := i + 1;
    }
  }

  /** The body of the `try` for one line: the triples yielded before the
      first exception (`IndexError` past the seventeenth name, `ValueError`
      from `int`). */
  method ReadLine(raw: string, side: Side) returns (yielded: seq<Triple>)
    ensures yielded == LineTriples(raw, side)
  {
    var fields := Split(Strip(raw));
    ghost var vs := Ints(fields);
    yielded := [];
    var i := 0;
    while i < |fields|
      invariant 0 <= i <= |fields|
      invariant ColumnsFrom(vs, 0, side) == yielded + ColumnsFrom(vs, i, side)
      decreases |fields| - i
    {
      ColumnsNamed();
      if i >= Columns {
        break;
      }
      var v := PyInt(fields[i]);
      if v.None? {
        break;
      }
      var t := Triple(side, "vm_" + FieldNames[i], Int(v.value));
      AppendAssoc(yielded, [t], ColumnsFrom(vs, i + 1, side));
      yielded := yielded + [t];
      i := i + 1;
    }
  }

  lemma ReadFromStep(lines: seq<string>, i: nat, side: Side)
    requires i < |lines|
    ensures ReadFrom(lines[i..], side) == LineTriples(lines[i], side) + ReadFrom(lines[i + 1..], side)
  {
    assert lines[i..][1..] == lines[i + 1..];
  }

  // ------------------------------------------------------------- properties

  /** At most one triple per column, and none past the seventeenth name. */
  lemma {:induction false} ColumnsFromLength(vs: seq<Option<int>>, i: nat, side: Side)
    ensures i + |ColumnsFrom(vs, i, side)| <= |vs| || ColumnsFrom(vs, i, side) == []
    ensures i + |ColumnsFrom(vs, i, side)| <= Columns || ColumnsFrom(vs, i, side) == []
    decreases |vs| - i
  {
    if i < |vs| && i < Columns && vs[i].Some? {
      ColumnsFromLength(vs, i + 1, side);
    }
  }

  /** The triple for column `j` is that column's integer under the `j`-th
      name. */
  lemma {:induction false} ColumnsFromAt(vs: seq<Option<int>>, i: nat, side: Side, j: nat)
    requires i <= j < i + |ColumnsFrom(vs, i, side)|
    ensures j < |vs| && j < Columns && vs[j].Some?
    ensures (ColumnsNamed(); ColumnsFrom(vs, i, side)[j - i] == Triple(side, "vm_" + FieldNames[j], Int(vs[j].value)))
    decreases |vs| - i
  {
    if j > i {
      ColumnsFromAt(vs, i + 1, side, j);
    }
  }

  /** Reading stops at the end of the line, after the seventeenth column, or
      at a column that is not an integer. */
  lemma {:induction false} ColumnsFromStop(vs: seq<Option<int>>, i: nat, side: Side)
    requires i <= |vs| && i <= Columns
    ensures var k := i + |ColumnsFrom(vs, i, side)|;
            k == |vs| || k == Columns || (k < |vs| && vs[k].None?)
    decreases |vs| - i
  {
    if i < |vs| && i < Columns && vs[i].Some? {
      ColumnsFromStop(vs, i + 1, side);
    }
  }

  /** The columns of a line give a prefix of them, at most seventeen:
      column `j` under the `j`-th name, up to the first column that is not an
      integer. */
  lemma ColumnsShape(fields: seq<string>, side: Side)
    ensures var ts := ColumnsFrom(Ints(fields), 0, side);
            && |ts| <= |fields| && |ts| <= Columns
            && (ColumnsNamed(); forall j :: 0 <= j < |ts| ==>
                  PyInt(fields[j]).Some? && ts[j] == Triple(side, "vm_" + FieldNames[j], Int(PyInt(fields[j]).value)))
            && (|ts| == |fields| || |ts| == Columns || PyInt(fields[|ts|]).None?)
  {
    var vs := Ints(fields);
    ColumnsFromLength(vs, 0, side);
    ColumnsFromStop(vs, 0, side);
    ColumnsEach(fields, side);
  }

  /** Each triple is the integer in its column under that column's name. */
  lemma ColumnsEach(fields: seq<string>, side: Side)
    ensures var ts := ColumnsFrom(Ints(fields), 0, side);
            |ts| <= |fields| && |ts| <= Columns
            && (ColumnsNamed(); forall j :: 0 <= j < |ts| ==>
                  PyInt(fields[j]).Some? && ts[j] == Triple(side, "vm_" + FieldNames[j], Int(PyInt(fields[j]).value)))
  {
    var vs := Ints(fields);
    ColumnsFromLength(vs, 0, side);
    ColumnsNamed();
    forall j | 0 <= j < |ColumnsFrom(vs, 0, side)|
      ensures PyInt(fields[j]).Some?
      ensures ColumnsFrom(vs, 0, side)[j] == Triple(side, "vm_" + FieldNames[j], Int(PyInt(fields[j]).value))
    {
      ColumnsFromAt(vs, 0, side, j);
    }
  }

  /** A sample line of at most seventeen columns, all integers, is read whole. */
  lemma WholeLine(fields: seq<string>, side: Side)
    requires |fields| <= Columns
    requires forall j :: 0 <= j < |fields| ==> PyInt(fields[j]).Some?
    ensures |ColumnsFrom(Ints(fields), 0, side)| == |fields|
  {
    var vs := Ints(fields);
    ColumnsFromLength(vs, 0, side);
    ColumnsFromStop(vs, 0, side);
  }

  /** Every triple carries the reader's side, and the file gives at most
      seventeen triples per line. */
  lemma {:induction false} ReadFromBounds(lines: seq<string>, side: Side)
    ensures |ReadFrom(lines, side)| <= Columns * |lines|
    ensures forall t :: t in ReadFrom(lines, side) ==> t.side == side
    decreases |lines|
  {
    if lines != [] {
      ColumnsShape(Split(Strip(lines[0])), side);
      ReadFromBounds(lines[1..], side);
    }
  }
}

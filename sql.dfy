/** The SQL text builders of tools/utils.py: `columns` types the entries of
    an exemplar row, `create_table_stmt` and `insert_stmt` build the
    `CREATE TABLE` and parameterised `INSERT` statements for a table of rows
    shaped like it. */
module Sql {
  import opened Base
  import opened Text

  /** A column: its name and its SQL type. */
  type Column = (string, string)

  /** The SQL type `columns` gives a value: `STRING` for `str`, `unicode`
      and `None`, `INT` for `int`, `REAL` for `float`; a value of any other
      type gives no column. */
  function SqlType(v: Cell): (t: Option<string>)
    ensures t.Some? <==> !v.Other?
    ensures t == Some("INT") <==> v.Int?
    ensures t == Some("REAL") <==> v.Real?
    ensures t == Some("STRING") <==> v.Str? || v.Shown? || v.Null?
  {
    match v
    case Str(_) => Some("STRING")
    case Shown(_) => Some("STRING")
    case Null => Some("STRING")
    case Int(_) => Some("INT")
    case Real(_) => Some("REAL")
    case Other => None
  }

  /** The column one entry gives, if any. */
  function ColumnOf(e: (string, Cell), skip: seq<string>): seq<Column> {
    if e.0 in skip then []
    else
      match SqlType(e.1)
      case None => []
      case Some(t) => [(e.0, t)]
  }

  /** `columns(exemplar, skipCols)`. */
  function ColumnsOf(r: Record, skip: seq<string>): (cols: seq<Column>)
    ensures |cols| <= |r|
    decreases |r|
  {
    if r == [] then [] else ColumnsOf(r[..|r| - 1], skip) + ColumnOf(r[|r| - 1], skip)
  }

  /** `columns(exemplar, skipCols)`: the loop appending to `cols`. */
  method Columns(exemplar: Record, skipCols: seq<string>) returns (cols: seq<Column>)
    ensures cols == ColumnsOf(exemplar, skipCols)
  {
    cols := [];
    var i := 0;
    while i < |exemplar|
      invariant 0 <= i <= |exemplar|
      invariant cols == ColumnsOf(exemplar[..i], skipCols)
    {
      assert exemplar[..i + 1][..i] == exemplar[..i];
      var (k, v) := exemplar[i];
      if k !in skipCols {
        match v
        case Str(_) => cols := cols + [(k, "STRING")];
        case Shown(_) => cols := cols + [(k, "STRING")];
        case Int(_) => cols := cols + [(k, "INT")];
        case Real(_) => cols := cols + [(k, "REAL")];
        case Null => cols := cols + [(k, "STRING")];
        case Other =>
      }
      i := i + 1;
    }
    assert exemplar[..i] == exemplar;
  }

  function Names(cols: seq<Column>): (ns: seq<string>)
    ensures |ns| == |cols|
    ensures forall i :: 0 <= i < |cols| ==> ns[i] == cols[i].0
  {
    seq(|cols|, i requires 0 <= i < |cols| => cols[i].0)
  }

  /** `x + ' ' + y` for each column. */
  function Definitions(cols: seq<Column>): (ds: seq<string>)
    ensures |ds| == |cols|
    ensures forall i :: 0 <= i < |cols| ==> ds[i] == cols[i].0 + " " + cols[i].1
  {
    seq(|cols|, i requires 0 <= i < |cols| => cols[i].0 + " " + cols[i].1)
  }

  /** `','.join('?' * n)`: `n` question marks separated by commas. */
  function Placeholders(n: nat): string {
    JoinWith(seq(n, _ => "?"), ',')
  }

  /** `create_table_stmt(name, exemplar, skipCols)`. */
  function CreateTableStmt(name: string, exemplar: Record, skip: seq<string>): string {
    "CREATE TABLE " + name + " (" + JoinWith(Definitions(ColumnsOf(exemplar, skip)), ',') + ")"
  }

  /** `insert_stmt(name, exemplar, skipCols)`. */
  function InsertStmt(name: string, exemplar: Record, skip: seq<string>): string {
    var cols := ColumnsOf(exemplar, skip);
    "INSERT INTO " + (name + (" (" + (JoinWith(Names(cols), ',') + (") VALUES (" + (Placeholders(|cols|) + ")")))))
  }

  // ------------------------------------------------------------- properties

  /** Typing a row is typing its parts: `columns` keeps the exemplar's order. */
  lemma {:induction false} ColumnsOfAppend(a: Record, b: Record, skip: seq<string>)
    ensures ColumnsOf(a + b, skip) == ColumnsOf(a, skip) + ColumnsOf(b, skip)
    decreases |b|
  {
    if b == [] {
      assert a + b == a;
    } else {
      var init := b[..|b| - 1];
      assert (a + b)[..|a + b| - 1] == a + init;
      ColumnsOfAppend(a, init, skip);
      AppendAssoc(ColumnsOf(a, skip), ColumnsOf(init, skip), ColumnOf(b[|b| - 1], skip));
    }
  }

  /** A column is listed exactly when an entry has that name, is not
      skipped, and holds a value of that type. */
  lemma {:induction false} ColumnsOfMember(r: Record, skip: seq<string>, c: Column)
    ensures c in ColumnsOf(r, skip) <==>
            exists i :: 0 <= i < |r| && r[i].0 == c.0 && c.0 !in skip && SqlType(r[i].1) == Some(c.1)
    decreases |r|
  {
    if r != [] {
      var init := r[..|r| - 1];
      ColumnsOfMember(init, skip, c);
      if exists i :: 0 <= i < |r| && r[i].0 == c.0 && c.0 !in skip && SqlType(r[i].1) == Some(c.1) {
        var i :| 0 <= i < |r| && r[i].0 == c.0 && c.0 !in skip && SqlType(r[i].1) == Some(c.1);
        if i < |r| - 1 {
          assert init[i] == r[i];
        }
      }
      if exists i :: 0 <= i < |init| && init[i].0 == c.0 && c.0 !in skip && SqlType(init[i].1) == Some(c.1) {
        var i :| 0 <= i < |init| && init[i].0 == c.0 && c.0 !in skip && SqlType(init[i].1) == Some(c.1);
        assert r[i] == init[i];
      }
    }
  }

  /** With nothing skipped and every value of a known type, there is one
      column per entry, under the entry's name. */
  lemma {:induction false} ColumnsOfEvery(r: Record)
    requires forall i :: 0 <= i < |r| ==> !r[i].1.Other?
    ensures |ColumnsOf(r, [])| == |r|
    ensures forall i :: 0 <= i < |r| ==> ColumnsOf(r, [])[i].0 == r[i].0
    decreases |r|
  {
    if r != [] {
      var init := r[..|r| - 1];
      ColumnsOfEvery(init);
      assert ColumnOf(r[|r| - 1], []) == [(r[|r| - 1].0, SqlType(r[|r| - 1].1).value)];
    }
  }

  /** The placeholder list is `n` question marks: splitting it at the commas
      gives `n` parts, each a single `?`. */
  lemma PlaceholdersSplit(n: nat)
    requires n >= 1
    ensures SplitOn(Placeholders(n), ',') == seq(n, _ => "?")
  {
    SplitOnJoin(seq(n, _ => "?"), ',');
  }

  /** The placeholder list holds exactly `n` question marks. */
  lemma {:induction false} PlaceholdersCount(n: nat)
    ensures multiset(Placeholders(n))['?'] == n
    decreases n
  {
    if n >= 2 {
      var qs := seq(n, _ => "?");
      assert qs[1..] == seq(n - 1, _ => "?");
      assert Placeholders(n) == "?" + [','] + Placeholders(n - 1);
      PlaceholdersCount(n - 1);
    } else if n == 1 {
      assert Placeholders(1) == "?";
    }
  }

  lemma {:induction false} JoinCount(parts: seq<string>, sep: char, c: char)
    requires c != sep
    requires forall i :: 0 <= i < |parts| ==> c !in parts[i]
    ensures multiset(JoinWith(parts, sep))[c] == 0
    decreases |parts|
  {
    if |parts| >= 2 {
      JoinCount(parts[1..], sep, c);
      assert c !in parts[0];
    } else if |parts| == 1 {
      assert c !in parts[0];
    }
  }

  lemma Absent(s: string, c: char)
    requires c !in s
    ensures multiset(s)[c] == 0
  {
  }

  /** No column name holds a character no entry name holds. */
  lemma NamesAvoid(exemplar: Record, skip: seq<string>, c: char)
    requires forall i :: 0 <= i < |exemplar| ==> c !in exemplar[i].0
    ensures forall i :: 0 <= i < |ColumnsOf(exemplar, skip)| ==> c !in Names(ColumnsOf(exemplar, skip))[i]
  {
    var cols := ColumnsOf(exemplar, skip);
    forall i | 0 <= i < |cols| ensures c !in Names(cols)[i] {
      ColumnsOfMember(exemplar, skip, cols[i]);
    }
  }

  /** Counting a character across a statement's pieces, when the fixed
      pieces do not hold it. */
  lemma CountPieces(a: string, b: string, c: string, d: string, e: string, f: string, ch: char)
    requires ch !in a && ch !in c && ch !in e && ch != ')'
    ensures multiset(a + (b + (c + (d + (e + (f + ")"))))))[ch]
         == multiset(b)[ch] + multiset(d)[ch] + multiset(f)[ch]
  {
    Absent(a, ch);
    Absent(c, ch);
    Absent(e, ch);
  }

  /** The insert statement binds one `?` per column, when neither the table
      nor any column name holds a question mark. */
  lemma InsertStmtBindsEachColumn(name: string, exemplar: Record, skip: seq<string>)
    requires '?' !in name
    requires forall i :: 0 <= i < |exemplar| ==> '?' !in exemplar[i].0
    ensures multiset(InsertStmt(name, exemplar, skip))['?'] == |ColumnsOf(exemplar, skip)|
  {
    var cols := ColumnsOf(exemplar, skip);
    var names := JoinWith(Names(cols), ',');
    var marks := Placeholders(|cols|);
    NamesAvoid(exemplar, skip, '?');
    JoinCount(Names(cols), ',', '?');
    PlaceholdersCount(|cols|);
    Absent(name, '?');
    CountPieces("INSERT INTO ", name, " (", names, ") VALUES (", marks, '?');
  }

  /** The column list of `CREATE TABLE` reads back as one `name TYPE`
      definition per column, when no entry name holds a comma. */
  lemma CreateTableDefinitions(exemplar: Record, skip: seq<string>)
    requires ColumnsOf(exemplar, skip) != []
    requires forall i :: 0 <= i < |exemplar| ==> ',' !in exemplar[i].0
    ensures SplitOn(JoinWith(Definitions(ColumnsOf(exemplar, skip)), ','), ',') == Definitions(ColumnsOf(exemplar, skip))
  {
    var cols := ColumnsOf(exemplar, skip);
    NamesAvoid(exemplar, skip, ',');
    forall i | 0 <= i < |cols| ensures ',' !in Definitions(cols)[i] {
      assert ',' !in Names(cols)[i];
      ColumnsOfMember(exemplar, skip, cols[i]);
      var j :| 0 <= j < |exemplar| && exemplar[j].0 == cols[i].0 && SqlType(exemplar[j].1) == Some(cols[i].1);
      assert ',' !in cols[i].1;
    }
    SplitOnJoin(Definitions(cols), ',');
  }

  /** The data table `create_db` builds, from its exemplar row: the
      experiment and iteration are integers, the value a real, the rest
      text. */
  const DataExemplar: Record := [
    ("experiment", Int(0)), ("iteration", Int(1)), ("instance", Str("queXYZ")),
    ("field", Str("example")), ("side", Str("client")), ("value", Real(0.0))]

  lemma DataColumns()
    ensures ColumnsOf(DataExemplar, [])
         == [("experiment", "INT"), ("iteration", "INT"), ("instance", "STRING"),
             ("field", "STRING"), ("side", "STRING"), ("value", "REAL")]
  {
    var e := DataExemplar;
    assert e[..1][..0] == [];
    assert ColumnsOf(e[..1], []) == [("experiment", "INT")];
    assert e[..2][..1] == e[..1];
    assert ColumnsOf(e[..2], []) == [("experiment", "INT"), ("iteration", "INT")];
    assert e[..3][..2] == e[..2];
    assert ColumnsOf(e[..3], []) == [("experiment", "INT"), ("iteration", "INT"), ("instance", "STRING")];
    assert e[..4][..3] == e[..3];
    assert ColumnsOf(e[..4], []) == [("experiment", "INT"), ("iteration", "INT"), ("instance", "STRING"),
                                     ("field", "STRING")];
    assert e[..5][..4] == e[..4];
    assert ColumnsOf(e[..5], []) == [("experiment", "INT"), ("iteration", "INT"), ("instance", "STRING"),
                                     ("field", "STRING"), ("side", "STRING")];
    assert e[..5] == e[..|e| - 1];
  }
}

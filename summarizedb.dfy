/** `summarize_db` in tools/summarize_test_results.py: the summary table
    built from the rows of non-broken experiments, one summary row per group
    of consecutive query rows. As written, a group ends only where the
    `field` changes, so adjacent rows of different experiments or sides that
    share a field name are summarised together; `Summarize` is the grouping
    by the whole (experiment, side, field) key that the summary table is
    meant to hold. */
module SummarizeDb {
  import opened Base
  import opened Text
  import Sql
  import opened Store
  import opened Statistics
  import opened Order

  /** A row of the query once `iteration` and `instance` are deleted: the
      experiment id, the field, the side and the value. */
  datatype Row = Row(experiment: int, field: string, side: string, value: Cell)

  // ------------------------------------------------------------- the query

  /** The text SQLite hands back from a text column. */
  function TextOf(c: Cell): string {
    if c.Str? then c.s else ""
  }

  /** `broken!="true"`: a NULL compares to nothing, so it is not selected. */
  predicate NotBroken(c: Cell) {
    !c.Null? && c != Str("true")
  }

  /** Whether a data row joins an experiment (`data.experiment =
      experiments.rowid`) whose `broken` entry, at column `b`, is not "true". */
  predicate Joins(r: seq<Cell>, exps: seq<seq<Cell>>, b: nat) {
    && |r| == 6 && r[0].Int? && 1 <= r[0].i <= |exps|
    && b < |exps[r[0].i - 1]| && NotBroken(exps[r[0].i - 1][b])
  }

  function RowOf(r: seq<Cell>): Row
    requires |r| == 6 && r[0].Int?
  {
    Row(r[0].i, TextOf(r[3]), TextOf(r[4]), r[5])
  }

  /** The data rows of non-broken experiments, in table order. */
  function Selected(data: seq<seq<Cell>>, exps: seq<seq<Cell>>, b: nat): (rows: seq<Row>)
    ensures |rows| <= |data|
    decreases |data|
  {
    if data == [] then []
    else
      var init := Selected(data[..|data| - 1], exps, b);
      var r := data[|data| - 1];
      if Joins(r, exps, b) then init + [RowOf(r)] else init
  }

  /** `ORDER BY data.experiment, data.side, data.field`. */
  predicate RowLe(a: Row, b: Row) {
    || a.experiment < b.experiment
    || (a.experiment == b.experiment && a.side != b.side && StrLe(a.side, b.side))
    || (a.experiment == b.experiment && a.side == b.side && StrLe(a.field, b.field))
  }

  /** What the query returns on the database `c`, or None when it raises:
      a table is missing, `data` does not have the columns `create_db` gives
      it, or `experiments` has no `broken` column. */
  function Query(c: Content): Option<seq<Row>> {
    if "data" !in c.tables || "experiments" !in c.tables then None
    else if ColumnNames(c.tables["data"]) != ["experiment", "iteration", "instance", "field", "side", "value"] then None
    else if "broken" !in ColumnNames(c.tables["experiments"]) then None
    else
      var b := ColumnIndex(ColumnNames(c.tables["experiments"]), "broken");
      Some(SortBy(Selected(c.tables["data"].rows, c.tables["experiments"].rows, b), RowLe))
  }

  // -------------------------------------------------------------- grouping

  function FieldOf(r: Row): string {
    r.field
  }

  /** The whole group key: experiment, side and field. */
  function KeyOf(r: Row): (int, string, string) {
    (r.experiment, r.side, r.field)
  }

  /** The groups of the loop: a row joins the current group when its `key`
      equals that of the group's first row (`last`), and starts a new group
      otherwise. */
  function RunsOn<K(==)>(rows: seq<Row>, key: Row -> K): (runs: seq<seq<Row>>)
    ensures forall i :: 0 <= i < |runs| ==> runs[i] != []
    ensures rows == [] <==> runs == []
    decreases |rows|
  {
    if rows == [] then []
    else
      var init := RunsOn(rows[..|rows| - 1], key);
      var x := rows[|rows| - 1];
      if init != [] && key(init[|init| - 1][0]) == key(x) then
        init[..|init| - 1] + [init[|init| - 1] + [x]]
      else
        init + [[x]]
  }

  /** The groups concatenated. */
  function Flatten<T>(ss: seq<seq<T>>): seq<T>
    decreases |ss|
  {
    if ss == [] then [] else Flatten(ss[..|ss| - 1]) + ss[|ss| - 1]
  }

  /** `float(r['value'])`, or None where it raises. */
  function FloatOf(c: Cell): Option<real> {
    match c
    case Int(i) => Some(i as real)
    case Real(r) => Some(r)
    case Shown(n) => Some(n)
    case Str(s) => PyFloat(s)
    case _ => None
  }

  predicate AllFloat(rows: seq<Row>) {
    forall i :: 0 <= i < |rows| ==> FloatOf(rows[i].value).Some?
  }

  /** The `vals` of a group. */
  function Floats(run: seq<Row>): (vals: seq<real>)
    ensures |vals| == |run|
  {
    seq(|run|, i requires 0 <= i < |run| =>
      var f := FloatOf(run[i].value); if f.Some? then f.value else 0.0)
  }

  /** `last.update(stats(vals))`, then its values: the group's experiment,
      field and side, and the statistics of its values. */
  function SummaryRow(run: seq<Row>): (row: seq<Cell>)
    requires run != []
    ensures |row| == 13
    ensures row[..3] == [Int(run[0].experiment), Str(run[0].field), Str(run[0].side)]
    ensures row[3] == Int(|run|)
  {
    [Int(run[0].experiment), Str(run[0].field), Str(run[0].side)] + Values(Stats(Floats(run)))
  }

  function SummaryRows(runs: seq<seq<Row>>): (out: seq<seq<Cell>>)
    requires forall i :: 0 <= i < |runs| ==> runs[i] != []
    ensures |out| == |runs|
    ensures forall i :: 0 <= i < |out| ==> |out[i]| == 13
    ensures forall i :: 0 <= i < |runs| ==> out[i] == SummaryRow(runs[i])
  {
    seq(|runs|, i requires 0 <= i < |runs| => SummaryRow(runs[i]))
  }

  // ---------------------------------------------------------- the database

  /** The exemplar the summary table is created from: the group's key, then
      the entries of `stats([0.0])`. */
  const SummaryExemplar: Record :=
    [("experiment", Int(0)), ("field", Str("example")), ("side", Str("client"))] + Stats([0.0])

  function SummaryTable(c: Content): Content
    requires "summary" !in c.tables
  {
    Create(c, "summary", Sql.CreateTableStmt("summary", SummaryExemplar, []), Sql.ColumnsOf(SummaryExemplar, []))
  }

  /** `summarize_db(db)` on a database holding `initial`, as written: the
      database as found afterwards, and whether the call returned. Creating
      the table raises when it exists; the table, once created, is kept
      (the statement commits), while the summary rows are only committed at
      the end, so a query that raises or a value `float` rejects leaves the
      table empty. */
  function SummarizeAsWritten(initial: Content): (Content, bool) {
    Summarized(initial, FieldOf)
  }

  /** `summarize_db` with one group per (experiment, side, field). */
  function Summarize(initial: Content): (Content, bool) {
    Summarized(initial, KeyOf)
  }

  function Summarized<K(==)>(initial: Content, key: Row -> K): (Content, bool) {
    if "summary" in initial.tables then (initial, false)
    else
      Filled(SummaryTable(initial), key)
  }

  /** The query and the loop, on the database `c` holding the new table. */
  function Filled<K(==)>(c: Content, key: Row -> K): (Content, bool)
    requires "summary" in c.tables
  {
    match Query(c)
    case None => (c, false)
    case Some(rows) =>
      if AllFloat(rows) then (Append(c, "summary", SummaryRows(RunsOn(rows, key))), true)
      else (c, false)
  }

  /** The summary table's columns: the key, then the ten statistics. */
  lemma SummaryColumns()
    ensures Sql.Names(Sql.ColumnsOf(SummaryExemplar, [])) == ["experiment", "field", "side"] + StatNames
  {
    StatsEmpty([0.0]);
    var e := SummaryExemplar;
    assert forall i :: 3 <= i < 13 ==> e[i] == Stats([0.0])[i - 3];
    Sql.ColumnsOfEvery(e);
  }

  /** `summarize_db(db)`. */
  method SummarizeDatabase(initial: Content) returns (found: Content, ok: bool)
    requires WellFormed(initial)
    ensures (found, ok) == SummarizeAsWritten(initial)
  {
    var db := new Database(initial);
    var cols := Sql.Columns(SummaryExemplar, []);
    var made := db.CreateTable("summary", Sql.CreateTableStmt("summary", SummaryExemplar, []), cols);
    if !made {
      db.Abandon();
      return db.committed, false;
    }
    SummaryColumns();
    found, ok := FillSummary(db, Sql.Names(cols));
  }

  /** The query, the loop and the final commit. */
  method FillSummary(db: Database, names: seq<string>) returns (found: Content, ok: bool)
    requires db.Valid() && db.committed == db.content
    requires Fits(db.content, "summary", names, []) && |names| == 13
    modifies db
    ensures (found, ok) == Filled(old(db.content), FieldOf)
  {
    var q := Query(db.content);
    if q.None? {
      db.Abandon();
      return db.committed, false;
    }
    ok := InsertSummaries(db, q.value, names);
    if ok {
      db.Commit();
    }
    db.Abandon();
    return db.committed, ok;
  }

  /** The loop over the query's rows, carrying `last` (the key of the
      group's first row) and `vals` across rows. */
  method InsertSummaries(db: Database, rows: seq<Row>, names: seq<string>) returns (ok: bool)
    requires db.Valid()
    requires Fits(db.content, "summary", names, []) && |names| == 13
    modifies db
    ensures db.Valid()
    ensures ok == AllFloat(rows)
    ensures ok ==> Summarised(old(db.content), rows, db.content)
    ensures db.committed == old(db.committed)
  {
    ghost var c := db.content;
    ghost var done: seq<seq<Row>> := [];
    ghost var run: seq<Row> := [];
    var last: Option<(int, string, string)> := None;
    var vals: seq<real> := [];
    AppendNothing(c, "summary");
    var i := 0;
    while i < |rows|
      invariant 0 <= i <= |rows|
      invariant db.Valid() && db.committed == old(db.committed)
      invariant Tracks(rows, i, done, run, last, vals)
      invariant Inserted(c, done, db.content)
    {
      var converted;
      converted, done, run, last, vals := Absorb(db, names, c, rows, i, done, run, last, vals);
      if !converted {
        return false;
      }
      i := i + 1;
    }
    CloseLast(db, names, c, rows, done, run, last, vals);
    ok := true;
  }

  /** `now` is `c` with one `summary` row per group of `rows`. */
  ghost predicate Summarised(c: Content, rows: seq<Row>, now: Content)
    requires "summary" in c.tables
  {
    Inserted(c, RunsOn(rows, FieldOf), now)
  }

  /** `now` is `c` with the summary rows of the groups `done`. */
  ghost predicate Inserted(c: Content, done: seq<seq<Row>>, now: Content)
    requires "summary" in c.tables
  {
    && (forall k :: 0 <= k < |done| ==> done[k] != [])
    && now == Append(c, "summary", SummaryRows(done))
  }

  /** After the loop: `last.update(stats(vals))` and the insert of the
      open group's row, if there is one. */
  method CloseLast(db: Database, names: seq<string>, ghost c: Content, rows: seq<Row>,
                   ghost done: seq<seq<Row>>, ghost run: seq<Row>,
                   last: Option<(int, string, string)>, vals: seq<real>)
    requires db.Valid()
    requires Fits(c, "summary", names, []) && |names| == 13
    requires Tracks(rows, |rows|, done, run, last, vals)
    requires Inserted(c, done, db.content)
    modifies db
    ensures db.Valid() && db.committed == old(db.committed)
    ensures AllFloat(rows) && Summarised(c, rows, db.content)
  {
    TracksDone(rows, done, run, last, vals);
    if last.Some? {
      CloseGroup(db, names, c, done, run, last.value, vals);
    }
  }

  /** One pass of the loop: close the open group when row `i` starts a new
      one, then convert its value and add the row to the open group. */
  method Absorb(db: Database, names: seq<string>, ghost c: Content, rows: seq<Row>, i: nat,
                ghost done: seq<seq<Row>>, ghost run: seq<Row>,
                last: Option<(int, string, string)>, vals: seq<real>)
    returns (ok: bool, ghost done': seq<seq<Row>>, ghost run': seq<Row>,
             last': Option<(int, string, string)>, vals': seq<real>)
    requires db.Valid()
    requires Fits(c, "summary", names, []) && |names| == 13
    requires i < |rows| && Tracks(rows, i, done, run, last, vals)
    requires Inserted(c, done, db.content)
    modifies db
    ensures db.Valid() && db.committed == old(db.committed)
    ensures ok == FloatOf(rows[i].value).Some?
    ensures ok ==> Tracks(rows, i + 1, done', run', last', vals')
                   && Inserted(c, done', db.content)
  {
    var r := rows[i];
    if last.Some? && last.value.1 != r.field {
      CloseGroup(db, names, c, done, run, last.value, vals);
    }
    var v := FloatOf(r.value);
    if v.None? {
      return false, done, run, last, vals;
    }
    ok := true;
    if last.None? {
      TracksFirst(rows, vals);
      done', run', last', vals' := done, [r], Some((r.experiment, r.field, r.side)), [v.value];
    } else if last.value.1 != r.field {
      TracksStart(rows, i, done, run, last, vals);
      done', run', last', vals' := done + [run], [r], Some((r.experiment, r.field, r.side)), [v.value];
    } else {
      TracksJoin(rows, i, done, run, last, vals);
      done', run', last', vals' := done, run + [r], last, vals + [v.value];
    }
  }

  /** What the loop's variables hold after `i` rows: every value so far
      converted, the groups closed so far, and the open group, whose first
      row's key is `last` and whose values are `vals`. */
  ghost predicate Tracks(rows: seq<Row>, i: nat, done: seq<seq<Row>>, run: seq<Row>,
                         last: Option<(int, string, string)>, vals: seq<real>)
  {
    && i <= |rows|
    && AllFloat(rows[..i])
    && (forall k :: 0 <= k < |done| ==> done[k] != [])
    && (i == 0 ==> last.None? && done == [])
    && (i > 0 ==> && RunsOn(rows[..i], FieldOf) == done + [run] && run != []
                  && last == Some((run[0].experiment, run[0].field, run[0].side))
                  && vals == Floats(run))
  }

  lemma TracksFirst(rows: seq<Row>, vals: seq<real>)
    requires rows != [] && FloatOf(rows[0].value).Some?
    ensures Tracks(rows, 1, [], [rows[0]], Some((rows[0].experiment, rows[0].field, rows[0].side)),
                   [FloatOf(rows[0].value).value])
  {
    assert rows[..1] == [rows[0]];
  }

  lemma TracksStart(rows: seq<Row>, i: nat, done: seq<seq<Row>>, run: seq<Row>,
                    last: Option<(int, string, string)>, vals: seq<real>)
    requires Tracks(rows, i, done, run, last, vals) && i < |rows| && FloatOf(rows[i].value).Some?
    requires last.Some? && last.value.1 != rows[i].field
    ensures var r := rows[i];
            Tracks(rows, i + 1, done + [run], [r], Some((r.experiment, r.field, r.side)), [FloatOf(r.value).value])
  {
    var r := rows[i];
    assert AllFloat(rows[..i + 1]) by {
      assert rows[..i + 1] == rows[..i] + [r];
    }
    assert RunsOn(rows[..i + 1], FieldOf) == done + [run] + [[r]] by {
      RunsSnoc(rows, i, FieldOf);
    }
  }

  lemma TracksJoin(rows: seq<Row>, i: nat, done: seq<seq<Row>>, run: seq<Row>,
                   last: Option<(int, string, string)>, vals: seq<real>)
    requires Tracks(rows, i, done, run, last, vals) && i < |rows| && FloatOf(rows[i].value).Some?
    requires last.Some? && last.value.1 == rows[i].field
    ensures Tracks(rows, i + 1, done, run + [rows[i]], last, vals + [FloatOf(rows[i].value).value])
  {
    var r := rows[i];
    assert AllFloat(rows[..i + 1]) by {
      assert rows[..i + 1] == rows[..i] + [r];
    }
    assert RunsOn(rows[..i + 1], FieldOf) == done + [run + [r]] by {
      RunsSnoc(rows, i, FieldOf);
      assert (done + [run])[..|done|] == done;
    }
    FloatsSnoc(run, r);
  }

  lemma TracksDone(rows: seq<Row>, done: seq<seq<Row>>, run: seq<Row>,
                   last: Option<(int, string, string)>, vals: seq<real>)
    requires Tracks(rows, |rows|, done, run, last, vals)
    ensures AllFloat(rows)
    ensures last.None? ==> RunsOn(rows, FieldOf) == done
    ensures last.Some? ==> RunsOn(rows, FieldOf) == done + [run] && run != []
                           && last.value == (run[0].experiment, run[0].field, run[0].side) && vals == Floats(run)
  {
    assert rows[..|rows|] == rows;
  }

  /** `last.update(stats(vals))` and the insert of the group's row. */
  method CloseGroup(db: Database, names: seq<string>, ghost c: Content, ghost done: seq<seq<Row>>,
                    ghost run: seq<Row>, last: (int, string, string), vals: seq<real>)
    requires db.Valid()
    requires Fits(c, "summary", names, []) && |names| == 13
    requires forall k :: 0 <= k < |done| ==> done[k] != []
    requires run != [] && last == (run[0].experiment, run[0].field, run[0].side) && vals == Floats(run)
    requires db.content == Append(c, "summary", SummaryRows(done))
    modifies db
    ensures db.Valid() && db.committed == old(db.committed)
    ensures db.content == Append(c, "summary", SummaryRows(done + [run]))
  {
    var row := [Int(last.0), Str(last.1), Str(last.2)] + Values(Stats(vals));
    assert row == SummaryRow(run);
    SummaryRowsSnoc(done, run);
    AppendTwice(c, "summary", SummaryRows(done), [row]);
    var id := db.Insert("summary", names, row);
    assert id.Some?;
  }

  lemma SummaryRowsSnoc(done: seq<seq<Row>>, run: seq<Row>)
    requires forall k :: 0 <= k < |done| ==> done[k] != []
    requires run != []
    ensures SummaryRows(done + [run]) == SummaryRows(done) + [SummaryRow(run)]
  {
  }

  lemma FloatsSnoc(run: seq<Row>, r: Row)
    requires FloatOf(r.value).Some?
    ensures Floats(run + [r]) == Floats(run) + [FloatOf(r.value).value]
  {
  }

  lemma RunsSnoc<K>(rows: seq<Row>, i: nat, key: Row -> K)
    requires i < |rows|
    ensures var init := RunsOn(rows[..i], key);
            RunsOn(rows[..i + 1], key)
            == if init != [] && key(init[|init| - 1][0]) == key(rows[i]) then
                 init[..|init| - 1] + [init[|init| - 1] + [rows[i]]]
               else init + [[rows[i]]]
  {
    assert rows[..i + 1][..i] == rows[..i];
  }

  // ------------------------------------------------------------ properties

  /** The groups after one more row. */
  lemma RunsStep<K>(rows: seq<Row>, key: Row -> K)
    requires rows != []
    ensures var rs := RunsOn(rows[..|rows| - 1], key);
            var x := rows[|rows| - 1];
            RunsOn(rows, key)
            == if rs != [] && key(rs[|rs| - 1][0]) == key(x) then rs[..|rs| - 1] + [rs[|rs| - 1] + [x]]
               else rs + [[x]]
  {
  }

  lemma FlattenSnoc<T>(a: seq<seq<T>>, b: seq<T>)
    ensures Flatten(a + [b]) == Flatten(a) + b
  {
    assert (a + [b])[..|a|] == a;
  }

  /** The groups, concatenated, are the rows: every row is summarised in
      exactly one group, in order. */
  lemma {:induction false} RunsFlatten<K>(rows: seq<Row>, key: Row -> K)
    ensures Flatten(RunsOn(rows, key)) == rows
    decreases |rows|
  {
    if rows != [] {
      var n := |rows| - 1;
      var x := rows[n];
      var rs := RunsOn(rows[..n], key);
      RunsFlatten(rows[..n], key);
      if rs != [] && key(rs[|rs| - 1][0]) == key(x) {
        var m := |rs| - 1;
        FlattenSnoc(rs[..m], rs[m] + [x]);
        FlattenSnoc(rs[..m], rs[m]);
        ButLast(rs);
        AppendAssoc(Flatten(rs[..m]), rs[m], [x]);
      } else {
        FlattenSnoc(rs, [x]);
      }
      ButLast(rows);
    }
  }

  /** Every row of a group has the key of the group's first row. */
  lemma {:induction false} RunsUniform<K>(rows: seq<Row>, key: Row -> K)
    ensures var runs := RunsOn(rows, key);
            forall i, j :: 0 <= i < |runs| && 0 <= j < |runs[i]| ==> key(runs[i][j]) == key(runs[i][0])
    decreases |rows|
  {
    if rows != [] {
      var n := |rows| - 1;
      var x := rows[n];
      var rs := RunsOn(rows[..n], key);
      var runs := RunsOn(rows, key);
      RunsUniform(rows[..n], key);
      RunsStep(rows, key);
      if rs != [] && key(rs[|rs| - 1][0]) == key(x) {
        var m := |rs| - 1;
        assert runs == rs[..m] + [rs[m] + [x]];
        forall i, j | 0 <= i < |runs| && 0 <= j < |runs[i]|
          ensures key(runs[i][j]) == key(runs[i][0])
        {
          if i < m {
            assert runs[i] == rs[i];
          } else {
            assert runs[i] == rs[m] + [x];
            if j < |rs[m]| {
              assert runs[i][j] == rs[m][j];
            }
          }
        }
      } else {
        assert runs == rs + [[x]];
        forall i, j | 0 <= i < |runs| && 0 <= j < |runs[i]|
          ensures key(runs[i][j]) == key(runs[i][0])
        {
          if i < |rs| {
            assert runs[i] == rs[i];
          }
        }
      }
    }
  }

  /** Two adjacent groups have different keys: each group is as long as it
      can be. */
  lemma {:induction false} RunsMaximal<K>(rows: seq<Row>, key: Row -> K)
    ensures var runs := RunsOn(rows, key);
            forall i :: 0 <= i < |runs| - 1 ==> key(runs[i + 1][0]) != key(runs[i][0])
    decreases |rows|
  {
    if rows != [] {
      var n := |rows| - 1;
      var rs := RunsOn(rows[..n], key);
      var runs := RunsOn(rows, key);
      RunsMaximal(rows[..n], key);
      RunsStep(rows, key);
      if rs != [] && key(rs[|rs| - 1][0]) == key(rows[n]) {
        assert forall i :: 0 <= i < |runs| ==> runs[i][0] == rs[i][0];
      } else {
        assert forall i :: 0 <= i < |rs| ==> runs[i] == rs[i];
      }
    }
  }

  lemma {:induction false} FlattenHas<T>(ss: seq<seq<T>>, i: nat, j: nat)
    requires i < |ss| && j < |ss[i]|
    ensures ss[i][j] in Flatten(ss)
    decreases |ss|
  {
    if i < |ss| - 1 {
      FlattenHas(ss[..|ss| - 1], i, j);
    }
  }

  lemma {:induction false} FlattenFind<T>(ss: seq<seq<T>>, x: T)
    requires x in Flatten(ss)
    ensures exists i, j :: 0 <= i < |ss| && 0 <= j < |ss[i]| && ss[i][j] == x
    decreases |ss|
  {
    var init := ss[..|ss| - 1];
    if x in Flatten(init) {
      FlattenFind(init, x);
      var i, j :| 0 <= i < |init| && 0 <= j < |init[i]| && init[i][j] == x;
      assert ss[i][j] == x;
    } else {
      var j :| 0 <= j < |ss[|ss| - 1]| && ss[|ss| - 1][j] == x;
    }
  }

  /** Every row's key is the key of some group. */
  lemma RunsCover<K>(rows: seq<Row>, key: Row -> K)
    ensures var runs := RunsOn(rows, key);
            forall r :: r in rows ==> exists i :: 0 <= i < |runs| && key(runs[i][0]) == key(r)
  {
    var runs := RunsOn(rows, key);
    RunsFlatten(rows, key);
    RunsUniform(rows, key);
    forall r | r in rows ensures exists i :: 0 <= i < |runs| && key(runs[i][0]) == key(r) {
      FlattenFind(runs, r);
      var i, j :| 0 <= i < |runs| && 0 <= j < |runs[i]| && runs[i][j] == r;
    }
  }

  /** The last row closes the last group. */
  lemma RunsLastRow<K>(rows: seq<Row>, key: Row -> K)
    requires rows != []
    ensures var runs := RunsOn(rows, key);
            var last := runs[|runs| - 1];
            last[|last| - 1] == rows[|rows| - 1]
  {
    var runs := RunsOn(rows, key);
    RunsFlatten(rows, key);
    FlattenSnoc(runs[..|runs| - 1], runs[|runs| - 1]);
    assert runs[..|runs| - 1] + [runs[|runs| - 1]] == runs;
  }

  /** The query's order puts the rows of one (experiment, side, field)
      next to each other. */
  ghost predicate Clustered(rows: seq<Row>) {
    forall i, j, k :: 0 <= i < j < k < |rows| && KeyOf(rows[i]) == KeyOf(rows[k]) ==> KeyOf(rows[j]) == KeyOf(rows[i])
  }

  /** How many rows have the key `k`. */
  function CountKey(rows: seq<Row>, k: (int, string, string)): (n: nat)
    ensures n <= |rows|
    decreases |rows|
  {
    if rows == [] then 0
    else CountKey(rows[..|rows| - 1], k) + (if KeyOf(rows[|rows| - 1]) == k then 1 else 0)
  }

  lemma {:induction false} CountKeyAbsent(rows: seq<Row>, k: (int, string, string))
    requires forall r :: r in rows ==> KeyOf(r) != k
    ensures CountKey(rows, k) == 0
    decreases |rows|
  {
    if rows != [] {
      CountKeyAbsent(rows[..|rows| - 1], k);
    }
  }

  /** A prefix of clustered rows is clustered, and a row whose key differs
      from the one before it has a key no earlier row has. */
  lemma ClusteredSnoc(rows: seq<Row>)
    requires Clustered(rows) && |rows| >= 2
    ensures Clustered(rows[..|rows| - 1])
    ensures var n := |rows| - 1;
            KeyOf(rows[n]) != KeyOf(rows[n - 1]) ==> forall r :: r in rows[..n] ==> KeyOf(r) != KeyOf(rows[n])
  {
    var n := |rows| - 1;
    if KeyOf(rows[n]) != KeyOf(rows[n - 1]) {
      forall r | r in rows[..n] ensures KeyOf(r) != KeyOf(rows[n]) {
        var i :| 0 <= i < n && rows[i] == r;
      }
    }
  }

  /** The corrected grouping on clustered rows: one group per key, holding
      every row with that key. */
  lemma {:induction false} OneRunPerKey(rows: seq<Row>)
    requires Clustered(rows)
    ensures var runs := RunsOn(rows, KeyOf);
            && (forall i, j :: 0 <= i < j < |runs| ==> KeyOf(runs[i][0]) != KeyOf(runs[j][0]))
            && (forall i :: 0 <= i < |runs| ==> |runs[i]| == CountKey(rows, KeyOf(runs[i][0])))
    decreases |rows|
  {
    if |rows| == 1 {
      assert rows[..0] == [];
    } else if |rows| >= 2 {
      var n := |rows| - 1;
      var x := rows[n];
      var init := rows[..n];
      ClusteredSnoc(rows);
      OneRunPerKey(init);
      var rs := RunsOn(init, KeyOf);
      var m := |rs| - 1;
      RunsUniform(init, KeyOf);
      RunsLastRow(init, KeyOf);
      assert KeyOf(rows[n - 1]) == KeyOf(rs[m][0]);
      if KeyOf(rs[m][0]) == KeyOf(x) {
        JoinCounts(rows, rs);
      } else {
        StartCounts(rows, rs);
      }
    }
  }

  lemma JoinCounts(rows: seq<Row>, rs: seq<seq<Row>>)
    requires |rows| >= 2
    requires rs == RunsOn(rows[..|rows| - 1], KeyOf) && rs != []
    requires KeyOf(rs[|rs| - 1][0]) == KeyOf(rows[|rows| - 1])
    requires forall i, j :: 0 <= i < j < |rs| ==> KeyOf(rs[i][0]) != KeyOf(rs[j][0])
    requires forall i :: 0 <= i < |rs| ==> |rs[i]| == CountKey(rows[..|rows| - 1], KeyOf(rs[i][0]))
    ensures var runs := RunsOn(rows, KeyOf);
            && (forall i, j :: 0 <= i < j < |runs| ==> KeyOf(runs[i][0]) != KeyOf(runs[j][0]))
            && (forall i :: 0 <= i < |runs| ==> |runs[i]| == CountKey(rows, KeyOf(runs[i][0])))
  {
    RunsStep(rows, KeyOf);
    JoinSizes(rows, rs);
  }

  lemma JoinSizes(rows: seq<Row>, rs: seq<seq<Row>>)
    requires |rows| >= 2 && rs != []
    requires forall i :: 0 <= i < |rs| ==> rs[i] != []
    requires KeyOf(rs[|rs| - 1][0]) == KeyOf(rows[|rows| - 1])
    requires forall i, j :: 0 <= i < j < |rs| ==> KeyOf(rs[i][0]) != KeyOf(rs[j][0])
    requires forall i :: 0 <= i < |rs| ==> |rs[i]| == CountKey(rows[..|rows| - 1], KeyOf(rs[i][0]))
    ensures var m := |rs| - 1;
            var runs := rs[..m] + [rs[m] + [rows[|rows| - 1]]];
            && (forall i, j :: 0 <= i < j < |runs| ==> KeyOf(runs[i][0]) != KeyOf(runs[j][0]))
            && (forall i :: 0 <= i < |runs| ==> |runs[i]| == CountKey(rows, KeyOf(runs[i][0])))
  {
    var m := |rs| - 1;
    var x := rows[|rows| - 1];
    var runs := rs[..m] + [rs[m] + [x]];
    assert forall i :: 0 <= i < |runs| ==> runs[i][0] == rs[i][0];
    forall i | 0 <= i < |runs| ensures |runs[i]| == CountKey(rows, KeyOf(runs[i][0])) {
      CountKeyStep(rows, KeyOf(runs[i][0]));
      if i < m {
        assert runs[i] == rs[i];
      } else {
        assert runs[i] == rs[m] + [x];
      }
    }
  }

  lemma StartCounts(rows: seq<Row>, rs: seq<seq<Row>>)
    requires |rows| >= 2
    requires rs == RunsOn(rows[..|rows| - 1], KeyOf) && rs != []
    requires forall r :: r in rows[..|rows| - 1] ==> KeyOf(r) != KeyOf(rows[|rows| - 1])
    requires forall i, j :: 0 <= i < j < |rs| ==> KeyOf(rs[i][0]) != KeyOf(rs[j][0])
    requires forall i :: 0 <= i < |rs| ==> |rs[i]| == CountKey(rows[..|rows| - 1], KeyOf(rs[i][0]))
    ensures var runs := RunsOn(rows, KeyOf);
            && (forall i, j :: 0 <= i < j < |runs| ==> KeyOf(runs[i][0]) != KeyOf(runs[j][0]))
            && (forall i :: 0 <= i < |runs| ==> |runs[i]| == CountKey(rows, KeyOf(runs[i][0])))
  {
    var n := |rows| - 1;
    var x := rows[n];
    RunsFlatten(rows[..n], KeyOf);
    forall i | 0 <= i < |rs| ensures KeyOf(rs[i][0]) != KeyOf(x) {
      FlattenHas(rs, i, 0);
    }
    CountKeyAbsent(rows[..n], KeyOf(x));
    RunsStep(rows, KeyOf);
    StartDistinct(rs, x);
    StartSizes(rows, rs);
  }

  lemma StartDistinct(rs: seq<seq<Row>>, x: Row)
    requires forall i :: 0 <= i < |rs| ==> rs[i] != []
    requires forall i :: 0 <= i < |rs| ==> KeyOf(rs[i][0]) != KeyOf(x)
    requires forall i, j :: 0 <= i < j < |rs| ==> KeyOf(rs[i][0]) != KeyOf(rs[j][0])
    ensures var runs := rs + [[x]];
            forall i, j :: 0 <= i < j < |runs| ==> KeyOf(runs[i][0]) != KeyOf(runs[j][0])
  {
    var runs := rs + [[x]];
    assert forall i :: 0 <= i < |rs| ==> runs[i] == rs[i];
  }

  lemma StartSizes(rows: seq<Row>, rs: seq<seq<Row>>)
    requires |rows| >= 2
    requires forall i :: 0 <= i < |rs| ==> rs[i] != []
    requires forall i :: 0 <= i < |rs| ==> KeyOf(rs[i][0]) != KeyOf(rows[|rows| - 1])
    requires CountKey(rows[..|rows| - 1], KeyOf(rows[|rows| - 1])) == 0
    requires forall i :: 0 <= i < |rs| ==> |rs[i]| == CountKey(rows[..|rows| - 1], KeyOf(rs[i][0]))
    ensures var runs := rs + [[rows[|rows| - 1]]];
            forall i :: 0 <= i < |runs| ==> |runs[i]| == CountKey(rows, KeyOf(runs[i][0]))
  {
    var x := rows[|rows| - 1];
    var runs := rs + [[x]];
    forall i | 0 <= i < |runs| ensures |runs[i]| == CountKey(rows, KeyOf(runs[i][0])) {
      CountKeyStep(rows, KeyOf(runs[i][0]));
      if i < |rs| {
        assert runs[i] == rs[i];
      } else {
        assert runs[i] == [x];
      }
    }
  }

  lemma CountKeyStep(rows: seq<Row>, k: (int, string, string))
    requires rows != []
    ensures CountKey(rows, k) == CountKey(rows[..|rows| - 1], k) + if KeyOf(rows[|rows| - 1]) == k then 1 else 0
  {
  }

  lemma ButLast<T>(s: seq<T>)
    requires s != []
    ensures s[..|s| - 1] + [s[|s| - 1]] == s
  {
  }
  // ------------------------------------------- as written against corrected

  /** Adjacent rows that share a field also share the experiment and side. */
  predicate FieldMarksKey(rows: seq<Row>) {
    forall i :: 0 <= i < |rows| - 1 && rows[i].field == rows[i + 1].field ==> KeyOf(rows[i]) == KeyOf(rows[i + 1])
  }

  /** Where a change of field is the only way the key changes between
      adjacent rows, the grouping as written is the grouping by key. */
  lemma {:induction false} FieldRunsAreKeyRuns(rows: seq<Row>)
    requires FieldMarksKey(rows)
    ensures RunsOn(rows, FieldOf) == RunsOn(rows, KeyOf)
    decreases |rows|
  {
    if |rows| >= 2 {
      var n := |rows| - 1;
      var init := rows[..n];
      FieldRunsAreKeyRuns(init);
      var rs := RunsOn(init, KeyOf);
      RunsUniform(init, FieldOf);
      RunsUniform(init, KeyOf);
      RunsLastRow(init, KeyOf);
      assert rows[n - 1] == init[n - 1];
      RunsStep(rows, FieldOf);
      RunsStep(rows, KeyOf);
    } else if |rows| == 1 {
      assert rows[..0] == [];
    }
  }

  /** Two adjacent rows of different experiments with the same side and
      field: as written they make one summary row, under the first
      experiment, counting both values; by key they make one each. */
  lemma MergedAcrossExperiments(e1: int, e2: int, field: string, side: string, v1: Cell, v2: Cell)
    requires e1 != e2
    ensures var rows := [Row(e1, field, side, v1), Row(e2, field, side, v2)];
            && RunsOn(rows, FieldOf) == [rows]
            && SummaryRow(rows)[..3] == [Int(e1), Str(field), Str(side)] && SummaryRow(rows)[3] == Int(2)
            && RunsOn(rows, KeyOf) == [[rows[0]], [rows[1]]]
  {
    PairRuns(Row(e1, field, side, v1), Row(e2, field, side, v2));
  }

  lemma PairRuns(a: Row, b: Row)
    requires a.field == b.field && a.experiment != b.experiment
    ensures RunsOn([a, b], FieldOf) == [[a, b]]
    ensures RunsOn([a, b], KeyOf) == [[a], [b]]
  {
    var rows := [a, b];
    assert rows[..1] == [a];
    assert rows[..1][..0] == [];
    RunsStep(rows, FieldOf);
    RunsStep(rows, KeyOf);
    RunsStep(rows[..1], FieldOf);
    RunsStep(rows[..1], KeyOf);
    assert RunsOn(rows[..1], FieldOf) == [[a]];
    assert [a] + [b] == rows;
  }

  // ------------------------------------------------------------- the order

  lemma RowLeTotal(a: Row, b: Row)
    ensures RowLe(a, b) || RowLe(b, a)
  {
    StrLeTotal(a.side, b.side);
    StrLeTotal(a.field, b.field);
  }

  lemma RowLeTransitive(a: Row, b: Row, c: Row)
    requires RowLe(a, b) && RowLe(b, c)
    ensures RowLe(a, c)
  {
    if a.experiment == b.experiment == c.experiment {
      if a.side == b.side == c.side {
        StrLeTransitive(a.field, b.field, c.field);
      } else if a.side != b.side && b.side != c.side {
        StrLeTransitive(a.side, b.side, c.side);
        if a.side == c.side {
          StrLeAntisymmetric(a.side, b.side);
        }
      }
    }
  }

  /** Rows ordered both ways have the same key. */
  lemma RowLeAntisymmetric(a: Row, b: Row)
    requires RowLe(a, b) && RowLe(b, a)
    ensures KeyOf(a) == KeyOf(b)
  {
    if a.side != b.side {
      StrLeAntisymmetric(a.side, b.side);
    } else {
      StrLeAntisymmetric(a.field, b.field);
    }
  }

  lemma RowLeIsTotalPreorder()
    ensures IsTotalPreorder(RowLe)
  {
    forall a, b ensures RowLe(a, b) || RowLe(b, a) {
      RowLeTotal(a, b);
    }
    forall a, b, c | RowLe(a, b) && RowLe(b, c) ensures RowLe(a, c) {
      RowLeTransitive(a, b, c);
    }
  }

  /** Rows in the query's order are clustered by key. */
  lemma SortedClustered(rows: seq<Row>)
    requires SortedBy(rows, RowLe)
    ensures Clustered(rows)
  {
    forall i, j, k | 0 <= i < j < k < |rows| && KeyOf(rows[i]) == KeyOf(rows[k])
      ensures KeyOf(rows[j]) == KeyOf(rows[i])
    {
      assert RowLe(rows[i], rows[j]) && RowLe(rows[j], rows[k]);
      RowLeAntisymmetric(rows[i], rows[j]);
    }
  }

  /** The query returns the selected rows, each once, clustered by key. */
  lemma QueryClustered(c: Content)
    requires Query(c).Some?
    ensures Clustered(Query(c).value)
    ensures var b := ColumnIndex(ColumnNames(c.tables["experiments"]), "broken");
            multiset(Query(c).value) == multiset(Selected(c.tables["data"].rows, c.tables["experiments"].rows, b))
  {
    var b := ColumnIndex(ColumnNames(c.tables["experiments"]), "broken");
    var sel := Selected(c.tables["data"].rows, c.tables["experiments"].rows, b);
    RowLeIsTotalPreorder();
    SortBySorted(sel, RowLe);
    SortedClustered(SortBy(sel, RowLe));
  }

  /** The first three entries of a row's summary row. */
  function KeyCells(r: Row): seq<Cell> {
    [Int(r.experiment), Str(r.field), Str(r.side)]
  }

  /** A summary table `out` of the rows `rows`: thirteen cells per row, no
      two rows with the same key cells, a row for every key, and each row
      counting the rows with its key. */
  ghost predicate OneRowPerKey(out: seq<seq<Cell>>, rows: seq<Row>) {
    && (forall i :: 0 <= i < |out| ==> |out[i]| == 13)
    && (forall i, j :: 0 <= i < j < |out| ==> out[i][..3] != out[j][..3])
    && (forall r :: r in rows ==> exists i :: 0 <= i < |out| && out[i][..3] == KeyCells(r))
    && (forall i :: 0 <= i < |out| ==> out[i][3] == Int(CountCells(rows, out[i][..3])) && CountCells(rows, out[i][..3]) >= 1)
  }

  /** The grouping by key on rows in the query's order: one summary row
      per (experiment, field, side), counting all of that key's rows. */
  lemma OneSummaryRowPerKey(rows: seq<Row>)
    requires Clustered(rows)
    ensures OneRowPerKey(SummaryRows(RunsOn(rows, KeyOf)), rows)
  {
    var runs := RunsOn(rows, KeyOf);
    OneRunPerKey(rows);
    RunsCover(rows, KeyOf);
    SummaryKeys(runs, rows);
    SummaryCover(runs, rows);
    SummaryCounts(runs, rows);
  }

  lemma SummaryKeys(runs: seq<seq<Row>>, rows: seq<Row>)
    requires forall i :: 0 <= i < |runs| ==> runs[i] != []
    requires forall i, j :: 0 <= i < j < |runs| ==> KeyOf(runs[i][0]) != KeyOf(runs[j][0])
    ensures var out := SummaryRows(runs);
            forall i, j :: 0 <= i < j < |out| ==> out[i][..3] != out[j][..3]
  {
    var out := SummaryRows(runs);
    forall i, j | 0 <= i < j < |out| ensures out[i][..3] != out[j][..3] {
      KeyCellsKey(runs[i][0], runs[j][0]);
    }
  }

  lemma SummaryCover(runs: seq<seq<Row>>, rows: seq<Row>)
    requires forall i :: 0 <= i < |runs| ==> runs[i] != []
    requires forall r :: r in rows ==> exists i :: 0 <= i < |runs| && KeyOf(runs[i][0]) == KeyOf(r)
    ensures var out := SummaryRows(runs);
            forall r :: r in rows ==> exists i :: 0 <= i < |out| && out[i][..3] == KeyCells(r)
  {
    var out := SummaryRows(runs);
    forall r | r in rows ensures exists i :: 0 <= i < |out| && out[i][..3] == KeyCells(r) {
      var i :| 0 <= i < |runs| && KeyOf(runs[i][0]) == KeyOf(r);
      KeyCellsKey(runs[i][0], r);
      assert out[i][..3] == KeyCells(r);
    }
  }

  lemma SummaryCounts(runs: seq<seq<Row>>, rows: seq<Row>)
    requires forall i :: 0 <= i < |runs| ==> runs[i] != []
    requires forall i :: 0 <= i < |runs| ==> |runs[i]| == CountKey(rows, KeyOf(runs[i][0]))
    ensures var out := SummaryRows(runs);
            forall i :: 0 <= i < |out| ==> out[i][3] == Int(CountCells(rows, out[i][..3])) && CountCells(rows, out[i][..3]) >= 1
  {
    var out := SummaryRows(runs);
    forall i | 0 <= i < |out|
      ensures out[i][3] == Int(CountCells(rows, out[i][..3])) && CountCells(rows, out[i][..3]) >= 1
    {
      CountCellsKey(rows, runs[i][0]);
    }
  }

  /** How many rows have the key cells `cells`. */
  function CountCells(rows: seq<Row>, cells: seq<Cell>): (n: nat)
    ensures n <= |rows|
    decreases |rows|
  {
    if rows == [] then 0
    else CountCells(rows[..|rows| - 1], cells) + (if KeyCells(rows[|rows| - 1]) == cells then 1 else 0)
  }

  lemma {:induction false} CountCellsKey(rows: seq<Row>, r: Row)
    ensures CountCells(rows, KeyCells(r)) == CountKey(rows, KeyOf(r))
    decreases |rows|
  {
    if rows != [] {
      CountCellsKey(rows[..|rows| - 1], r);
      KeyCellsKey(rows[|rows| - 1], r);
    }
  }

  /** Two rows have the same key cells exactly when they have the same key. */
  lemma KeyCellsKey(a: Row, b: Row)
    ensures KeyCells(a) == KeyCells(b) <==> KeyOf(a) == KeyOf(b)
  {
    if KeyCells(a) == KeyCells(b) {
      assert KeyCells(a)[0] == KeyCells(b)[0] && KeyCells(a)[1] == KeyCells(b)[1] && KeyCells(a)[2] == KeyCells(b)[2];
    }
  }

  /** What `Summarize` leaves in the summary table: the rows of the
      grouping by key, over the query's rows. */
  lemma SummarizeTable(initial: Content, rows: seq<Row>)
    requires "summary" !in initial.tables
    requires Query(SummaryTable(initial)) == Some(rows) && AllFloat(rows)
    ensures Summarize(initial).1 && "summary" in Summarize(initial).0.tables
    ensures Summarize(initial).0.tables["summary"].rows == SummaryRows(RunsOn(rows, KeyOf))
    ensures Clustered(rows)
  {
    QueryClustered(SummaryTable(initial));
  }
}

/** `create_db` in tools/summarize_test_results.py: every result file is read
    into a `data` table of (experiment, iteration, instance, field, side,
    value) rows, where `experiment` is the rowid of the file's test
    parameters in an `experiments` table. Parameters seen before reuse their
    row; rows are written in batches, each batch committed, and the last
    batch once all files are read. An exception ends the run, and what was
    not committed is lost. */
module CreateDb {
  import opened Base
  import Sql
  import opened Store
  import Inference
  import Dispatch

  /** A result file as `find_files` hands it over: its path and its lines.
      What `owstats` prints for it, should it be a powstream file, is given
      as `external`. */
  datatype ResultFile = ResultFile(path: string, lines: seq<string>, external: Yield)

  /** Rows are held back until there are more than this many. */
  const BatchLimit: nat := 100000

  /** The columns of the `data` table, in the order of its exemplar. */
  const DataNames: seq<string> := ["experiment", "iteration", "instance", "field", "side", "value"]

  /** The state `create_db` carries from file to file: the database as the
      connection sees it and as committed, the rows not yet inserted
      (`values`), the experiment id of every parameter set seen (`envs`), and
      the columns of the experiment insert statement once it is built.
      `produced` lists every data row built so far, in order; it is not part
      of the program and only states what the batches add up to. */
  datatype Loading = Loading(content: Content, committed: Content, pending: seq<seq<Cell>>,
                             envs: map<Record, nat>, experimentNames: Option<seq<string>>,
                             produced: seq<seq<Cell>>)

  /** Either the run goes on, or it raised and the database keeps what was
      committed. */
  datatype Progress = Going(st: Loading) | Stopped(committed: Content)

  /** The rows of a table, none when it does not exist. */
  function TableRows(c: Content, name: string): seq<seq<Cell>> {
    if name in c.tables then c.tables[name].rows else []
  }

  /** One data row: the experiment id, the saved iteration and instance,
      and the triple's field, side and value. */
  function DataRow(id: nat, iteration: Cell, instance: Cell, t: Triple): (row: seq<Cell>)
    ensures |row| == |DataNames|
    ensures row[0] == Int(id)
  {
    [Int(id), iteration, instance, Str(t.field), Str(SideName(t.side)), t.value]
  }

  function DataRows(id: nat, iteration: Cell, instance: Cell, ts: seq<Triple>): (rows: seq<seq<Cell>>)
    ensures |rows| == |ts|
    ensures forall j :: 0 <= j < |ts| ==> rows[j] == DataRow(id, iteration, instance, ts[j])
  {
    seq(|ts|, j requires 0 <= j < |ts| => DataRow(id, iteration, instance, ts[j]))
  }

  /** `cur.executemany(insert_data, values)` and `conn.commit()`. */
  function Flush(st: Loading): Progress {
    if Fits(st.content, "data", DataNames, st.pending) then
      var c := Append(st.content, "data", st.pending);
      Going(st.(content := c, committed := c, pending := []))
    else
      Stopped(st.committed)
  }

  /** `values.append(row)`, flushed once the list holds more than
      `BatchLimit` rows. */
  function AddRow(st: Loading, row: seq<Cell>): Progress {
    var s := st.(pending := st.pending + [row], produced := st.produced + [row]);
    if |s.pending| > BatchLimit then Flush(s) else Going(s)
  }

  function AddRows(st: Loading, rows: seq<seq<Cell>>): Progress
    decreases |rows|
  {
    if rows == [] then Going(st)
    else
      match AddRow(st, rows[0])
      case Stopped(c) => Stopped(c)
      case Going(s) => AddRows(s, rows[1..])
  }

  /** `cur.execute(create_table_stmt("experiments", params))`: the pending
      transaction is committed first, then the table is created from the
      first parameter set, or the statement raises because it exists. */
  function CreateExperiments(st: Loading, key: Record): Progress {
    var c := st.content;
    if "experiments" in c.tables then Stopped(c)
    else
      var cols := Sql.ColumnsOf(key, []);
      var d := Create(c, "experiments", Sql.CreateTableStmt("experiments", key, []), cols);
      Going(st.(content := d, committed := d, experimentNames := Some(Sql.Names(cols))))
  }

  /** `cur.execute(insert_experiment, params.values())` and
      `envs[full_env] = cur.lastrowid`. */
  function InsertExperiment(st: Loading, key: Record): Progress {
    var row := Values(key);
    if st.experimentNames.Some? && Fits(st.content, "experiments", st.experimentNames.value, [row]) then
      var c := Append(st.content, "experiments", [row]);
      Going(st.(content := c, envs := st.envs[key := |c.tables["experiments"].rows|]))
    else
      Stopped(st.committed)
  }

  /** The experiment row of a parameter set: inserted the first time the
      set is seen, the experiments table being created before the first
      insert. */
  function Register(st: Loading, key: Record): (r: Progress)
    ensures r.Going? ==> key in r.st.envs
    ensures r.Going? ==> r.st.pending == st.pending && r.st.produced == st.produced
  {
    if key in st.envs then Going(st)
    else if st.experimentNames.Some? then InsertExperiment(st, key)
    else
      match CreateExperiments(st, key)
      case Stopped(c) => Stopped(c)
      case Going(s) => InsertExperiment(s, key)
  }

  /** What decides how one file is loaded: the parameters guessed for it
      (from the hint when there is one, else from its own path), the reader
      its name picks, and what that reader yields from its lines. */
  datatype Filing = Filing(outcome: Inference.Outcome, reader: Option<Dispatch.Reader>, yielded: Yield)

  function FilingOf(f: ResultFile, hint: Option<string>): Filing {
    var outcome := Inference.Guess(if hint.Some? then hint.value else f.path);
    var reader := Dispatch.GetFileReader(f.path);
    Filing(outcome, reader,
           if reader.Some? then Dispatch.ReadWith(reader.value, f.path, f.lines, f.external) else Yield([], false))
  }

  /** The key of a parameter set: the set without its iteration and
      instance. */
  function Key(params: Record): Record {
    Delete(Delete(params, "iteration"), "instance")
  }

  /** Whether a file gets as far as being read: its parameters are
      guessed (otherwise `guess_test_parameters` returns None, and unpacking
      it into `params, path` raises `TypeError`), they hold an
      iteration and an instance (otherwise `KeyError`), and a reader handles
      its name (otherwise the warning, logged through the misspelt `loging`,
      raises `NameError`). */
  predicate Readable(g: Filing) {
    && g.outcome.Found?
    && Lookup(g.outcome.params, "iteration").Some?
    && Lookup(g.outcome.params, "instance").Some?
    && g.reader.Some?
  }

  /** The parameter set a readable file is filed under. */
  function FileKey(g: Filing): Record
    requires Readable(g)
  {
    Key(g.outcome.params)
  }

  /** The rows a readable file adds: one per triple its reader yields, in
      order, each under the experiment id `id`. */
  function FileRows(g: Filing, id: nat): seq<seq<Cell>>
    requires Readable(g)
  {
    var params := g.outcome.params;
    DataRows(id, Lookup(params, "iteration").value, Lookup(params, "instance").value, g.yielded.out)
  }

  /** One file of the loop: its experiment row, then its rows; a reader
      that raised ends the run once the rows it yielded are added. */
  function LoadFile(st: Loading, g: Filing): Progress {
    if !Readable(g) then Stopped(st.committed)
    else
      var key := FileKey(g);
      var r := Register(st, key);
      if r.Stopped? then r
      else Read(r.st, FileRows(g, r.st.envs[key]), g.yielded.raised)
  }

  /** The rows of one file's triples added; a reader that raised ends the
      run once they are. */
  function Read(st: Loading, rows: seq<seq<Cell>>, raised: bool): Progress {
    var r := AddRows(st, rows);
    if r.Going? && raised then Stopped(r.st.committed) else r
  }

  function Filings(files: seq<ResultFile>, hint: Option<string>): (gs: seq<Filing>)
    ensures |gs| == |files|
    ensures forall j :: 0 <= j < |files| ==> gs[j] == FilingOf(files[j], hint)
  {
    seq(|files|, j requires 0 <= j < |files| => FilingOf(files[j], hint))
  }

  /** The files in turn, until one raises. */
  function LoadFiles(st: Loading, gs: seq<Filing>): Progress
    decreases |gs|
  {
    if gs == [] then Going(st)
    else
      match LoadFile(st, gs[0])
      case Stopped(c) => Stopped(c)
      case Going(s) => LoadFiles(s, gs[1..])
  }

  /** The database once the `data` table is created. */
  function Start(initial: Content): Loading
    requires "data" !in initial.tables
  {
    var c := Create(initial, "data", Sql.CreateTableStmt("data", Sql.DataExemplar, []),
                    Sql.ColumnsOf(Sql.DataExemplar, []));
    Loading(c, c, [], map[], None, [])
  }

  /** `create_db(db, ...)` on a database holding `initial`, over `files`,
      as written: the database as it is found afterwards, and whether the
      call returned rather than raised. Creating `data` raises when the
      table exists. At the end the remaining rows are inserted and committed
      only when there are some; otherwise nothing is committed, and the
      connection is closed without a commit. */
  function LoadAsWritten(initial: Content, files: seq<ResultFile>, hint: Option<string>): (Content, bool) {
    LoadedAsWritten(initial, Filings(files, hint))
  }

  function LoadedAsWritten(initial: Content, gs: seq<Filing>): (Content, bool) {
    if "data" in initial.tables then (initial, false)
    else
      FinishAsWritten(LoadFiles(Start(initial), gs))
  }

  /** The end of `create_db` as written: the remaining rows inserted and
      committed when there are some. */
  function FinishAsWritten(p: Progress): (Content, bool) {
    match p
    case Stopped(c) => (c, false)
    case Going(s) =>
      if |s.pending| > 0 then
        match Flush(s)
        case Stopped(c) => (c, false)
        case Going(t) => (t.committed, true)
      else (s.committed, true)
  }

  /** `create_db` with the final commit made whether or not rows remain. */
  function Load(initial: Content, files: seq<ResultFile>, hint: Option<string>): (Content, bool) {
    Loaded(initial, Filings(files, hint))
  }

  function Loaded(initial: Content, gs: seq<Filing>): (Content, bool) {
    if "data" in initial.tables then (initial, false)
    else
      Finish(LoadFiles(Start(initial), gs))
  }

  /** The end of `create_db` with the commit made in every case. */
  function Finish(p: Progress): (Content, bool) {
    match p
    case Stopped(c) => (c, false)
    case Going(s) =>
      if |s.pending| > 0 then
        match Flush(s)
        case Stopped(c) => (c, false)
        case Going(t) => (t.committed, true)
      else (s.content, true)
  }

  // ------------------------------------------------------------- invariant

  /** The experiment ids against the experiments table: one row per
      parameter set, the row of a set at its id, and no two sets sharing an
      id. */
  ghost predicate Ids(envs: map<Record, nat>, rows: seq<seq<Cell>>) {
    |rows| == |envs| && RowAtId(envs, rows) && Distinct(envs)
  }

  ghost predicate RowAtId(envs: map<Record, nat>, rows: seq<seq<Cell>>) {
    forall k :: k in envs ==> 1 <= envs[k] <= |rows| && rows[envs[k] - 1] == Values(k)
  }

  ghost predicate Distinct(envs: map<Record, nat>) {
    forall k, l :: k in envs && l in envs && k != l ==> envs[k] != envs[l]
  }

  /** Before the experiments table is made nothing is registered and no
      row is built; afterwards the ids match the table. */
  ghost predicate Registry(st: Loading) {
    if st.experimentNames.None? then st.envs == map[] && st.produced == []
    else "experiments" in st.content.tables && Ids(st.envs, st.content.tables["experiments"].rows)
  }

  /** Registering a new parameter set keeps the ids matching the table. */
  lemma IdsGrow(envs: map<Record, nat>, rows: seq<seq<Cell>>, key: Record)
    requires Ids(envs, rows) && key !in envs
    ensures Ids(envs[key := |rows| + 1], rows + [Values(key)])
  {
    var e := envs[key := |rows| + 1];
    assert e.Keys == envs.Keys + {key};
    RowAtIdGrow(envs, rows, key);
    DistinctGrow(envs, |rows|, key);
  }

  lemma RowAtIdGrow(envs: map<Record, nat>, rows: seq<seq<Cell>>, key: Record)
    requires RowAtId(envs, rows) && key !in envs
    ensures RowAtId(envs[key := |rows| + 1], rows + [Values(key)])
  {
    var e := envs[key := |rows| + 1];
    var r := rows + [Values(key)];
    forall k | k in e
      ensures 1 <= e[k] <= |r| && r[e[k] - 1] == Values(k)
    {
      if k != key {
        assert r[e[k] - 1] == rows[envs[k] - 1];
      }
    }
  }

  lemma DistinctGrow(envs: map<Record, nat>, n: nat, key: Record)
    requires Distinct(envs) && key !in envs
    requires forall k :: k in envs ==> envs[k] <= n
    ensures Distinct(envs[key := n + 1])
  {
  }

  /** Every row refers to an experiment row of the same database. */
  ghost predicate Refers(rows: seq<seq<Cell>>, c: Content) {
    forall r: seq<Cell> :: r in rows ==> |r| == |DataNames| && r[0].Int? && 1 <= r[0].i <= |TableRows(c, "experiments")|
  }

  /** What holds between files: the data table is the one made from the
      exemplar and is committed as it is; its rows and the pending ones are
      every row built, in order; every row built refers to an experiment row,
      and every committed row to a committed one. */
  ghost predicate Inv(st: Loading) {
    && "data" in st.content.tables && "data" in st.committed.tables
    && st.committed.tables["data"] == st.content.tables["data"]
    && ColumnNames(st.content.tables["data"]) == DataNames
    && st.content.tables["data"].rows + st.pending == st.produced
    && Registry(st)
    && Refers(st.produced, st.content)
    && Refers(st.committed.tables["data"].rows, st.committed)
    && ("experiments" in st.committed.tables <==> "experiments" in st.content.tables)
    && TableRows(st.committed, "experiments") <= TableRows(st.content, "experiments")
  }

  lemma StartInv(initial: Content)
    requires "data" !in initial.tables
    ensures Inv(Start(initial))
  {
    Sql.DataColumns();
  }

  /** A flush never fails and commits every row built. */
  lemma FlushInv(st: Loading)
    requires Inv(st)
    ensures Flush(st).Going?
    ensures var s := Flush(st).st;
            && Inv(s) && s.pending == [] && s.committed == s.content
            && s.content.tables["data"].rows == st.produced
            && s.envs == st.envs && s.experimentNames == st.experimentNames && s.produced == st.produced
            && TableRows(s.content, "experiments") == TableRows(st.content, "experiments")
  {
    var c := st.content;
    assert forall r :: r in st.pending ==> r in st.produced;
    assert Fits(c, "data", DataNames, st.pending) by {
      forall i | 0 <= i < |st.pending| ensures |st.pending[i]| == |DataNames| {
        assert st.pending[i] in st.produced;
      }
    }
    var d := Append(c, "data", st.pending);
    assert TableRows(d, "experiments") == TableRows(c, "experiments");
  }

  lemma AddRowInv(st: Loading, row: seq<Cell>)
    requires Inv(st) && st.experimentNames.Some?
    requires |row| == |DataNames| && row[0].Int? && 1 <= row[0].i <= |TableRows(st.content, "experiments")|
    ensures AddRow(st, row).Going?
    ensures var s := AddRow(st, row).st;
            && Inv(s) && s.produced == st.produced + [row]
            && s.envs == st.envs && s.experimentNames == st.experimentNames
            && TableRows(s.content, "experiments") == TableRows(st.content, "experiments")
  {
    var s := st.(pending := st.pending + [row], produced := st.produced + [row]);
    AppendAssoc(st.content.tables["data"].rows, st.pending, [row]);
    assert Inv(s);
    if |s.pending| > BatchLimit {
      FlushInv(s);
    }
  }

  lemma {:induction false} AddRowsInv(st: Loading, rows: seq<seq<Cell>>)
    requires Inv(st) && st.experimentNames.Some?
    requires Refers(rows, st.content)
    ensures AddRows(st, rows).Going?
    ensures var s := AddRows(st, rows).st;
            && Inv(s) && s.produced == st.produced + rows
            && s.envs == st.envs && s.experimentNames == st.experimentNames
            && TableRows(s.content, "experiments") == TableRows(st.content, "experiments")
    decreases |rows|
  {
    if rows != [] {
      assert rows[0] in rows;
      AddRowInv(st, rows[0]);
      var s := AddRow(st, rows[0]).st;
      assert Refers(rows[1..], s.content) by {
        forall r | r in rows[1..] ensures r in rows {
        }
      }
      AddRowsInv(s, rows[1..]);
      assert AddRows(st, rows) == AddRows(s, rows[1..]);
      AppendAssoc(st.produced, [rows[0]], rows[1..]);
      HeadTail(rows);
    }
  }

  lemma InsertExperimentInv(st: Loading, key: Record)
    requires Inv(st) && st.experimentNames.Some? && key !in st.envs
    ensures var r := InsertExperiment(st, key);
            r.Going? ==> && Inv(r.st) && r.st.produced == st.produced && r.st.pending == st.pending
                         && r.st.experimentNames == st.experimentNames
                         && r.st.envs == st.envs[key := |st.envs| + 1]
  {
    var row := Values(key);
    if Fits(st.content, "experiments", st.experimentNames.value, [row]) {
      var c := Append(st.content, "experiments", [row]);
      var s := InsertExperiment(st, key).st;
      var before := st.content.tables["experiments"].rows;
      assert c.tables["experiments"].rows == before + [row];
      IdsGrow(st.envs, before, key);
      assert Registry(s);
      RefersGrow(st.produced, st.content, c);
    }
  }

  /** Rows that refer to a table keep referring to it once it grows. */
  lemma RefersGrow(rows: seq<seq<Cell>>, c: Content, d: Content)
    requires Refers(rows, c)
    requires |TableRows(c, "experiments")| <= |TableRows(d, "experiments")|
    ensures Refers(rows, d)
  {
  }

  lemma CreateExperimentsInv(st: Loading, key: Record)
    requires Inv(st) && st.experimentNames.None?
    ensures var r := CreateExperiments(st, key);
            r.Going? ==> && Inv(r.st) && r.st.produced == st.produced && r.st.pending == st.pending
                         && r.st.envs == map[] && r.st.experimentNames.Some?
  {
    var c := st.content;
    if "experiments" !in c.tables {
      var cols := Sql.ColumnsOf(key, []);
      var d := Create(c, "experiments", Sql.CreateTableStmt("experiments", key, []), cols);
      assert TableRows(d, "experiments") == [];
      assert d.tables["data"] == c.tables["data"];
    }
  }

  lemma RegisterInv(st: Loading, key: Record)
    requires Inv(st)
    ensures var r := Register(st, key);
            r.Going? ==> && Inv(r.st) && r.st.experimentNames.Some?
                         && 1 <= r.st.envs[key] <= |TableRows(r.st.content, "experiments")|
  {
    var r := Register(st, key);
    if r.Going? {
      if key !in st.envs {
        if st.experimentNames.Some? {
          InsertExperimentInv(st, key);
        } else {
          FirstExperimentInv(st, key);
        }
      }
      IdBound(r.st, key);
    }
  }

  /** The first parameter set: the table is made, then its row inserted. */
  lemma FirstExperimentInv(st: Loading, key: Record)
    requires Inv(st) && st.experimentNames.None?
    ensures var r := Register(st, key);
            r.Going? ==> Inv(r.st)
  {
    assert st.envs == map[];
    var c := CreateExperiments(st, key);
    CreateExperimentsInv(st, key);
    if c.Going? {
      assert Register(st, key) == InsertExperiment(c.st, key);
      InsertExperimentInv(c.st, key);
    }
  }

  /** A parameter set seen before changes nothing; a new one adds exactly
      its own row to the experiments table. */
  lemma RegisterOnce(st: Loading, key: Record)
    ensures var r := Register(st, key);
            && (r.Going? && key in st.envs ==> r.st == st)
            && (r.Going? && key !in st.envs ==>
                  TableRows(r.st.content, "experiments") == TableRows(st.content, "experiments") + [Values(key)])
  {
    var r := Register(st, key);
    if r.Going? && key !in st.envs && st.experimentNames.None? {
      var c := CreateExperiments(st, key);
      assert r == InsertExperiment(c.st, key);
      assert TableRows(c.st.content, "experiments") == [] == TableRows(st.content, "experiments");
    }
  }

  /** The id of a registered parameter set is the rowid of its row. */
  lemma IdBound(st: Loading, key: Record)
    requires Inv(st) && key in st.envs
    ensures st.experimentNames.Some?
    ensures 1 <= st.envs[key] <= |TableRows(st.content, "experiments")|
    ensures TableRows(st.content, "experiments")[st.envs[key] - 1] == Values(key)
  {
  }

  /** A file read in full keeps the invariant and adds its rows after the
      earlier ones. */
  lemma LoadFileInv(st: Loading, g: Filing)
    requires Inv(st)
    ensures var r := LoadFile(st, g);
            r.Going? ==>
              && Inv(r.st) && Readable(g) && FileKey(g) in r.st.envs
              && r.st.produced == st.produced + FileRows(g, r.st.envs[FileKey(g)])
  {
    var r := LoadFile(st, g);
    if r.Going? {
      var key := FileKey(g);
      var reg := Register(st, key);
      RegisterInv(st, key);
      var rows := FileRows(g, reg.st.envs[key]);
      assert Refers(rows, reg.st.content);
      AddRowsInv(reg.st, rows);
      assert r == AddRows(reg.st, rows);
    }
  }

  lemma {:induction false} LoadFilesInv(st: Loading, gs: seq<Filing>)
    requires Inv(st)
    ensures var r := LoadFiles(st, gs);
            r.Going? ==> Inv(r.st)
    decreases |gs|
  {
    if gs != [] {
      LoadFileInv(st, gs[0]);
      var r := LoadFile(st, gs[0]);
      if r.Going? {
        LoadFilesInv(r.st, gs[1..]);
      }
    }
  }

  // ------------------------------------------------------------- the run

  /** A run that returns leaves every row built in the `data` table, once
      each and in order, however the batches fell; every data row refers to
      an experiment row that is there too, and there is one experiment row
      per parameter set seen, at its id. */
  lemma LoadResult(initial: Content, gs: seq<Filing>)
    requires "data" !in initial.tables
    ensures var r := LoadFiles(Start(initial), gs);
            var found := Loaded(initial, gs).0;
            && (Loaded(initial, gs).1 <==> r.Going?)
            && (r.Going? ==>
                  && "data" in found.tables && found.tables["data"].rows == r.st.produced
                  && Refers(found.tables["data"].rows, found)
                  && TableRows(found, "experiments") == TableRows(r.st.content, "experiments")
                  && (r.st.experimentNames.Some? ==> Ids(r.st.envs, TableRows(found, "experiments"))))
  {
    StartInv(initial);
    var r := LoadFiles(Start(initial), gs);
    LoadFilesInv(Start(initial), gs);
    if r.Going? && |r.st.pending| > 0 {
      FlushInv(r.st);
    }
  }

  /** As written, the data rows are the same, but the experiment rows kept
      are only the first of those inserted. */
  lemma LoadAsWrittenResult(initial: Content, gs: seq<Filing>)
    requires "data" !in initial.tables
    ensures var r := LoadFiles(Start(initial), gs);
            var found := LoadedAsWritten(initial, gs).0;
            && (LoadedAsWritten(initial, gs).1 <==> r.Going?)
            && (r.Going? ==>
                  && "data" in found.tables && found.tables["data"].rows == r.st.produced
                  && Refers(found.tables["data"].rows, found)
                  && TableRows(found, "experiments") <= TableRows(r.st.content, "experiments"))
  {
    StartInv(initial);
    var r := LoadFiles(Start(initial), gs);
    LoadFilesInv(Start(initial), gs);
    if r.Going? && |r.st.pending| > 0 {
      FlushInv(r.st);
    }
  }

  /** A single file yielding no triple under a parameter set not seen
      before: as written its experiment row is inserted but never
      committed, so the database keeps an empty experiments table, where
      committing at the end keeps the row. */
  lemma LostExperiment(initial: Content, g: Filing)
    requires "data" !in initial.tables && "experiments" !in initial.tables
    requires Readable(g) && g.yielded == Yield([], false)
    requires var key := FileKey(g); forall i :: 0 <= i < |key| ==> !key[i].1.Other?
    ensures LoadedAsWritten(initial, [g]).1 && Loaded(initial, [g]).1
    ensures TableRows(LoadedAsWritten(initial, [g]).0, "experiments") == []
    ensures TableRows(Loaded(initial, [g]).0, "experiments") == [Values(FileKey(g))]
  {
    EmptyFile(Start(initial), g);
  }

  /** The state after that file: nothing pending, the experiment row
      inserted but not committed. */
  lemma EmptyFile(st: Loading, g: Filing)
    requires st.envs == map[] && st.experimentNames.None? && "experiments" !in st.content.tables
    requires st.pending == []
    requires Readable(g) && g.yielded == Yield([], false)
    requires var key := FileKey(g); forall i :: 0 <= i < |key| ==> !key[i].1.Other?
    ensures var r := LoadFiles(st, [g]);
            && r.Going? && r.st.pending == []
            && TableRows(r.st.committed, "experiments") == []
            && TableRows(r.st.content, "experiments") == [Values(FileKey(g))]
  {
    var key := FileKey(g);
    FirstRegister(st, key);
    var reg := Register(st, key);
    assert FileRows(g, reg.st.envs[key]) == [];
    assert LoadFile(st, g) == reg;
    assert [g][1..] == [];
    assert LoadFiles(st, [g]) == LoadFiles(reg.st, []);
  }

  /** The first parameter set registered: the table is created and
      committed, the row is inserted and not. */
  lemma FirstRegister(st: Loading, key: Record)
    requires st.envs == map[] && st.experimentNames.None? && "experiments" !in st.content.tables
    requires forall i :: 0 <= i < |key| ==> !key[i].1.Other?
    ensures var r := Register(st, key);
            && r.Going? && r.st.pending == st.pending
            && TableRows(r.st.committed, "experiments") == []
            && TableRows(r.st.content, "experiments") == [Values(key)]
  {
    var c := CreateExperiments(st, key);
    assert c.Going?;
    assert TableRows(c.st.committed, "experiments") == [];
    assert Register(st, key) == InsertExperiment(c.st, key);
    assert Fits(c.st.content, "experiments", c.st.experimentNames.value, [Values(key)]) by {
      Sql.ColumnsOfEvery(key);
    }
  }

  // ------------------------------------------------------------- the method

  /** `create_db(db, directories, types, params_hint)` on a database
      holding `initial`, over the files `find_files` gives, with the final
      commit made whether or not rows remain. */
  method CreateDatabase(initial: Content, files: seq<ResultFile>, hint: Option<string>)
    returns (found: Content, ok: bool)
    requires WellFormed(initial)
    ensures (found, ok) == Load(initial, files, hint)
  {
    var db := new Database(initial);
    var dataCols := Sql.Columns(Sql.DataExemplar, []);
    var created := db.CreateTable("data", Sql.CreateTableStmt("data", Sql.DataExemplar, []), dataCols);
    if !created {
      db.Abandon();
      return db.committed, false;
    }
    assert Start(initial) == Loading(db.content, db.committed, [], map[], None, []);
    found, ok := LoadAll(db, files, hint);
  }

  /** Everything after `data` is created: the files loaded, then the
      remaining rows flushed and the final commit. */
  method LoadAll(db: Database, files: seq<ResultFile>, hint: Option<string>) returns (found: Content, ok: bool)
    requires db.Valid()
    modifies db
    ensures (found, ok) == Finish(LoadFiles(Loading(old(db.content), old(db.committed), [], map[], None, []), Filings(files, hint)))
  {
    var going, values, envs, names, produced := ReadFiles(db, files, hint);
    if !going {
      db.Abandon();
      return db.committed, false;
    }
    found, ok := FinishLoad(db, values, envs, names, produced);
  }

  /** `if values: ...executemany...; conn.commit()`, then the connection
      closed. */
  method FinishLoad(db: Database, values: seq<seq<Cell>>, ghost envs: map<Record, nat>,
                    ghost names: Option<seq<string>>, ghost produced: seq<seq<Cell>>)
    returns (found: Content, ok: bool)
    requires db.Valid()
    modifies db
    ensures (found, ok) == Finish(Going(Loading(old(db.content), old(db.committed), values, envs, names, produced)))
  {
    if |values| > 0 {
      Sql.DataColumns();
      var flushed := db.InsertMany("data", DataNames, values);
      if !flushed {
        db.Abandon();
        return db.committed, false;
      }
    }
    db.Commit();
    db.Abandon();
    return db.committed, true;
  }

  /** The loop over the files, from an empty `envs` and `values`. */
  method ReadFiles(db: Database, files: seq<ResultFile>, hint: Option<string>)
    returns (going: bool, values: seq<seq<Cell>>, envs: map<Record, nat>, names: Option<seq<string>>,
             ghost produced: seq<seq<Cell>>)
    requires db.Valid()
    modifies db
    ensures db.Valid()
    ensures var r := LoadFiles(Loading(old(db.content), old(db.committed), [], map[], None, []), Filings(files, hint));
            && (going ==> r == Going(Loading(db.content, db.committed, values, envs, names, produced)))
            && (!going ==> r == Stopped(db.committed))
  {
    ghost var gs := Filings(files, hint);
    ghost var st := Loading(db.content, db.committed, [], map[], None, []);
    envs := map[];
    names := None;
    values := [];
    produced := [];
    assert gs[0..] == gs;
    var i := 0;
    while i < |files|
      invariant 0 <= i <= |files|
      invariant db.Valid()
      invariant LoadFiles(st, gs) == LoadFiles(Loading(db.content, db.committed, values, envs, names, produced), gs[i..])
    {
      LoadFilesStep(Loading(db.content, db.committed, values, envs, names, produced), gs, i);
      var g := FileFiling(files[i], hint);
      assert g == gs[i];
      var ok;
      ok, values, envs, names, produced := LoadOne(db, g, values, envs, names, produced);
      if !ok {
        return false, values, envs, names, produced;
      }
      i := i + 1;
    }
    going := true;
  }

  lemma LoadFilesStep(st: Loading, gs: seq<Filing>, i: nat)
    requires i < |gs|
    ensures LoadFiles(st, gs[i..]) == match LoadFile(st, gs[i])
                                      case Stopped(c) => Stopped(c)
                                      case Going(s) => LoadFiles(s, gs[i + 1..])
  {
    assert gs[i..][1..] == gs[i + 1..];
  }

  /** What the loop body works out for a file before it touches the
      database: the parameters `guess_test_parameters` finds, the reader
      `get_file_reader` picks, and what that reader yields. */
  method FileFiling(f: ResultFile, hint: Option<string>) returns (g: Filing)
    ensures g == FilingOf(f, hint)
  {
    var outcome := Inference.GuessTestParameters(if hint.Some? then hint.value else f.path);
    var reader := Dispatch.GetFileReader(f.path);
    var y := Yield([], false);
    if reader.Some? {
      y := Dispatch.ReadWith(reader.value, f.path, f.lines, f.external);
    }
    g := Filing(outcome, reader, y);
  }

  /** The body of the loop for one file: `saved` and the key, the
      experiment row, then the file's rows. */
  method LoadOne(db: Database, g: Filing, values: seq<seq<Cell>>,
                 envs: map<Record, nat>, names: Option<seq<string>>, ghost produced: seq<seq<Cell>>)
    returns (going: bool, values': seq<seq<Cell>>, envs': map<Record, nat>, names': Option<seq<string>>,
             ghost produced': seq<seq<Cell>>)
    requires db.Valid()
    modifies db
    ensures db.Valid()
    ensures var r := LoadFile(Loading(old(db.content), old(db.committed), values, envs, names, produced), g);
            && (going ==> r == Going(Loading(db.content, db.committed, values', envs', names', produced')))
            && (!going ==> r == Stopped(db.committed))
  {
    ghost var st := Loading(db.content, db.committed, values, envs, names, produced);
    values', produced' := values, produced;
    if !g.outcome.Found? {
      return false, values, envs, names, produced;
    }
    var iteration := Lookup(g.outcome.params, "iteration");
    var instance := Lookup(g.outcome.params, "instance");
    if iteration.None? || instance.None? || g.reader.None? {
      return false, values, envs, names, produced;
    }
    var key := Delete(Delete(g.outcome.params, "iteration"), "instance");
    going, envs', names' := RegisterKey(db, key, envs, names, values, produced);
    if !going {
      return;
    }
    ghost var reg := Loading(db.content, db.committed, values, envs', names', produced);
    var rows := DataRows(envs'[key], iteration.value, instance.value, g.yielded.out);
    going, values', produced' := AddRowsTo(db, rows, values, envs', names', produced);
    if going && g.yielded.raised {
      going := false;
    }
  }

  /** `if full_env not in envs`: the experiments table made on the first
      new parameter set, its row inserted, and `envs` given its rowid. */
  method RegisterKey(db: Database, key: Record, envs: map<Record, nat>, names: Option<seq<string>>,
                     ghost values: seq<seq<Cell>>, ghost produced: seq<seq<Cell>>)
    returns (going: bool, envs': map<Record, nat>, names': Option<seq<string>>)
    requires db.Valid()
    modifies db
    ensures db.Valid()
    ensures var r := Register(Loading(old(db.content), old(db.committed), values, envs, names, produced), key);
            && (going ==> r == Going(Loading(db.content, db.committed, values, envs', names', produced)))
            && (!going ==> r == Stopped(db.committed))
  {
    envs', names' := envs, names;
    if key in envs {
      return true, envs', names';
    }
    if names.None? {
      var cols := Sql.Columns(key, []);
      var made := db.CreateTable("experiments", Sql.CreateTableStmt("experiments", key, []), cols);
      if !made {
        return false, envs', names';
      }
      names' := Some(Sql.Names(cols));
    }
    var rowid := db.Insert("experiments", names'.value, Values(key));
    if rowid.None? {
      return false, envs', names';
    }
    envs' := envs[key := rowid.value];
    going := true;
  }

  /** The inner loop: each triple's row appended to `values`, and the list
      inserted and committed whenever it holds more than `BatchLimit`
      rows. */
  method AddRowsTo(db: Database, rows: seq<seq<Cell>>, values: seq<seq<Cell>>, ghost envs: map<Record, nat>,
                   ghost names: Option<seq<string>>, ghost produced: seq<seq<Cell>>)
    returns (going: bool, values': seq<seq<Cell>>, ghost produced': seq<seq<Cell>>)
    requires db.Valid()
    modifies db
    ensures db.Valid()
    ensures var r := AddRows(Loading(old(db.content), old(db.committed), values, envs, names, produced), rows);
            && (going ==> r == Going(Loading(db.content, db.committed, values', envs, names, produced')))
            && (!going ==> r == Stopped(db.committed))
  {
    ghost var st := Loading(db.content, db.committed, values, envs, names, produced);
    values', produced' := values, produced;
    assert rows[0..] == rows;
    var i := 0;
    while i < |rows|
      invariant 0 <= i <= |rows|
      invariant db.Valid()
      invariant AddRows(st, rows) == AddRows(Loading(db.content, db.committed, values', envs, names, produced'), rows[i..])
    {
      ghost var cur := Loading(db.content, db.committed, values', envs, names, produced');
      AddRowsStep(cur, rows, i);
      values' := values' + [rows[i]];
      produced' := produced' + [rows[i]];
      if |values'| > BatchLimit {
        var flushed := db.InsertMany("data", DataNames, values');
        if !flushed {
          return false, values', produced';
        }
        db.Commit();
        values' := [];
      }
      i := i + 1;
    }
    going := true;
  }

  lemma AddRowsStep(st: Loading, rows: seq<seq<Cell>>, i: nat)
    requires i < |rows|
    ensures AddRows(st, rows[i..]) == match AddRow(st, rows[i])
                                      case Stopped(c) => Stopped(c)
                                      case Going(s) => AddRows(s, rows[i + 1..])
  {
    assert rows[i..][1..] == rows[i + 1..];
  }
}

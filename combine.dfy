/** `combine.py`: merging the result store of one run into another. The
    destination is reached through a connection (`Store.Database`); the
    source is only read, so it is a value. */
module Combine {
  import opened Base
  import opened Store

  /** How `merge` ends. */
  datatype Outcome =
    | Merged         // every table copied and committed
    | Mismatch       // a table both stores have was created by different SQL: logged, nothing copied
    | NoExperiments  // the source has no `experiments` table: logged, nothing copied
    | Raised         // an exception left `merge`; what was not committed is lost

  // ------------------------------------------------------ serialisation

  /** `json.dumps(row, sort_keys=True)` of a row read with its column names
      and without its rowid. Two rows serialise alike exactly when they map
      the same names to the same values, so the serialisation is that map. */
  type Serialised = map<string, Cell>

  function Serialise(names: seq<string>, row: seq<Cell>): Serialised {
    SerialiseUpTo(names, row, if |names| <= |row| then |names| else |row|)
  }

  function SerialiseUpTo(names: seq<string>, row: seq<Cell>, n: nat): Serialised
    requires n <= |names| && n <= |row|
  {
    if n == 0 then map[] else SerialiseUpTo(names, row, n - 1)[names[n - 1] := row[n - 1]]
  }

  // ------------------------------------------------------- the schemas

  /** The state after some of a loop's passes: the destination, and `None`
      while the loop goes on or how `merge` ends. */
  datatype Pass = Pass(content: Content, stop: Option<Outcome>)

  /** The loop over the source's tables (lines 59-67) after the tables
      `ns`: a table the destination had before the loop (`dst_tables`) must
      have the same SQL; any other is created from the source's SQL, which
      raises if a table of that name was created by an earlier pass. */
  function Schemas(initial: Content, src: Content, ns: seq<string>): (p: Pass)
    requires forall n :: n in ns ==> n in src.tables
    decreases |ns|
  {
    if ns == [] then Pass(initial, None)
    else
      var p := Schemas(initial, src, ns[..|ns| - 1]);
      var n := ns[|ns| - 1];
      var t := src.tables[n];
      if p.stop.Some? then p
      else if n in initial.tables then
        if t.sql != initial.tables[n].sql then Pass(p.content, Some(Mismatch)) else p
      else if n in p.content.tables then Pass(p.content, Some(Raised))
      else Pass(Create(p.content, n, t.sql, t.columns), None)
  }

  /** The schema loop only adds empty tables, created from the source's
      SQL, and keeps every table the destination had. */
  lemma {:induction false} SchemasKeep(initial: Content, src: Content, ns: seq<string>)
    requires forall n :: n in ns ==> n in src.tables
    requires WellFormed(initial)
    ensures var p := Schemas(initial, src, ns);
            && WellFormed(p.content)
            && (p.stop.None? || p.stop == Some(Mismatch) || p.stop == Some(Raised))
            && (forall n :: n in initial.tables ==> n in p.content.tables && p.content.tables[n] == initial.tables[n])
            && (forall n :: n in p.content.tables && n !in initial.tables ==>
                  n in ns && p.content.tables[n] == Table(src.tables[n].sql, src.tables[n].columns, []))
    decreases |ns|
  {
    if ns != [] {
      var init := ns[..|ns| - 1];
      assert forall m :: m in init ==> m in ns;
      SchemasKeep(initial, src, init);
      var p := Schemas(initial, src, init);
      var n := ns[|ns| - 1];
      if p.stop.None? && n !in initial.tables && n !in p.content.tables {
        var t := src.tables[n];
        var q := Create(p.content, n, t.sql, t.columns);
        assert Schemas(initial, src, ns) == Pass(q, None);
        forall m | m in q.tables && m !in initial.tables
          ensures m in ns && q.tables[m] == Table(src.tables[m].sql, src.tables[m].columns, [])
        {
          if m != n {
            assert m in p.content.tables;
          }
        }
      } else {
        assert Schemas(initial, src, ns).content == p.content;
      }
    }
  }

  /** When the schema loop runs to the end, every source table is in the
      destination, with the source's SQL. */
  lemma {:induction false} SchemasComplete(initial: Content, src: Content, ns: seq<string>)
    requires forall n :: n in ns ==> n in src.tables
    requires WellFormed(initial)
    ensures var p := Schemas(initial, src, ns);
            p.stop.None? ==> forall n :: n in ns ==> n in p.content.tables && p.content.tables[n].sql == src.tables[n].sql
    decreases |ns|
  {
    var p' := Schemas(initial, src, ns);
    if ns != [] && p'.stop.None? {
      var init := ns[..|ns| - 1];
      assert forall m :: m in init ==> m in ns;
      SchemasComplete(initial, src, init);
      SchemasKeep(initial, src, init);
      var p := Schemas(initial, src, init);
      var n := ns[|ns| - 1];
      var t := src.tables[n];
      assert p.stop.None?;
      if n in initial.tables {
        assert p'.content == p.content && t.sql == p.content.tables[n].sql;
      } else {
        assert n !in p.content.tables && p'.content == Create(p.content, n, t.sql, t.columns);
      }
      assert forall m :: m in p.content.tables ==> m in p'.content.tables && p'.content.tables[m] == p.content.tables[m];
      forall m | m in ns
        ensures m in p'.content.tables && p'.content.tables[m].sql == src.tables[m].sql
      {
        if m != n {
          InFront(ns, m);
        }
      }
    }
  }

  /** An element other than the last is in the front of the sequence. */
  lemma InFront<T>(s: seq<T>, x: T)
    requires x in s && x != s[|s| - 1]
    ensures x in s[..|s| - 1]
  {
    var i :| 0 <= i < |s| && s[i] == x;
    assert s[..|s| - 1][i] == x;
  }

  /** Source table names are distinct, so the schema loop never tries to
      create a table twice. */
  lemma {:induction false} SchemasNeverRaise(initial: Content, src: Content, ns: seq<string>)
    requires forall n :: n in ns ==> n in src.tables
    requires WellFormed(initial)
    requires forall i, j :: 0 <= i < j < |ns| ==> ns[i] != ns[j]
    ensures Schemas(initial, src, ns).stop != Some(Raised)
    decreases |ns|
  {
    if ns != [] {
      var init := ns[..|ns| - 1];
      var n := ns[|ns| - 1];
      SchemasNeverRaise(initial, src, init);
      SchemasKeep(initial, src, init);
      assert n !in init;
    }
  }

  /** Once the schema loop has stopped, later tables change nothing. */
  lemma {:induction false} SchemasStopped(initial: Content, src: Content, ns: seq<string>, k: nat)
    requires forall n :: n in ns ==> n in src.tables
    requires k <= |ns| && Schemas(initial, src, ns[..k]).stop.Some?
    ensures Schemas(initial, src, ns) == Schemas(initial, src, ns[..k])
    decreases |ns| - k
  {
    if k < |ns| {
      assert ns[..k + 1][..k] == ns[..k];
      SchemasStopped(initial, src, ns, k + 1);
    } else {
      assert ns[..k] == ns;
    }
  }

  /** A destination that already has every source table with the same SQL
      goes through the schema loop unchanged. */
  lemma {:induction false} SchemasIdle(initial: Content, src: Content, ns: seq<string>)
    requires forall n :: n in ns ==> n in src.tables && n in initial.tables && initial.tables[n].sql == src.tables[n].sql
    ensures Schemas(initial, src, ns) == Pass(initial, None)
    decreases |ns|
  {
    if ns != [] {
      assert forall m :: m in ns[..|ns| - 1] ==> m in ns;
      SchemasIdle(initial, src, ns[..|ns| - 1]);
    }
  }

  // ------------------------------------------------- the experiment ids

  /** `params` as read from the destination's experiments (lines 77-81):
      each row's serialisation maps to its rowid, a later row winning over
      an earlier one with the same serialisation. */
  function ParamsOf(rows: seq<seq<Cell>>, names: seq<string>): map<Serialised, nat>
    decreases |rows|
  {
    if rows == [] then map[]
    else ParamsOf(rows[..|rows| - 1], names)[Serialise(names, rows[|rows| - 1]) := |rows|]
  }

  /** Every row's serialisation is a key of `params`, and every key names a
      row with that serialisation. */
  lemma {:induction false} ParamsIndex(rows: seq<seq<Cell>>, names: seq<string>)
    ensures forall i :: 0 <= i < |rows| ==> Serialise(names, rows[i]) in ParamsOf(rows, names)
    ensures forall p :: p in ParamsOf(rows, names) ==>
              1 <= ParamsOf(rows, names)[p] <= |rows| && Serialise(names, rows[ParamsOf(rows, names)[p] - 1]) == p
    decreases |rows|
  {
    if rows != [] {
      var init := rows[..|rows| - 1];
      ParamsIndex(init, names);
      forall i | 0 <= i < |rows| - 1 ensures rows[i] == init[i] { }
    }
  }

  /** The two maps the experiment loop keeps, and the destination. */
  datatype Mapping = Mapping(content: Content, params: map<Serialised, nat>, mapper: map<int, nat>)

  /** One source experiment, rowid `rowid` (lines 89-110): an experiment
      whose serialisation is known maps to the known id; any other is
      inserted, and its new rowid is remembered for both. `None` when the
      insert raises. */
  function MapRow(m: Mapping, names: seq<string>, rowid: nat, row: seq<Cell>): Option<Mapping> {
    var p := Serialise(names, row);
    if p in m.params then Some(m.(mapper := m.mapper[rowid := m.params[p]]))
    else if !Fits(m.content, "experiments", names, [row]) then None
    else
      var c := Append(m.content, "experiments", [row]);
      var id := |c.tables["experiments"].rows|;
      Some(Mapping(c, m.params[p := id], m.mapper[rowid := id]))
  }

  /** The experiment loop over the source's experiments `rows`, whose
      column names are `names`. */
  function MapRows(m: Mapping, names: seq<string>, rows: seq<seq<Cell>>): Option<Mapping>
    decreases |rows|
  {
    if rows == [] then Some(m)
    else
      match MapRows(m, names, rows[..|rows| - 1])
      case None => None
      case Some(m') => MapRow(m', names, |rows|, rows[|rows| - 1])
  }

  /** Where the experiment loop starts on the destination `d`. */
  function Start(d: Content): Mapping
    requires "experiments" in d.tables
  {
    var e := d.tables["experiments"];
    Mapping(d, ParamsOf(e.rows, ColumnNames(e)), map[])
  }

  /** What the experiment loop keeps, after the source experiments `rows`,
      starting from the destination `d0` whose experiments' column names
      are `dn`: only rows of `experiments` are added, and `Indexed`,
      `Mapped` and `Fresh` hold of the experiments `e` by then. */
  ghost predicate Tracked(d0: Content, m: Mapping, names: seq<string>, rows: seq<seq<Cell>>)
    requires "experiments" in d0.tables
  {
    var n0 := |d0.tables["experiments"].rows|;
    var dn := ColumnNames(d0.tables["experiments"]);
    && "experiments" in m.content.tables
    && var e := m.content.tables["experiments"].rows;
    && n0 <= |e| && m.content == Append(d0, "experiments", e[n0..])
    && Indexed(dn, e, m.params)
    && Mapped(dn, e, m.mapper, names, rows)
    && Fresh(dn, e, n0)
  }

  /** `params` holds every experiment's serialisation, each mapped to the
      rowid of an experiment with that serialisation. */
  ghost predicate Indexed(dn: seq<string>, e: seq<seq<Cell>>, params: map<Serialised, nat>) {
    && (forall p :: p in params ==> 1 <= params[p] <= |e| && Serialise(dn, e[params[p] - 1]) == p)
    && (forall i :: 0 <= i < |e| ==> Serialise(dn, e[i]) in params)
  }

  /** `mapper` holds the rowid of every source experiment of `rows`, each
      mapped to the rowid of an experiment with the same serialisation. */
  ghost predicate Mapped(dn: seq<string>, e: seq<seq<Cell>>, mapper: map<int, nat>,
                         names: seq<string>, rows: seq<seq<Cell>>) {
    && (forall k :: k in mapper <==> 1 <= k <= |rows|)
    && (forall k :: 1 <= k <= |rows| ==>
          1 <= mapper[k] <= |e| && Serialise(dn, e[mapper[k] - 1]) == Serialise(names, rows[k - 1]))
  }

  /** No experiment from position `n0` on repeats an earlier one. */
  ghost predicate Fresh(dn: seq<string>, e: seq<seq<Cell>>, n0: nat) {
    forall i, j :: 0 <= i < j < |e| && n0 <= j ==> Serialise(dn, e[i]) != Serialise(dn, e[j])
  }

  lemma {:induction false} MapRowsTracked(d0: Content, names: seq<string>, rows: seq<seq<Cell>>)
    requires "experiments" in d0.tables
    ensures MapRows(Start(d0), names, rows).Some? ==> Tracked(d0, MapRows(Start(d0), names, rows).value, names, rows)
    decreases |rows|
  {
    if rows == [] {
      StartTracked(d0, names);
    } else {
      var init := rows[..|rows| - 1];
      MapRowsTracked(d0, names, init);
      var r := MapRows(Start(d0), names, init);
      if r.Some? {
        var m := r.value;
        assert MapRows(Start(d0), names, rows) == MapRow(m, names, |rows|, rows[|rows| - 1]);
        if Serialise(names, rows[|rows| - 1]) in m.params {
          MapRowKnown(d0, m, names, rows);
        } else if MapRow(m, names, |rows|, rows[|rows| - 1]).Some? {
          MapRowInserted(d0, m, names, rows);
        }
      }
    }
  }

  lemma StartTracked(d0: Content, names: seq<string>)
    requires "experiments" in d0.tables
    ensures Tracked(d0, Start(d0), names, [])
  {
    var e := d0.tables["experiments"];
    ParamsIndex(e.rows, ColumnNames(e));
    AppendNothing(d0, "experiments");
    assert e.rows[|e.rows|..] == [];
  }

  lemma MapRowKnown(d0: Content, m: Mapping, names: seq<string>, rows: seq<seq<Cell>>)
    requires "experiments" in d0.tables && rows != []
    requires Tracked(d0, m, names, rows[..|rows| - 1])
    requires Serialise(names, rows[|rows| - 1]) in m.params
    ensures MapRow(m, names, |rows|, rows[|rows| - 1]).Some?
    ensures Tracked(d0, MapRow(m, names, |rows|, rows[|rows| - 1]).value, names, rows)
  {
    var dn := ColumnNames(d0.tables["experiments"]);
    var e := m.content.tables["experiments"].rows;
    var id := m.params[Serialise(names, rows[|rows| - 1])];
    MappedSnoc(dn, e, m.mapper, names, rows, id);
  }

  lemma MapRowInserted(d0: Content, m: Mapping, names: seq<string>, rows: seq<seq<Cell>>)
    requires "experiments" in d0.tables && rows != []
    requires Tracked(d0, m, names, rows[..|rows| - 1])
    requires Serialise(names, rows[|rows| - 1]) !in m.params
    requires MapRow(m, names, |rows|, rows[|rows| - 1]).Some?
    ensures Tracked(d0, MapRow(m, names, |rows|, rows[|rows| - 1]).value, names, rows)
  {
    var row := rows[|rows| - 1];
    var p := Serialise(names, row);
    var n0 := |d0.tables["experiments"].rows|;
    var dn := ColumnNames(d0.tables["experiments"]);
    var e := m.content.tables["experiments"].rows;
    var m' := MapRow(m, names, |rows|, row).value;
    assert m'.content == Append(m.content, "experiments", [row]);
    assert names == dn;
    var e' := e + [row];
    assert m'.content.tables["experiments"].rows == e';
    assert e'[n0..] == e[n0..] + [row];
    AppendTwice(d0, "experiments", e[n0..], [row]);
    IndexedSnoc(dn, e, m.params, row);
    FreshSnoc(dn, e, m.params, n0, row);
    MappedGrow(dn, e, m.mapper, names, rows[..|rows| - 1], row);
    MappedSnoc(dn, e', m.mapper, names, rows, |e'|);
  }

  lemma IndexedSnoc(dn: seq<string>, e: seq<seq<Cell>>, params: map<Serialised, nat>, row: seq<Cell>)
    requires Indexed(dn, e, params) && Serialise(dn, row) !in params
    ensures Indexed(dn, e + [row], params[Serialise(dn, row) := |e| + 1])
  {
    var e' := e + [row];
    assert forall i :: 0 <= i < |e| ==> e'[i] == e[i];
  }

  lemma FreshSnoc(dn: seq<string>, e: seq<seq<Cell>>, params: map<Serialised, nat>, n0: nat, row: seq<Cell>)
    requires Indexed(dn, e, params) && Fresh(dn, e, n0) && Serialise(dn, row) !in params
    ensures Fresh(dn, e + [row], n0)
  {
    var e' := e + [row];
    assert forall i :: 0 <= i < |e| ==> e'[i] == e[i];
  }

  lemma MappedGrow(dn: seq<string>, e: seq<seq<Cell>>, mapper: map<int, nat>,
                   names: seq<string>, rows: seq<seq<Cell>>, row: seq<Cell>)
    requires Mapped(dn, e, mapper, names, rows)
    ensures Mapped(dn, e + [row], mapper, names, rows)
  {
    var e' := e + [row];
    assert forall i :: 0 <= i < |e| ==> e'[i] == e[i];
  }

  lemma MappedSnoc(dn: seq<string>, e: seq<seq<Cell>>, mapper: map<int, nat>,
                   names: seq<string>, rows: seq<seq<Cell>>, id: nat)
    requires rows != [] && Mapped(dn, e, mapper, names, rows[..|rows| - 1])
    requires 1 <= id <= |e| && Serialise(dn, e[id - 1]) == Serialise(names, rows[|rows| - 1])
    ensures Mapped(dn, e, mapper[|rows| := id], names, rows)
  {
    var init := rows[..|rows| - 1];
    assert forall j :: 0 <= j < |init| ==> init[j] == rows[j];
  }

  // ------------------------------------------------- the dependent rows

  /** `row[index] = mapper[r[index]]` (line 34): `None` is the `KeyError`
      of an experiment id `mapper` does not hold. */
  function Remap(row: seq<Cell>, index: nat, mapper: map<int, nat>): (r: Option<seq<Cell>>)
    ensures r.Some? <==> index < |row| && row[index].Int? && row[index].i in mapper
    ensures r.Some? ==> && |r.value| == |row| && r.value[index] == Int(mapper[row[index].i])
                        && forall j :: 0 <= j < |row| && j != index ==> r.value[j] == row[j]
  {
    if index < |row| && row[index].Int? && row[index].i in mapper then
      Some(row[index := Int(mapper[row[index].i])])
    else None
  }

  /** Every row of a table rewritten, in order; `None` when one raises. */
  function RemapAll(rows: seq<seq<Cell>>, index: nat, mapper: map<int, nat>): (r: Option<seq<seq<Cell>>>)
    ensures r.Some? ==> |r.value| == |rows|
    decreases |rows|
  {
    if rows == [] then Some([])
    else
      var init := RemapAll(rows[..|rows| - 1], index, mapper);
      var last := Remap(rows[|rows| - 1], index, mapper);
      if init.Some? && last.Some? then Some(init.value + [last.value]) else None
  }

  /** The rows are rewritten one by one: all succeed exactly when each
      does, and row `i` of the result is row `i` rewritten. */
  lemma {:induction false} RemapAllAt(rows: seq<seq<Cell>>, index: nat, mapper: map<int, nat>)
    ensures var r := RemapAll(rows, index, mapper);
            && (r.Some? <==> forall i :: 0 <= i < |rows| ==> Remap(rows[i], index, mapper).Some?)
            && (r.Some? ==> forall i :: 0 <= i < |rows| ==> Remap(rows[i], index, mapper) == Some(r.value[i]))
    decreases |rows|
  {
    if rows != [] {
      var init := rows[..|rows| - 1];
      RemapAllAt(init, index, mapper);
      assert forall i :: 0 <= i < |init| ==> init[i] == rows[i];
    }
  }

  /** `copy_table(name, cur, cur2, mapper)`: the destination with the
      source's rows of `name` appended, each with its `experiment` entry
      rewritten through `mapper`. `None` when it raises: the source has no
      such table (`OperationalError`), the table is empty (`fetchone()` is
      None, a `TypeError`), it has no `experiment` column (`IndexError`),
      an id is not in `mapper` (`KeyError`), or the rows do not fit the
      destination's table. */
  function Copied(c: Content, src: Content, name: string, mapper: map<int, nat>): Option<Content> {
    if name !in src.tables || src.tables[name].rows == [] then None
    else
      var cols := ColumnNames(src.tables[name]);
      if "experiment" !in cols then None
      else
        match RemapAll(src.tables[name].rows, ColumnIndex(cols, "experiment"), mapper)
        case None => None
        case Some(out) => if Fits(c, name, cols, out) then Some(Append(c, name, out)) else None
  }

  /** A copy appends the source rows to the table of the same name, in
      order and one for one, each unchanged but for its `experiment` entry,
      and leaves every other table as it was. */
  lemma CopiedAppends(c: Content, src: Content, name: string, mapper: map<int, nat>)
    requires Copied(c, src, name, mapper).Some?
    ensures var d := Copied(c, src, name, mapper).value;
            var rows := src.tables[name].rows;
            var index := ColumnIndex(ColumnNames(src.tables[name]), "experiment");
            && name in c.tables && name in d.tables
            && d.tables[name].rows[..|c.tables[name].rows|] == c.tables[name].rows
            && |d.tables[name].rows| == |c.tables[name].rows| + |rows|
            && (forall i :: 0 <= i < |rows| ==>
                  Remap(rows[i], index, mapper) == Some(d.tables[name].rows[|c.tables[name].rows| + i]))
            && (forall n :: n in c.tables && n != name ==> n in d.tables && d.tables[n] == c.tables[n])
            && d.names == c.names
  {
    var rows := src.tables[name].rows;
    var index := ColumnIndex(ColumnNames(src.tables[name]), "experiment");
    RemapAllAt(rows, index, mapper);
    var out := RemapAll(rows, index, mapper).value;
    var d := Copied(c, src, name, mapper).value;
    assert d.tables[name].rows == c.tables[name].rows + out;
  }

  // ------------------------------------------------------------ merge

  /** `merge(db, db2)`: the destination's content when `merge` returns or
      raises (what is committed by then), and how it ended. */
  function MergeOf(initial: Content, src: Content): (Content, Outcome)
    requires WellFormed(initial) && WellFormed(src)
  {
    SchemasKeep(initial, src, src.names);
    SchemasComplete(initial, src, src.names);
    var s := Schemas(initial, src, src.names);
    if s.stop.Some? then (s.content, s.stop.value)
    else if "experiments" !in src.tables then (s.content, NoExperiments)
    else Transfer(s.content, src)
  }

  /** Everything after the schema check: the experiment loop, committed,
      then the dependent tables. */
  function Transfer(d: Content, src: Content): (Content, Outcome)
    requires "experiments" in d.tables && "experiments" in src.tables
  {
    var se := src.tables["experiments"];
    match MapRows(Start(d), ColumnNames(se), se.rows)
    case None => (d, Raised)
    case Some(m) => Dependents(m.content, src, m.mapper)
  }

  /** `copy_table` for `data`, committed, then for `summary` if the source
      has it, committed. */
  function Dependents(c: Content, src: Content, mapper: map<int, nat>): (Content, Outcome) {
    match Copied(c, src, "data", mapper)
    case None => (c, Raised)
    case Some(c1) =>
      if "summary" !in src.tables then (c1, Merged)
      else
        match Copied(c1, src, "summary", mapper)
        case None => (c1, Raised)
        case Some(c2) => (c2, Merged)
  }

  /** When `merge` stops at the schema check or for want of experiments,
      no row has been copied: the destination's tables are as they were,
      and the tables it gained are empty. */
  lemma MergeStopsEarly(initial: Content, src: Content)
    requires WellFormed(initial) && WellFormed(src)
    requires MergeOf(initial, src).1 == Mismatch || MergeOf(initial, src).1 == NoExperiments
    ensures var c := MergeOf(initial, src).0;
            && WellFormed(c)
            && (forall n :: n in initial.tables ==> n in c.tables && c.tables[n] == initial.tables[n])
            && (forall n :: n in c.tables && n !in initial.tables ==> c.tables[n].rows == [])
  {
    SchemasKeep(initial, src, src.names);
  }

  /** A data row of the source, `r`, and its copy, `r2`: the same but for the
      `experiment` entry at `index`, which names source experiment `k` in
      `r` and destination experiment `k2` in `r2`, and the two experiments
      have the same parameters. */
  ghost predicate Linked(dn: seq<string>, e: seq<seq<Cell>>, sn: seq<string>, se: seq<seq<Cell>>,
                         r: seq<Cell>, r2: seq<Cell>, index: nat) {
    && |r2| == |r| && index < |r|
    && (forall j :: 0 <= j < |r| && j != index ==> r2[j] == r[j])
    && r[index].Int? && 1 <= r[index].i <= |se|
    && r2[index].Int? && 1 <= r2[index].i <= |e|
    && Serialise(dn, e[r2[index].i - 1]) == Serialise(sn, se[r[index].i - 1])
  }

  lemma LinksFromMapped(dn: seq<string>, e: seq<seq<Cell>>, mapper: map<int, nat>, sn: seq<string>,
                        se: seq<seq<Cell>>, rows: seq<seq<Cell>>, out: seq<seq<Cell>>, index: nat)
    requires Mapped(dn, e, mapper, sn, se)
    requires |out| == |rows| && forall i :: 0 <= i < |rows| ==> Remap(rows[i], index, mapper) == Some(out[i])
    ensures forall i :: 0 <= i < |rows| ==> Linked(dn, e, sn, se, rows[i], out[i], index)
  {
    forall i | 0 <= i < |rows| ensures Linked(dn, e, sn, se, rows[i], out[i], index) {
      assert rows[i][index].i in mapper;
    }
  }

  /** After a completed `merge`, the destination's data rows are the ones it
      had, then the source's data rows, in order, each pointing at a
      destination experiment with the parameters of the source experiment
      it pointed at. */
  lemma MergedLinks(initial: Content, src: Content)
    requires WellFormed(initial) && WellFormed(src)
    requires MergeOf(initial, src).1 == Merged
    ensures Carried(if "data" in initial.tables then initial.tables["data"].rows else [], src, MergeOf(initial, src).0)
  {
    var d := Schemas(initial, src, src.names).content;
    assert "data" in d.tables && "experiments" in d.tables && "experiments" in src.tables
      && d.tables["data"].rows == (if "data" in initial.tables then initial.tables["data"].rows else [])
      && MergeOf(initial, src) == Transfer(d, src) by {
      SchemasKeep(initial, src, src.names);
      SchemasComplete(initial, src, src.names);
    }
    TransferLinks(d, src);
  }

  /** What a completed transfer from `src` leaves in `c` when the
      destination's data rows were `before`: those rows, then one row per
      source data row, each `Linked` to it. */
  ghost predicate Carried(before: seq<seq<Cell>>, src: Content, c: Content) {
    var n0 := |before|;
    && "experiments" in src.tables && "data" in src.tables
    && "experiment" in ColumnNames(src.tables["data"])
    && "experiments" in c.tables && "data" in c.tables
    && var rows := src.tables["data"].rows;
    && var e := c.tables["experiments"];
    && var se := src.tables["experiments"];
    && var index := ColumnIndex(ColumnNames(src.tables["data"]), "experiment");
    && |c.tables["data"].rows| == n0 + |rows|
    && c.tables["data"].rows[..n0] == before
    && forall i :: 0 <= i < |rows| ==>
         Linked(ColumnNames(e), e.rows, ColumnNames(se), se.rows, rows[i], c.tables["data"].rows[n0 + i], index)
  }

  /** `MergedLinks` after the schema check, from the destination `d`. */
  lemma TransferLinks(d: Content, src: Content)
    requires "experiments" in d.tables && "experiments" in src.tables && "data" in d.tables
    requires Transfer(d, src).1 == Merged
    ensures Carried(d.tables["data"].rows, src, Transfer(d, src).0)
  {
    var se := src.tables["experiments"];
    MapRowsTracked(d, ColumnNames(se), se.rows);
    var m := MapRows(Start(d), ColumnNames(se), se.rows).value;
    assert Transfer(d, src) == Dependents(m.content, src, m.mapper);
    MappedLinks(d, m, src);
  }

  /** `TransferLinks` once the experiments are mapped into `m`. */
  lemma MappedLinks(d: Content, m: Mapping, src: Content)
    requires "experiments" in d.tables && "experiments" in src.tables && "data" in d.tables
    requires Tracked(d, m, ColumnNames(src.tables["experiments"]), src.tables["experiments"].rows)
    requires Dependents(m.content, src, m.mapper).1 == Merged
    ensures Carried(d.tables["data"].rows, src, Dependents(m.content, src, m.mapper).0)
  {
    var se := src.tables["experiments"];
    var sn := ColumnNames(se);
    var dn := ColumnNames(d.tables["experiments"]);
    var e := m.content.tables["experiments"].rows;
    assert m.content.tables["data"] == d.tables["data"];
    assert ColumnNames(m.content.tables["experiments"]) == dn;
    DependentsLinks(m.content, src, m.mapper);
    var rows := src.tables["data"].rows;
    var c := Dependents(m.content, src, m.mapper).0;
    var n0 := |d.tables["data"].rows|;
    var index := ColumnIndex(ColumnNames(src.tables["data"]), "experiment");
    LinksFromMapped(dn, e, m.mapper, sn, se.rows, rows, c.tables["data"].rows[n0..], index);
  }

  /** The dependent tables copied: `data` gains the source's rows, each
      rewritten through `mapper`, and `experiments` is untouched. */
  lemma DependentsLinks(c: Content, src: Content, mapper: map<int, nat>)
    requires Dependents(c, src, mapper).1 == Merged
    ensures var c2 := Dependents(c, src, mapper).0;
            && "data" in src.tables && "experiment" in ColumnNames(src.tables["data"])
            && "data" in c.tables && "data" in c2.tables
            && var rows := src.tables["data"].rows;
            && var index := ColumnIndex(ColumnNames(src.tables["data"]), "experiment");
            && var added := c2.tables["data"].rows[|c.tables["data"].rows|..];
            && c2.tables["data"].rows[..|c.tables["data"].rows|] == c.tables["data"].rows
            && |added| == |rows|
            && (forall i :: 0 <= i < |rows| ==> Remap(rows[i], index, mapper) == Some(added[i]))
            && (forall n :: n in c.tables && n != "data" && n != "summary" ==> n in c2.tables && c2.tables[n] == c.tables[n])
  {
    var c1 := Copied(c, src, "data", mapper).value;
    CopiedAppends(c, src, "data", mapper);
    if "summary" in src.tables {
      CopiedAppends(c1, src, "summary", mapper);
    }
  }

  // --------------------------------------------------- merging twice

  /** With every source experiment already known, the experiment loop
      inserts nothing: it only maps each source rowid. */
  lemma {:induction false} MapRowsKnown(m: Mapping, names: seq<string>, rows: seq<seq<Cell>>)
    requires forall i :: 0 <= i < |rows| ==> Serialise(names, rows[i]) in m.params
    ensures MapRows(m, names, rows).Some?
    ensures var m' := MapRows(m, names, rows).value;
            && m'.content == m.content && m'.params == m.params
            && forall k :: k in m'.mapper <==> k in m.mapper || 1 <= k <= |rows|
    decreases |rows|
  {
    if rows != [] {
      var init := rows[..|rows| - 1];
      assert forall i :: 0 <= i < |init| ==> init[i] == rows[i];
      MapRowsKnown(m, names, init);
    }
  }

  /** After the experiment loop, every source experiment's serialisation
      is among those `params` is read from on the destination's
      experiments `e`. */
  lemma KnownAfterMapping(dn: seq<string>, e: Table, mapper: map<int, nat>, sn: seq<string>, se: seq<seq<Cell>>)
    requires ColumnNames(e) == dn && Mapped(dn, e.rows, mapper, sn, se)
    ensures forall i :: 0 <= i < |se| ==> Serialise(sn, se[i]) in ParamsOf(e.rows, ColumnNames(e))
  {
    ParamsIndex(e.rows, dn);
    forall i | 0 <= i < |se| ensures Serialise(sn, se[i]) in ParamsOf(e.rows, dn) {
      assert 1 <= i + 1 <= |se|;
      assert Serialise(dn, e.rows[mapper[i + 1] - 1]) == Serialise(sn, se[i]);
    }
  }

  /** A copy that went through goes through again, into a table with the
      same columns and through a mapper with the same keys. */
  lemma CopiedAgain(c: Content, c': Content, src: Content, name: string, mapper: map<int, nat>, mapper': map<int, nat>)
    requires Copied(c, src, name, mapper).Some?
    requires name in c.tables && name in c'.tables && ColumnNames(c'.tables[name]) == ColumnNames(c.tables[name])
    requires forall k :: k in mapper <==> k in mapper'
    ensures Copied(c', src, name, mapper').Some?
  {
    var rows := src.tables[name].rows;
    var cols := ColumnNames(src.tables[name]);
    var index := ColumnIndex(cols, "experiment");
    RemapAllAt(rows, index, mapper);
    RemapAllAt(rows, index, mapper');
    var out := RemapAll(rows, index, mapper).value;
    assert RemapAll(rows, index, mapper').Some?;
    var out' := RemapAll(rows, index, mapper').value;
    assert forall i :: 0 <= i < |rows| ==> |out'[i]| == |rows[i]| == |out[i]|;
  }

  /** The dependent tables copied once are copied again, through a mapper
      with the same keys. */
  lemma DependentsAgain(c: Content, src: Content, mapper: map<int, nat>, mapper': map<int, nat>)
    requires Dependents(c, src, mapper).1 == Merged
    requires forall k :: k in mapper <==> k in mapper'
    ensures Dependents(Dependents(c, src, mapper).0, src, mapper').1 == Merged
  {
    var c1 := Copied(c, src, "data", mapper).value;
    var c' := Dependents(c, src, mapper).0;
    assert "data" in c'.tables && ColumnNames(c'.tables["data"]) == ColumnNames(c.tables["data"]);
    CopiedAgain(c, c', src, "data", mapper, mapper');
    if "summary" in src.tables {
      var c'1 := Copied(c', src, "data", mapper').value;
      assert "summary" in c1.tables && "summary" in c'1.tables;
      assert ColumnNames(c'1.tables["summary"]) == ColumnNames(c1.tables["summary"]);
      CopiedAgain(c1, c'1, src, "summary", mapper, mapper');
    }
  }

  /** Every table keeps its SQL and columns from `a` to `b`, and none is
      added or dropped. */
  ghost predicate SameShape(a: Content, b: Content) {
    && b.names == a.names
    && (forall n :: n in b.tables <==> n in a.tables)
    && (forall n :: n in a.tables ==> b.tables[n].sql == a.tables[n].sql && b.tables[n].columns == a.tables[n].columns)
  }

  /** Appending rows keeps the shape. */
  lemma AppendShape(c: Content, name: string, rows: seq<seq<Cell>>)
    requires name in c.tables
    ensures SameShape(c, Append(c, name, rows))
  {
  }

  /** The dependent tables copied only add rows. */
  lemma DependentsShape(c: Content, src: Content, mapper: map<int, nat>)
    requires Dependents(c, src, mapper).1 == Merged
    ensures SameShape(c, Dependents(c, src, mapper).0)
  {
    var c1 := Copied(c, src, "data", mapper).value;
    AppendShape(c, "data", RemapAll(src.tables["data"].rows, ColumnIndex(ColumnNames(src.tables["data"]), "experiment"), mapper).value);
    if "summary" in src.tables {
      AppendShape(c1, "summary", RemapAll(src.tables["summary"].rows, ColumnIndex(ColumnNames(src.tables["summary"]), "experiment"), mapper).value);
    }
  }

  /** A completed transfer only adds rows. */
  lemma TransferShape(d: Content, src: Content)
    requires "experiments" in d.tables && "experiments" in src.tables
    requires Transfer(d, src).1 == Merged
    ensures SameShape(d, Transfer(d, src).0)
  {
    var se := src.tables["experiments"];
    MapRowsTracked(d, ColumnNames(se), se.rows);
    var m := MapRows(Start(d), ColumnNames(se), se.rows).value;
    assert Transfer(d, src) == Dependents(m.content, src, m.mapper);
    var e := m.content.tables["experiments"].rows;
    AppendShape(d, "experiments", e[|d.tables["experiments"].rows|..]);
    DependentsShape(m.content, src, m.mapper);
  }

  /** A completed transfer, repeated on its own result, completes again
      and adds no experiment. */
  lemma TransferTwice(d: Content, src: Content)
    requires "experiments" in d.tables && "experiments" in src.tables
    requires Transfer(d, src).1 == Merged
    ensures var c1 := Transfer(d, src).0;
            && "experiments" in c1.tables
            && Transfer(c1, src).1 == Merged
            && "experiments" in Transfer(c1, src).0.tables
            && Transfer(c1, src).0.tables["experiments"] == c1.tables["experiments"]
  {
    var se := src.tables["experiments"];
    MapRowsTracked(d, ColumnNames(se), se.rows);
    var m := MapRows(Start(d), ColumnNames(se), se.rows).value;
    assert Transfer(d, src) == Dependents(m.content, src, m.mapper);
    MappedTwice(d, m, src);
  }

  /** `TransferTwice` once the experiments are mapped into `m`. */
  lemma MappedTwice(d: Content, m: Mapping, src: Content)
    requires "experiments" in d.tables && "experiments" in src.tables
    requires Tracked(d, m, ColumnNames(src.tables["experiments"]), src.tables["experiments"].rows)
    requires Dependents(m.content, src, m.mapper).1 == Merged
    ensures var c1 := Dependents(m.content, src, m.mapper).0;
            && "experiments" in c1.tables
            && Transfer(c1, src).1 == Merged
            && "experiments" in Transfer(c1, src).0.tables
            && Transfer(c1, src).0.tables["experiments"] == c1.tables["experiments"]
  {
    var se := src.tables["experiments"];
    var sn := ColumnNames(se);
    var c1 := Dependents(m.content, src, m.mapper).0;
    DependentsLinks(m.content, src, m.mapper);
    assert "experiments" in c1.tables && c1.tables["experiments"] == m.content.tables["experiments"];
    assert ColumnNames(c1.tables["experiments"]) == ColumnNames(d.tables["experiments"]);
    KnownAfterMapping(ColumnNames(d.tables["experiments"]), c1.tables["experiments"], m.mapper, sn, se.rows);
    MapRowsKnown(Start(c1), sn, se.rows);
    var m2 := MapRows(Start(c1), sn, se.rows).value;
    assert Transfer(c1, src) == Dependents(c1, src, m2.mapper);
    DependentsAgain(m.content, src, m.mapper, m2.mapper);
    DependentsLinks(c1, src, m2.mapper);
  }

  /** Merging the same source a second time adds no experiment, and
      appends the source's data rows again, each linked as the first time. */
  lemma MergeTwice(initial: Content, src: Content)
    requires WellFormed(initial) && WellFormed(src)
    requires MergeOf(initial, src).1 == Merged
    ensures var c1 := MergeOf(initial, src).0;
            && WellFormed(c1) && "experiments" in c1.tables && "data" in c1.tables
            && MergeOf(c1, src).1 == Merged
            && "experiments" in MergeOf(c1, src).0.tables
            && MergeOf(c1, src).0.tables["experiments"] == c1.tables["experiments"]
            && Carried(c1.tables["data"].rows, src, MergeOf(c1, src).0)
  {
    var d := Schemas(initial, src, src.names).content;
    assert && WellFormed(d) && "experiments" in d.tables && "experiments" in src.tables
           && (forall n :: n in src.tables ==> n in d.tables && d.tables[n].sql == src.tables[n].sql)
           && MergeOf(initial, src) == Transfer(d, src) by {
      SchemasKeep(initial, src, src.names);
      SchemasComplete(initial, src, src.names);
    }
    var c1 := Transfer(d, src).0;
    TransferShape(d, src);
    assert WellFormed(c1);
    assert Schemas(c1, src, src.names) == Pass(c1, None) by {
      SchemasIdle(c1, src, src.names);
    }
    assert MergeOf(c1, src) == Transfer(c1, src);
    TransferTwice(d, src);
    MergedLinks(initial, src);
    MergedLinks(c1, src);
  }

  // ------------------------------------------------------------ methods

  /** `merge(db, db2)` on a destination holding `initial` and a source
      holding `src`: what the destination holds afterwards, and how `merge`
      ended. */
  method MergeStores(initial: Content, src: Content) returns (found: Content, outcome: Outcome)
    requires WellFormed(initial) && WellFormed(src)
    ensures (found, outcome) == MergeOf(initial, src)
  {
    var db := new Database(initial);
    SchemasKeep(initial, src, src.names);
    SchemasComplete(initial, src, src.names);
    var stop := CreateTables(db, src);
    if stop.Some? {
      return db.committed, stop.value;
    }
    if "experiments" !in src.tables {
      return db.committed, NoExperiments;
    }
    var e := db.content.tables["experiments"];
    var params := ReadParams(e.rows, ColumnNames(e));
    var mapped, mapper := MapExperiments(db, src.tables["experiments"], params);
    if !mapped {
      db.Abandon();
      return db.committed, Raised;
    }
    db.Commit();
    var copied := CopyTable(db, src, "data", mapper);
    if !copied {
      db.Abandon();
      return db.committed, Raised;
    }
    db.Commit();
    if "summary" in src.tables {
      copied := CopyTable(db, src, "summary", mapper);
      if !copied {
        db.Abandon();
        return db.committed, Raised;
      }
      db.Commit();
    }
    return db.committed, Merged;
  }

  /** The loop over the source's tables: `dst_tables` read first, then each
      source table checked against it or created. */
  method CreateTables(db: Database, src: Content) returns (stop: Option<Outcome>)
    requires db.Valid() && db.content == db.committed && WellFormed(src)
    modifies db
    ensures db.Valid() && db.content == db.committed
    ensures Pass(db.content, stop) == Schemas(old(db.content), src, src.names)
  {
    ghost var initial := db.content;
    var dstTables := map n | n in db.content.tables :: db.content.tables[n].sql;
    var i := 0;
    while i < |src.names|
      invariant 0 <= i <= |src.names|
      invariant db.Valid() && db.content == db.committed
      invariant Schemas(initial, src, src.names[..i]) == Pass(db.content, None)
    {
      var n := src.names[i];
      var t := src.tables[n];
      SchemasNext(initial, src, src.names, i, db.content);
      if n in dstTables {
        if t.sql != dstTables[n] {
          SchemasStopped(initial, src, src.names, i + 1);
          return Some(Mismatch);
        }
      } else {
        var made := db.CreateTable(n, t.sql, t.columns);
        if !made {
          SchemasStopped(initial, src, src.names, i + 1);
          return Some(Raised);
        }
      }
      i := i + 1;
    }
    assert src.names[..i] == src.names;
    return None;
  }

  /** One more pass of the schema loop. */
  lemma SchemasNext(initial: Content, src: Content, ns: seq<string>, i: nat, d: Content)
    requires forall n :: n in ns ==> n in src.tables
    requires i < |ns| && Schemas(initial, src, ns[..i]) == Pass(d, None)
    ensures var n := ns[i];
            var t := src.tables[n];
            Schemas(initial, src, ns[..i + 1])
            == if n in initial.tables then
                 if t.sql != initial.tables[n].sql then Pass(d, Some(Mismatch)) else Pass(d, None)
               else if n in d.tables then Pass(d, Some(Raised))
               else Pass(Create(d, n, t.sql, t.columns), None)
  {
    assert ns[..i + 1][..i] == ns[..i];
  }

  /** The loop over the destination's experiments that fills `params`. */
  method ReadParams(rows: seq<seq<Cell>>, names: seq<string>) returns (params: map<Serialised, nat>)
    ensures params == ParamsOf(rows, names)
  {
    params := map[];
    var i := 0;
    while i < |rows|
      invariant 0 <= i <= |rows|
      invariant params == ParamsOf(rows[..i], names)
    {
      assert rows[..i + 1][..i] == rows[..i];
      params := params[Serialise(names, rows[i]) := i + 1];
      i := i + 1;
    }
    assert rows[..i] == rows;
  }

  /** The loop over the source's experiments that fills `mapper` and
      inserts the experiments the destination lacks. `ok` is false when an
      insert raised; what it inserted before is then not stated, as the
      caller drops the connection. */
  method MapExperiments(db: Database, t: Table, params: map<Serialised, nat>) returns (ok: bool, mapper: map<int, nat>)
    requires db.Valid()
    modifies db
    ensures db.Valid() && db.committed == old(db.committed)
    ensures var r := MapRows(Mapping(old(db.content), params, map[]), ColumnNames(t), t.rows);
            && (ok <==> r.Some?)
            && (ok ==> db.content == r.value.content && mapper == r.value.mapper)
  {
    var names := ColumnNames(t);
    var known := params;
    mapper := map[];
    ghost var start := Mapping(db.content, params, map[]);
    var i := 0;
    while i < |t.rows|
      invariant 0 <= i <= |t.rows|
      invariant db.Valid() && db.committed == old(db.committed)
      invariant MapRows(start, names, t.rows[..i]) == Some(Mapping(db.content, known, mapper))
    {
      MapRowsNext(start, names, t.rows, i);
      ok, known, mapper := MapOne(db, known, mapper, names, i + 1, t.rows[i]);
      if !ok {
        MapRowsStopped(start, names, t.rows, i + 1);
        return false, mapper;
      }
      i := i + 1;
    }
    assert t.rows[..i] == t.rows;
    ok := true;
  }

  /** One pass of the experiment loop, on the source experiment `row`
      whose rowid is `rowid`. */
  method MapOne(db: Database, known: map<Serialised, nat>, mapper: map<int, nat>, names: seq<string>,
                rowid: nat, row: seq<Cell>) returns (ok: bool, known': map<Serialised, nat>, mapper': map<int, nat>)
    requires db.Valid()
    modifies db
    ensures db.Valid() && db.committed == old(db.committed)
    ensures var r := MapRow(Mapping(old(db.content), known, mapper), names, rowid, row);
            && (ok <==> r.Some?)
            && (ok ==> r.value == Mapping(db.content, known', mapper'))
  {
    var p := Serialise(names, row);
    if p in known {
      return true, known, mapper[rowid := known[p]];
    }
    var id := db.Insert("experiments", names, row);
    if id.None? {
      return false, known, mapper;
    }
    return true, known[p := id.value], mapper[rowid := id.value];
  }

  /** One more pass of the experiment loop. */
  lemma MapRowsNext(m: Mapping, names: seq<string>, rows: seq<seq<Cell>>, i: nat)
    requires i < |rows|
    ensures MapRows(m, names, rows[..i + 1])
            == match MapRows(m, names, rows[..i])
               case None => None
               case Some(m') => MapRow(m', names, i + 1, rows[i])
  {
    assert rows[..i + 1][..i] == rows[..i];
  }

  /** Once the experiment loop has raised, later experiments change nothing. */
  lemma {:induction false} MapRowsStopped(m: Mapping, names: seq<string>, rows: seq<seq<Cell>>, k: nat)
    requires k <= |rows| && MapRows(m, names, rows[..k]).None?
    ensures MapRows(m, names, rows).None?
    decreases |rows| - k
  {
    if k < |rows| {
      assert rows[..k + 1][..k] == rows[..k];
      MapRowsStopped(m, names, rows, k + 1);
    } else {
      assert rows[..k] == rows;
    }
  }

  /** The most rows `copy_table` holds before it inserts them. */
  const BatchSize := 100000

  /** `copy_table(name, cur, cur2, mapper)`. `ok` is false when it raised;
      what it inserted before is then not stated, as the caller drops the
      connection. */
  method CopyTable(db: Database, src: Content, name: string, mapper: map<int, nat>) returns (ok: bool)
    requires db.Valid()
    modifies db
    ensures db.Valid() && db.committed == old(db.committed)
    ensures ok <==> Copied(old(db.content), src, name, mapper).Some?
    ensures ok ==> db.content == Copied(old(db.content), src, name, mapper).value
  {
    if name !in src.tables || src.tables[name].rows == [] {
      return false;
    }
    var cols := ColumnNames(src.tables[name]);
    if "experiment" !in cols {
      return false;
    }
    ok := CopyRows(db, name, cols, src.tables[name].rows, ColumnIndex(cols, "experiment"), mapper);
  }

  /** The loop of `copy_table`: the rows rewritten and collected in
      `values`, inserted whenever more than `BatchSize` are waiting and once
      more at the end. */
  method CopyRows(db: Database, name: string, cols: seq<string>, rows: seq<seq<Cell>>, index: nat,
                  mapper: map<int, nat>) returns (ok: bool)
    requires db.Valid() && rows != []
    modifies db
    ensures db.Valid() && db.committed == old(db.committed)
    ensures var out := RemapAll(rows, index, mapper);
            && (ok <==> out.Some? && Fits(old(db.content), name, cols, out.value))
            && (ok ==> db.content == Append(old(db.content), name, out.value))
  {
    ghost var c := db.content;
    var values: seq<seq<Cell>> := [];
    var i := 0;
    while i < |rows|
      invariant 0 <= i <= |rows|
      invariant db.Valid() && db.committed == old(db.committed)
      invariant Feeding(c, name, cols, rows, index, mapper, i, values, db.content)
    {
      ok, values := Feed(db, c, name, cols, rows, index, mapper, i, values);
      if !ok {
        return false;
      }
      i := i + 1;
    }
    assert rows[..i] == rows;
    if |values| > 0 {
      ok := Flush(db, c, name, cols, RemapAll(rows, index, mapper).value, values);
      if !ok {
        return false;
      }
    }
    BatchedDone(c, name, cols, RemapAll(rows, index, mapper).value, db.content);
    return true;
  }

  /** The state of `copy_table`'s loop after `i` rows: each rewritten, and
      `Batched`. */
  ghost predicate Feeding(c: Content, name: string, cols: seq<string>, rows: seq<seq<Cell>>, index: nat,
                          mapper: map<int, nat>, i: nat, values: seq<seq<Cell>>, now: Content) {
    && i <= |rows|
    && RemapAll(rows[..i], index, mapper).Some?
    && Batched(c, name, cols, RemapAll(rows[..i], index, mapper).value, values, now)
  }

  /** One pass of `copy_table`'s loop: row `i` rewritten and added to
      `values`, which is inserted when it holds more than `BatchSize`
      rows. `ok` is false when it raised, and then the whole table could
      not have been copied. */
  method Feed(db: Database, ghost c: Content, name: string, cols: seq<string>, rows: seq<seq<Cell>>, index: nat,
              mapper: map<int, nat>, i: nat, values: seq<seq<Cell>>) returns (ok: bool, values': seq<seq<Cell>>)
    requires db.Valid() && i < |rows|
    requires Feeding(c, name, cols, rows, index, mapper, i, values, db.content)
    modifies db
    ensures db.Valid() && db.committed == old(db.committed)
    ensures ok ==> Feeding(c, name, cols, rows, index, mapper, i + 1, values', db.content)
    ensures !ok ==> RemapAll(rows, index, mapper).None? || !Fits(c, name, cols, RemapAll(rows, index, mapper).value)
  {
    ghost var out := RemapAll(rows[..i], index, mapper).value;
    var row := Remap(rows[i], index, mapper);
    if row.None? {
      assert RemapAll(rows, index, mapper).None? by {
        RemapAllAt(rows, index, mapper);
      }
      return false, values;
    }
    ghost var out' := out + [row.value];
    assert RemapAll(rows[..i + 1], index, mapper) == Some(out') by {
      RemapNext(rows, i, index, mapper);
    }
    BatchedAdd(c, name, cols, out, values, db.content, row.value);
    values' := values + [row.value];
    if |values'| > BatchSize {
      ok := Flush(db, c, name, cols, out', values');
      if !ok {
        RemapFits(c, name, cols, rows, i + 1, index, mapper);
        return false, values';
      }
      values' := [];
    }
    ok := true;
  }

  /** `cur.executemany(insert, values)`: the waiting rows inserted. */
  method Flush(db: Database, ghost c: Content, name: string, cols: seq<string>, ghost out: seq<seq<Cell>>,
               values: seq<seq<Cell>>) returns (ok: bool)
    requires db.Valid() && values != []
    requires Batched(c, name, cols, out, values, db.content)
    modifies db
    ensures db.Valid() && db.committed == old(db.committed)
    ensures ok ==> Batched(c, name, cols, out, [], db.content)
    ensures !ok ==> !Fits(c, name, cols, out)
  {
    ghost var now := db.content;
    ok := db.InsertMany(name, cols, values);
    if !ok {
      BatchFails(c, name, cols, out, values, now);
    } else {
      BatchedFlush(c, name, cols, out, values, now);
    }
  }

  /** The state of `copy_table`'s loop: of the rows rewritten so far, `out`,
      the last `|values|` wait in `values` and the others are in the
      destination, which held `c` before. */
  ghost predicate Batched(c: Content, name: string, cols: seq<string>, out: seq<seq<Cell>>,
                          values: seq<seq<Cell>>, now: Content) {
    && |values| <= |out| && values == out[|out| - |values|..]
    && var done := out[..|out| - |values|];
    && (done == [] ==> now == c)
    && (done != [] ==> Fits(c, name, cols, done) && now == Append(c, name, done))
  }

  /** One more row rewritten. */
  lemma RemapNext(rows: seq<seq<Cell>>, i: nat, index: nat, mapper: map<int, nat>)
    requires i < |rows| && RemapAll(rows[..i], index, mapper).Some? && Remap(rows[i], index, mapper).Some?
    ensures RemapAll(rows[..i + 1], index, mapper)
            == Some(RemapAll(rows[..i], index, mapper).value + [Remap(rows[i], index, mapper).value])
  {
    assert rows[..i + 1][..i] == rows[..i];
  }

  lemma BatchedAdd(c: Content, name: string, cols: seq<string>, out: seq<seq<Cell>>,
                   values: seq<seq<Cell>>, now: Content, row: seq<Cell>)
    requires Batched(c, name, cols, out, values, now)
    ensures Batched(c, name, cols, out + [row], values + [row], now)
  {
    var out' := out + [row];
    assert out'[..|out'| - |values + [row]|] == out[..|out| - |values|];
  }

  lemma BatchedFlush(c: Content, name: string, cols: seq<string>, out: seq<seq<Cell>>,
                     values: seq<seq<Cell>>, now: Content)
    requires Batched(c, name, cols, out, values, now) && values != []
    requires Fits(now, name, cols, values)
    ensures Batched(c, name, cols, out, [], Append(now, name, values))
  {
    var done := out[..|out| - |values|];
    assert out[..|out|] == out;
    assert done + values == out;
    if done != [] {
      AppendTwice(c, name, done, values);
    }
  }

  /** A batch that does not fit means the rows rewritten so far do not fit. */
  lemma BatchFails(c: Content, name: string, cols: seq<string>, out: seq<seq<Cell>>,
                   values: seq<seq<Cell>>, now: Content)
    requires Batched(c, name, cols, out, values, now) && values != []
    requires !Fits(now, name, cols, values)
    ensures !Fits(c, name, cols, out)
  {
  }

  lemma BatchedDone(c: Content, name: string, cols: seq<string>, out: seq<seq<Cell>>, now: Content)
    requires Batched(c, name, cols, out, [], now) && out != []
    ensures Fits(c, name, cols, out) && now == Append(c, name, out)
  {
    assert out[..|out|] == out;
  }

  /** Whether the rewritten rows fit depends only on the source rows: a
      prefix that does not fit means the whole table does not. */
  lemma RemapFits(c: Content, name: string, cols: seq<string>, rows: seq<seq<Cell>>, k: nat,
                  index: nat, mapper: map<int, nat>)
    requires k <= |rows| && RemapAll(rows[..k], index, mapper).Some?
    requires !Fits(c, name, cols, RemapAll(rows[..k], index, mapper).value)
    ensures RemapAll(rows, index, mapper).None? || !Fits(c, name, cols, RemapAll(rows, index, mapper).value)
  {
    var pre := RemapAll(rows[..k], index, mapper).value;
    if RemapAll(rows, index, mapper).Some? && Fits(c, name, cols, RemapAll(rows, index, mapper).value) {
      var all := RemapAll(rows, index, mapper).value;
      RemapAllAt(rows, index, mapper);
      RemapAllAt(rows[..k], index, mapper);
      forall i | 0 <= i < k ensures |pre[i]| == |cols| {
        assert rows[..k][i] == rows[i];
        assert |pre[i]| == |rows[i]| == |all[i]|;
      }
    }
  }
}

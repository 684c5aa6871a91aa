/** The SQLite database the tools write through Python 2's `sqlite3`
    module, as far as they use it: tables created from a `CREATE TABLE`
    statement, rows appended by `INSERT` with a rowid that counts from one,
    `lastrowid`, `commit`, and the loss of uncommitted rows when the
    connection goes away without a commit. A statement that is not an
    `INSERT` or a query commits first (the module's implicit commit), so a
    created table survives a later failure. */
module Store {
  import opened Base
  import Sql

  /** A table: the statement that created it, its columns, and its rows in
      insertion order; row `i` has rowid `i + 1`. */
  datatype Table = Table(sql: string, columns: seq<Sql.Column>, rows: seq<seq<Cell>>)

  /** The tables of a database, in the order they were created. */
  datatype Content = Content(names: seq<string>, tables: map<string, Table>)

  ghost predicate WellFormed(c: Content) {
    && (forall n :: n in c.tables <==> n in c.names)
    && (forall i, j :: 0 <= i < j < |c.names| ==> c.names[i] != c.names[j])
  }

  const Empty := Content([], map[])

  /** The column names of a table, as `INSERT` lists them. */
  function ColumnNames(t: Table): (ns: seq<string>)
    ensures |ns| == |t.columns|
  {
    Sql.Names(t.columns)
  }

  /** `CREATE TABLE`: a new empty table after the existing ones. */
  function Create(c: Content, name: string, sql: string, columns: seq<Sql.Column>): (d: Content)
    requires name !in c.tables
    ensures d.names == c.names + [name]
    ensures d.tables == c.tables[name := Table(sql, columns, [])]
    ensures WellFormed(c) ==> WellFormed(d)
  {
    Content(c.names + [name], c.tables[name := Table(sql, columns, [])])
  }

  /** Rows appended to one table; every other table is unchanged. */
  function Append(c: Content, name: string, rows: seq<seq<Cell>>): (d: Content)
    requires name in c.tables
    ensures d.names == c.names
    ensures name in d.tables && d.tables[name].rows == c.tables[name].rows + rows
    ensures d.tables[name].sql == c.tables[name].sql && d.tables[name].columns == c.tables[name].columns
    ensures forall n :: n in c.tables && n != name ==> n in d.tables && d.tables[n] == c.tables[n]
    ensures forall n :: n in d.tables <==> n in c.tables
    ensures WellFormed(c) ==> WellFormed(d)
  {
    var t := c.tables[name];
    Content(c.names, c.tables[name := t.(rows := t.rows + rows)])
  }

  /** Whether `INSERT INTO name (names) VALUES (...)` fits the table: it
      exists, the statement names its columns in order, and every row has
      a value per column. */
  predicate Fits(c: Content, name: string, names: seq<string>, rows: seq<seq<Cell>>) {
    && name in c.tables
    && names == ColumnNames(c.tables[name])
    && forall i :: 0 <= i < |rows| ==> |rows[i]| == |names|
  }

  /** The position of the first column called `n`, as
      `[i for (i, v) in enumerate(names) if v == n][0]` finds it. */
  function ColumnIndex(names: seq<string>, n: string): (i: nat)
    requires n in names
    ensures i < |names| && names[i] == n && n !in names[..i]
  {
    if names[0] == n then 0 else 1 + ColumnIndex(names[1..], n)
  }

  /** Appending no rows changes nothing. */
  lemma AppendNothing(c: Content, name: string)
    requires name in c.tables
    ensures Append(c, name, []) == c
  {
    var t := c.tables[name];
    assert t.rows + [] == t.rows;
    assert c.tables[name := t] == c.tables;
  }

  /** Appending in two steps is appending once. */
  lemma AppendTwice(c: Content, name: string, a: seq<seq<Cell>>, b: seq<seq<Cell>>)
    requires name in c.tables
    ensures Append(Append(c, name, a), name, b) == Append(c, name, a + b)
  {
    var t := c.tables[name];
    var once := t.(rows := t.rows + a);
    assert Append(c, name, a) == Content(c.names, c.tables[name := once]);
    assert once.(rows := once.rows + b) == t.(rows := t.rows + (a + b)) by {
      assert t.rows + a + b == t.rows + (a + b);
    }
    assert c.tables[name := once][name := once.(rows := once.rows + b)]
        == c.tables[name := t.(rows := t.rows + (a + b))];
  }

  /** A database reached through one connection. `content` is what the
      connection sees; `committed` is what another connection, or the next
      run, would find. */
  class Database {
    var content: Content
    var committed: Content

    ghost predicate Valid()
      reads this
    {
      WellFormed(content) && WellFormed(committed)
    }

    /** `sqlite3.connect(db)` on a database holding `initial`. */
    constructor (initial: Content)
      requires WellFormed(initial)
      ensures Valid()
      ensures content == initial && committed == initial
    {
      content := initial;
      committed := initial;
    }

    /** `cur.execute(CREATE TABLE ...)`: pending rows are committed first;
      the statement fails (`OperationalError`) when the table exists, and
      otherwise the new table is there for good. */
    method CreateTable(name: string, sql: string, columns: seq<Sql.Column>) returns (ok: bool)
      requires Valid()
      modifies this
      ensures Valid()
      ensures ok <==> name !in old(content).tables
      ensures ok ==> content == Create(old(content), name, sql, columns)
      ensures !ok ==> content == old(content)
      ensures committed == content
    {
      committed := content;
      if name in content.tables {
        return false;
      }
      content := Create(content, name, sql, columns);
      committed := content;
      ok := true;
    }

    /** `cur.execute(INSERT ...)`: the new row's rowid (`lastrowid`), or
      None when the statement does not fit the table. */
    method Insert(name: string, names: seq<string>, row: seq<Cell>) returns (rowid: Option<nat>)
      requires Valid()
      modifies this
      ensures Valid()
      ensures rowid.Some? <==> Fits(old(content), name, names, [row])
      ensures rowid.Some? ==> content == Append(old(content), name, [row])
                              && rowid.value == |content.tables[name].rows|
      ensures rowid.None? ==> content == old(content)
      ensures committed == old(committed)
    {
      if !Fits(content, name, names, [row]) {
        return None;
      }
      content := Append(content, name, [row]);
      rowid := Some(|content.tables[name].rows|);
    }

    /** `cur.executemany(INSERT ..., rows)`. */
    method InsertMany(name: string, names: seq<string>, rows: seq<seq<Cell>>) returns (ok: bool)
      requires Valid()
      modifies this
      ensures Valid()
      ensures ok <==> Fits(old(content), name, names, rows)
      ensures ok ==> content == Append(old(content), name, rows)
      ensures !ok ==> content == old(content)
      ensures committed == old(committed)
    {
      if !Fits(content, name, names, rows) {
        return false;
      }
      content := Append(content, name, rows);
      ok := true;
    }

    /** `conn.commit()`. */
    method Commit()
      requires Valid()
      modifies this
      ensures Valid()
      ensures content == old(content) && committed == content
    {
      committed := content;
    }

    /** The connection going away without a commit (an exception ended the
      tool): what was not committed is lost. */
    method Abandon()
      requires Valid()
      modifies this
      ensures Valid()
      ensures content == old(committed) && committed == old(committed)
    {
      content := committed;
    }
  }
}

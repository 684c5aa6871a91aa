/** `main` in tools/summarize_test_results.py: every result file is read
    under the test parameters guessed for it, the values of each field are
    gathered per parameter set and side, and a CSV row is written per
    parameter set, side and field, for every field seen under any parameter
    set on that side, so that every parameter set has the same rows. A row
    holds either the summary statistics of the field's values or, with
    `full_results`, one row per value. */
module Report {
  import opened Base
  import opened Text
  import opened Order
  import Statistics
  import Inference
  import CreateDb

  // ------------------------------------------------------------ gathering

  /** One value of a field, with the file it was read from. */
  datatype Sample = Sample(value: Cell, source: string)

  /** One side of a parameter set: the fields in the order first seen, and
      the values of each field in the order read. */
  datatype Fields = Fields(names: seq<string>, samples: map<string, seq<Sample>>)

  const NoFields := Fields([], map[])

  /** `values[full_env]`: the test directories of its files, its
      parameters, and what each side gathered. */
  datatype Env = Env(paths: seq<string>, parameters: Record, client: Fields, server: Fields)

  /** `values`: the parameter sets in the order first seen, and what was
      gathered under each. A parameter set stands for its
      `json.dumps(..., sort_keys=True)` serialisation. */
  datatype Gathered = Gathered(keys: seq<Record>, envs: map<Record, Env>)

  function FieldsOf(e: Env, side: Side): Fields {
    match side
    case Client => e.client
    case Server => e.server
  }

  /** `env[dirn].get(field, [])`. */
  function SamplesOf(e: Env, side: Side, field: string): seq<Sample> {
    var fs := FieldsOf(e, side);
    if field in fs.samples then fs.samples[field] else []
  }

  /** A value appended to the list of its field, the list created first. */
  function Appended(fs: Fields, field: string, s: Sample): Fields {
    if field in fs.samples then Fields(fs.names, fs.samples[field := fs.samples[field] + [s]])
    else Fields(fs.names + [field], fs.samples[field := [s]])
  }

  /** One triple `(side, field, value)` of the file `source`. */
  function AddTriple(e: Env, t: Triple, source: string): Env {
    var s := Sample(t.value, source);
    match t.side
    case Client => e.(client := Appended(e.client, t.field, s))
    case Server => e.(server := Appended(e.server, t.field, s))
  }

  function AddTriples(e: Env, ts: seq<Triple>, source: string): Env
    decreases |ts|
  {
    if ts == [] then e else AddTriples(AddTriple(e, ts[0], source), ts[1..], source)
  }

  /** `values[full_env]["paths"].add(path)`. */
  function AddPath(e: Env, path: string): Env {
    if path in e.paths then e else e.(paths := e.paths + [path])
  }

  /** `values[full_env]`, or the empty entry a new parameter set gets. */
  function EnvOf(g: Gathered, key: Record): Env {
    if key in g.envs then g.envs[key] else Env([], key, NoFields, NoFields)
  }

  /** One file of the loop, or None when it raises: `guess_test_parameters`
      returns a bare None for a path without parameters, which the tuple
      assignment cannot unpack (`TypeError`), or raises itself; a name no
      reader handles makes the warning, logged through the misspelt
      `loging`, raise `NameError`; and a reader that raises ends the run. */
  function GatherFile(g: Gathered, f: CreateDb.Filing, path: string): Option<Gathered> {
    if !f.outcome.Found? || f.reader.None? || f.yielded.raised then None
    else
      var key := f.outcome.params;
      var e := AddPath(EnvOf(g, key), f.outcome.testDirectory);
      Some(Gathered(if key in g.envs then g.keys else g.keys + [key],
                    g.envs[key := AddTriples(e, f.yielded.out, path)]))
  }

  function GatherAll(g: Gathered, files: seq<CreateDb.ResultFile>, hint: Option<string>): Option<Gathered>
    decreases |files|
  {
    if files == [] then Some(g)
    else
      match GatherFile(g, CreateDb.FilingOf(files[0], hint), files[0].path)
      case None => None
      case Some(h) => GatherAll(h, files[1..], hint)
  }

  /** Whether a file of that path is among `fs`. */
  predicate Listed(fs: seq<CreateDb.ResultFile>, path: string) {
    exists f :: f in fs && f.path == path
  }

  /** The first file of every path, in the order found. */
  function FirstOfEach(files: seq<CreateDb.ResultFile>): (fs: seq<CreateDb.ResultFile>)
    ensures forall f :: f in fs ==> f in files
    ensures forall f :: f in files ==> Listed(fs, f.path)
    ensures forall i, j :: 0 <= i < j < |fs| ==> fs[i].path != fs[j].path
    decreases |files|
  {
    if files == [] then []
    else
      var rest := FirstOfEach(files[..|files| - 1]);
      var last := files[|files| - 1];
      assert files == files[..|files| - 1] + [last];
      if Listed(rest, last.path) then rest else rest + [last]
  }

  predicate PathLe(a: CreateDb.ResultFile, b: CreateDb.ResultFile) {
    StrLe(a.path, b.path)
  }

  /** `sorted(set(files_to_read))`. */
  function Listing(files: seq<CreateDb.ResultFile>): seq<CreateDb.ResultFile> {
    SortBy(FirstOfEach(files), PathLe)
  }

  /** `values` after the loop over the files, or None when a file raised. */
  function Gather(files: seq<CreateDb.ResultFile>, hint: Option<string>): Option<Gathered> {
    GatherAll(Gathered([], map[]), Listing(files), hint)
  }

  /** `values.values()`, in the order the parameter sets were first seen. */
  function Envs(g: Gathered): (es: seq<Env>)
    ensures |es| == |g.keys|
    ensures forall i :: 0 <= i < |g.keys| ==> es[i] == EnvOf(g, g.keys[i])
  {
    seq(|g.keys|, i requires 0 <= i < |g.keys| => EnvOf(g, g.keys[i]))
  }

  // ------------------------------------------------------ the field union

  /** `full_field_set[dirn].add(field)` for each field of `ns`; the set is
      listed in the order its members arrived. */
  function AddNames(u: seq<string>, ns: seq<string>): seq<string>
    decreases |ns|
  {
    if ns == [] then u else AddNames(if ns[0] in u then u else u + [ns[0]], ns[1..])
  }

  /** The fields of one side over the parameter sets `envs`. */
  function UnionOf(u: seq<string>, envs: seq<Env>, side: Side): seq<string>
    decreases |envs|
  {
    if envs == [] then u
    else UnionOf(AddNames(u, SortStrings(FieldsOf(envs[0], side).names)), envs[1..], side)
  }

  /** `sorted(full_field_set[dirn])`. */
  function Columns(envs: seq<Env>, side: Side): seq<string> {
    SortStrings(UnionOf([], envs, side))
  }

  // -------------------------------------------------------------- the rows

  /** What the row loop does for one row: a `results` dict handed to
      `writer.writerow`, or an exception before it gets that far. */
  datatype Step = Row(dict: Record) | Fail

  /** The number `numpy` sees in a value; a `str` (or `None`) among the
      values makes the statistics raise. */
  function NumberOf(c: Cell): Option<real> {
    match c
    case Int(i) => Some(i as real)
    case Real(r) => Some(r)
    case _ => None
  }

  function Numbers(ss: seq<Sample>): (vs: Option<seq<real>>)
    ensures vs.Some? ==> |vs.value| == |ss|
    decreases |ss|
  {
    if ss == [] then Some([])
    else
      match (NumberOf(ss[0].value), Numbers(ss[1..]))
      case (Some(v), Some(rest)) => Some([v] + rest)
      case _ => None
  }

  /** `results`, once the parameters, the side and the field are in. */
  function Results(e: Env, side: Side, field: string): Record {
    Update(e.parameters, [("side", Str(SideName(side))), ("field", Str(field))])
  }

  /** With `full_results`: a row per value, the same dict updated with the
      value and its file each time. */
  function ValueSteps(d: Record, ss: seq<Sample>): seq<Step>
    decreases |ss|
  {
    if ss == [] then []
    else
      var next := Update(d, [("value", ss[0].value), ("paths", Str(ss[0].source))]);
      [Row(next)] + ValueSteps(next, ss[1..])
  }

  /** Without: one row, with the comma-joined test directories and
      `stats(curr_values)`. */
  function SummarySteps(paths: seq<string>, d: Record, ss: seq<Sample>): seq<Step> {
    match Numbers(ss)
    case None => [Fail]
    case Some(vs) =>
      [Row(Update(Update(d, [("paths", Str(JoinWith(paths, ',')))]), Statistics.Stats(vs)))]
  }

  function FieldSteps(e: Env, side: Side, field: string, full: bool): (st: seq<Step>)
    ensures !full ==> |st| == 1
  {
    var d := Results(e, side, field);
    var ss := SamplesOf(e, side, field);
    if full then ValueSteps(d, ss) else SummarySteps(e.paths, d, ss)
  }

  function SideSteps(e: Env, side: Side, cols: seq<string>, full: bool): seq<Step>
    decreases |cols|
  {
    if cols == [] then [] else FieldSteps(e, side, cols[0], full) + SideSteps(e, side, cols[1..], full)
  }

  /** The rows of one parameter set: the client's fields, then the
      server's. */
  function EnvSteps(e: Env, cc: seq<string>, sc: seq<string>, full: bool): seq<Step> {
    SideSteps(e, Client, cc, full) + SideSteps(e, Server, sc, full)
  }

  function AllSteps(envs: seq<Env>, cc: seq<string>, sc: seq<string>, full: bool): seq<Step>
    decreases |envs|
  {
    if envs == [] then [] else EnvSteps(envs[0], cc, sc, full) + AllSteps(envs[1..], cc, sc, full)
  }

  // ------------------------------------------------------------ the writer

  /** `csv.DictWriter`'s `extrasaction`: "raise" (its default) or "ignore". */
  datatype ExtrasAction = Raise | Ignore

  const FixedHeaders: seq<string> := [
    "environment", "nic", "num_vcpus", "rate_limit", "num_workers", "num_simultaneous",
    "cluster", "instrumentation", "offloading", "pinning", "gre", "broken", "workload",
    "side", "field", "instance", "iteration", "paths"]

  const StatHeaders: seq<string> :=
    ["count", "median", "mean", "stdev", "min", "p25th", "p75th", "p95th", "max"]

  /** The header of the CSV file. */
  function Headers(full: bool): seq<string> {
    FixedHeaders + (if full then ["value"] else StatHeaders)
  }

  /** `rowdict.get(key, restval)` with the default `restval` "". */
  function Get(d: Record, key: string): Cell {
    match Lookup(d, key)
    case Some(v) => v
    case None => Str("")
  }

  function HeaderLine(fieldnames: seq<string>): (l: seq<Cell>)
    ensures |l| == |fieldnames|
  {
    seq(|fieldnames|, i requires 0 <= i < |fieldnames| => Str(fieldnames[i]))
  }

  /** The values of a row in the order of the header. */
  function Line(fieldnames: seq<string>, d: Record): (l: seq<Cell>)
    ensures |l| == |fieldnames|
    ensures forall i :: 0 <= i < |fieldnames| ==> l[i] == Get(d, fieldnames[i])
  {
    seq(|fieldnames|, i requires 0 <= i < |fieldnames| => Get(d, fieldnames[i]))
  }

  /** What `writerow(d)` writes, or None when it raises `ValueError`: with
      "raise", a key of the dict that is not in the header. */
  function RowLine(fieldnames: seq<string>, action: ExtrasAction, d: Record): Option<seq<Cell>> {
    if action == Raise && exists k :: k in Keys(d) && k !in fieldnames then None
    else Some(Line(fieldnames, d))
  }

  /** The rows written after `lines`, up to the first step that raises,
      and whether none did. */
  function EmitAll(lines: seq<seq<Cell>>, fieldnames: seq<string>, action: ExtrasAction,
                   steps: seq<Step>): (seq<seq<Cell>>, bool)
    decreases |steps|
  {
    if steps == [] then (lines, true)
    else
      match steps[0]
      case Fail => (lines, false)
      case Row(d) =>
        match RowLine(fieldnames, action, d)
        case None => (lines, false)
        case Some(l) => EmitAll(lines + [l], fieldnames, action, steps[1..])
  }

  /** The lines written to `output_fh`, and whether `main` returned rather
      than raised. */
  datatype Csv = Csv(lines: seq<seq<Cell>>, completed: bool)

  /** `main(directories, types, output_fh, full_results, params_hint)` over
      the files `find_files` gives, with the writer's `extrasaction` as a
      parameter: nothing is written when a file raises, since the writer is
      made after all files are read. */
  function MainOutput(files: seq<CreateDb.ResultFile>, hint: Option<string>, full: bool,
                      action: ExtrasAction): Csv {
    match Gather(files, hint)
    case None => Csv([], false)
    case Some(g) => Written(g, full, action)
  }

  /** The output once the files are read into `g`. */
  function Written(g: Gathered, full: bool, action: ExtrasAction): Csv {
    var envs := Envs(g);
    var hdr := Headers(full);
    var r := EmitAll([HeaderLine(hdr)], hdr, action,
                     AllSteps(envs, Columns(envs, Client), Columns(envs, Server), full));
    Csv(r.0, r.1)
  }

  /** `main` as written: the writer keeps its default `extrasaction`. */
  function MainAsWritten(files: seq<CreateDb.ResultFile>, hint: Option<string>, full: bool): Csv {
    MainOutput(files, hint, full, Raise)
  }

  /** `main` with a writer that writes the columns of its header and
      leaves out the other keys of a row. */
  function MainCorrected(files: seq<CreateDb.ResultFile>, hint: Option<string>, full: bool): Csv {
    MainOutput(files, hint, full, Ignore)
  }

  /** The output file, written through `csv.DictWriter(output_fh,
      fieldnames=headers)`. */
  class DictWriter {
    const fieldnames: seq<string>
    const extrasaction: ExtrasAction
    var lines: seq<seq<Cell>>

    constructor (fieldnames: seq<string>, extrasaction: ExtrasAction)
      ensures this.fieldnames == fieldnames && this.extrasaction == extrasaction
      ensures lines == []
    {
      this.fieldnames := fieldnames;
      this.extrasaction := extrasaction;
      lines := [];
    }

    /** `writer.writeheader()`. */
    method WriteHeader()
      modifies this
      ensures lines == old(lines) + [HeaderLine(fieldnames)]
    {
      lines := lines + [HeaderLine(fieldnames)];
    }

    /** `writer.writerow(d)`. */
    method WriteRow(d: Record) returns (ok: bool)
      modifies this
      ensures ok == RowLine(fieldnames, extrasaction, d).Some?
      ensures ok ==> lines == old(lines) + [RowLine(fieldnames, extrasaction, d).value]
      ensures !ok ==> lines == old(lines)
    {
      var l := RowLine(fieldnames, extrasaction, d);
      if l.None? {
        return false;
      }
      lines := lines + [l.value];
      ok := true;
    }
  }

  // ------------------------------------------------------------- methods

  /** `main`: the files read into `values`, the field union built, then
      the header and the rows written. */
  method RunMain(files: seq<CreateDb.ResultFile>, hint: Option<string>, full: bool, action: ExtrasAction)
    returns (out: Csv)
    ensures out == MainOutput(files, hint, full, action)
  {
    var g := Collect(files, hint);
    if g.None? {
      return Csv([], false);
    }
    out := WriteReport(g.value, full, action);
  }

  /** Everything after the files are read: the field union, then the
      header and the rows. */
  method WriteReport(g: Gathered, full: bool, action: ExtrasAction) returns (out: Csv)
    ensures out == Written(g, full, action)
  {
    var envs := Envs(g);
    var cc := FieldUnion(envs, Client);
    var sc := FieldUnion(envs, Server);
    var headers := Headers(full);
    var writer := new DictWriter(headers, action);
    writer.WriteHeader();
    assert writer.lines == [HeaderLine(headers)];
    var clientColumns := SortStrings(cc);
    var serverColumns := SortStrings(sc);
    assert clientColumns == Columns(envs, Client) && serverColumns == Columns(envs, Server);
    var ok := WriteEnvs(writer, envs, clientColumns, serverColumns, full);
    assert (writer.lines, ok) == EmitAll([HeaderLine(headers)], headers, action, AllSteps(envs, clientColumns, serverColumns, full));
    out := Csv(writer.lines, ok);
  }

  /** The loop over `sorted(set(files_to_read))`. */
  method Collect(files: seq<CreateDb.ResultFile>, hint: Option<string>) returns (g: Option<Gathered>)
    ensures g == Gather(files, hint)
  {
    var fs := Listing(files);
    var keys: seq<Record> := [];
    var envs: map<Record, Env> := map[];
    assert fs[0..] == fs;
    var i := 0;
    while i < |fs|
      invariant 0 <= i <= |fs|
      invariant Gather(files, hint) == GatherAll(Gathered(keys, envs), fs[i..], hint)
    {
      assert fs[i..][1..] == fs[i + 1..];
      var filing := CreateDb.FileFiling(fs[i], hint);
      var next := CollectFile(Gathered(keys, envs), filing, fs[i].path);
      if next.None? {
        return None;
      }
      keys, envs := next.value.keys, next.value.envs;
      i := i + 1;
    }
    return Some(Gathered(keys, envs));
  }

  /** The body of the loop for one file. */
  method CollectFile(g: Gathered, f: CreateDb.Filing, path: string) returns (h: Option<Gathered>)
    ensures h == GatherFile(g, f, path)
  {
    if !f.outcome.Found? || f.reader.None? {
      return None;
    }
    var key := f.outcome.params;
    var keys := g.keys;
    var e := Env([], key, NoFields, NoFields);
    if key in g.envs {
      e := g.envs[key];
    } else {
      keys := keys + [key];
    }
    if f.outcome.testDirectory !in e.paths {
      e := e.(paths := e.paths + [f.outcome.testDirectory]);
    }
    e := AddSamples(e, f.yielded.out, path);
    if f.yielded.raised {
      return None;
    }
    return Some(Gathered(keys, g.envs[key := e]));
  }

  /** `for side, field, value in file_reader.readfile(f)`: each value
      appended to its field's list. */
  method AddSamples(e: Env, ts: seq<Triple>, source: string) returns (e': Env)
    ensures e' == AddTriples(e, ts, source)
  {
    e' := e;
    assert ts[0..] == ts;
    var i := 0;
    while i < |ts|
      invariant 0 <= i <= |ts|
      invariant AddTriples(e, ts, source) == AddTriples(e', ts[i..], source)
    {
      assert ts[i..][1..] == ts[i + 1..];
      var t := ts[i];
      var s := Sample(t.value, source);
      var fs := FieldsOf(e', t.side);
      if t.field !in fs.samples {
        fs := Fields(fs.names + [t.field], fs.samples[t.field := []]);
        assert [] + [s] == [s];
      }
      fs := Fields(fs.names, fs.samples[t.field := fs.samples[t.field] + [s]]);
      assert fs == Appended(FieldsOf(e', t.side), t.field, s);
      if t.side == Client {
        e' := e'.(client := fs);
      } else {
        e' := e'.(server := fs);
      }
      i := i + 1;
    }
  }

  /** `full_field_set[dirn]` built over the parameter sets; each side's set
      grows independently of the other's. */
  method FieldUnion(envs: seq<Env>, side: Side) returns (u: seq<string>)
    ensures u == UnionOf([], envs, side)
  {
    u := [];
    assert envs[0..] == envs;
    var i := 0;
    while i < |envs|
      invariant 0 <= i <= |envs|
      invariant UnionOf([], envs, side) == UnionOf(u, envs[i..], side)
    {
      assert envs[i..][1..] == envs[i + 1..];
      u := AddFields(u, SortStrings(FieldsOf(envs[i], side).names));
      i := i + 1;
    }
  }

  /** `for field in sorted(env[dirn].keys()): full_field_set[dirn].add(field)`. */
  method AddFields(u: seq<string>, ns: seq<string>) returns (u': seq<string>)
    ensures u' == AddNames(u, ns)
  {
    u' := u;
    assert ns[0..] == ns;
    var j := 0;
    while j < |ns|
      invariant 0 <= j <= |ns|
      invariant AddNames(u, ns) == AddNames(u', ns[j..])
    {
      assert ns[j..][1..] == ns[j + 1..];
      if ns[j] !in u' {
        u' := u' + [ns[j]];
      }
      j := j + 1;
    }
  }

  /** `for env in sorted(values.values())`: the rows of every parameter
      set, until one raises. */
  method WriteEnvs(w: DictWriter, envs: seq<Env>, cc: seq<string>, sc: seq<string>, full: bool)
    returns (ok: bool)
    modifies w
    ensures (w.lines, ok) == EmitAll(old(w.lines), w.fieldnames, w.extrasaction, AllSteps(envs, cc, sc, full))
  {
    assert envs[0..] == envs;
    var i := 0;
    while i < |envs|
      invariant 0 <= i <= |envs|
      invariant EmitAll(old(w.lines), w.fieldnames, w.extrasaction, AllSteps(envs, cc, sc, full))
                == EmitAll(w.lines, w.fieldnames, w.extrasaction, AllSteps(envs[i..], cc, sc, full))
    {
      assert envs[i..][1..] == envs[i + 1..];
      EmitConcat(w.lines, w.fieldnames, w.extrasaction, EnvSteps(envs[i], cc, sc, full),
                 AllSteps(envs[i + 1..], cc, sc, full));
      ok := WriteEnv(w, envs[i], cc, sc, full);
      if !ok {
        return;
      }
      i := i + 1;
    }
    ok := true;
  }

  /** `for dirn in ["client", "server"]`. */
  method WriteEnv(w: DictWriter, e: Env, cc: seq<string>, sc: seq<string>, full: bool) returns (ok: bool)
    modifies w
    ensures (w.lines, ok) == EmitAll(old(w.lines), w.fieldnames, w.extrasaction, EnvSteps(e, cc, sc, full))
  {
    EmitConcat(w.lines, w.fieldnames, w.extrasaction, SideSteps(e, Client, cc, full), SideSteps(e, Server, sc, full));
    ok := WriteSide(w, e, Client, cc, full);
    if !ok {
      return;
    }
    ok := WriteSide(w, e, Server, sc, full);
  }

  /** `for field in sorted(full_field_set[dirn])`. */
  method WriteSide(w: DictWriter, e: Env, side: Side, cols: seq<string>, full: bool) returns (ok: bool)
    modifies w
    ensures (w.lines, ok) == EmitAll(old(w.lines), w.fieldnames, w.extrasaction, SideSteps(e, side, cols, full))
  {
    assert cols[0..] == cols;
    var j := 0;
    while j < |cols|
      invariant 0 <= j <= |cols|
      invariant EmitAll(old(w.lines), w.fieldnames, w.extrasaction, SideSteps(e, side, cols, full))
                == EmitAll(w.lines, w.fieldnames, w.extrasaction, SideSteps(e, side, cols[j..], full))
    {
      assert cols[j..][1..] == cols[j + 1..];
      EmitConcat(w.lines, w.fieldnames, w.extrasaction, FieldSteps(e, side, cols[j], full),
                 SideSteps(e, side, cols[j + 1..], full));
      ok := WriteField(w, e, side, cols[j], full);
      if !ok {
        return;
      }
      j := j + 1;
    }
    ok := true;
  }

  /** The rows of one field: `results` built from the parameters, the side
      and the field, then one row per value or one row of statistics. */
  method WriteField(w: DictWriter, e: Env, side: Side, field: string, full: bool) returns (ok: bool)
    modifies w
    ensures (w.lines, ok) == EmitAll(old(w.lines), w.fieldnames, w.extrasaction, FieldSteps(e, side, field, full))
  {
    var curr := SamplesOf(e, side, field);
    var results := Update(e.parameters, [("side", Str(SideName(side))), ("field", Str(field))]);
    if full {
      ok := WriteValues(w, results, curr);
    } else {
      ok := WriteSummary(w, e.paths, results, curr);
    }
  }

  /** `results.update({"paths": ",".join(env["paths"])})`,
      `results.update(stats(curr_values))` and `writer.writerow(results)`. */
  method WriteSummary(w: DictWriter, paths: seq<string>, d: Record, ss: seq<Sample>) returns (ok: bool)
    modifies w
    ensures (w.lines, ok) == EmitAll(old(w.lines), w.fieldnames, w.extrasaction, SummarySteps(paths, d, ss))
  {
    var results := Update(d, [("paths", Str(JoinWith(paths, ',')))]);
    var vs := Numbers(ss);
    if vs.None? {
      return false;
    }
    results := Update(results, Statistics.Stats(vs.value));
    EmitSingle(w.lines, w.fieldnames, w.extrasaction, results);
    ok := w.WriteRow(results);
  }

  /** Writing one row: its line is added, unless `writerow` raises. */
  lemma EmitSingle(lines: seq<seq<Cell>>, fieldnames: seq<string>, action: ExtrasAction, d: Record)
    ensures var l := RowLine(fieldnames, action, d);
            EmitAll(lines, fieldnames, action, [Row(d)])
            == if l.Some? then (lines + [l.value], true) else (lines, false)
  {
    assert [Row(d)][1..] == [];
  }

  /** `for value in curr_values: results.update(...); writer.writerow(results)`. */
  method WriteValues(w: DictWriter, d: Record, ss: seq<Sample>) returns (ok: bool)
    modifies w
    ensures (w.lines, ok) == EmitAll(old(w.lines), w.fieldnames, w.extrasaction, ValueSteps(d, ss))
  {
    var results := d;
    assert ss[0..] == ss;
    var i := 0;
    while i < |ss|
      invariant 0 <= i <= |ss|
      invariant EmitAll(old(w.lines), w.fieldnames, w.extrasaction, ValueSteps(d, ss))
                == EmitAll(w.lines, w.fieldnames, w.extrasaction, ValueSteps(results, ss[i..]))
    {
      assert ss[i..][1..] == ss[i + 1..];
      results := Update(results, [("value", ss[i].value), ("paths", Str(ss[i].source))]);
      ok := w.WriteRow(results);
      if !ok {
        return;
      }
      i := i + 1;
    }
    ok := true;
  }

  /** Writing two lists of rows is writing the first, then, unless it
      raised, the second. */
  lemma {:induction false} EmitConcat(lines: seq<seq<Cell>>, fieldnames: seq<string>, action: ExtrasAction,
                                      a: seq<Step>, b: seq<Step>)
    ensures EmitAll(lines, fieldnames, action, a + b)
            == (var r := EmitAll(lines, fieldnames, action, a);
                if r.1 then EmitAll(r.0, fieldnames, action, b) else r)
    decreases |a|
  {
    if a == [] {
      assert a + b == b;
    } else {
      assert (a + b)[0] == a[0];
      assert (a + b)[1..] == a[1..] + b;
      match a[0]
      case Fail =>
      case Row(d) =>
        match RowLine(fieldnames, action, d)
        case None =>
        case Some(l) => EmitConcat(lines + [l], fieldnames, action, a[1..], b);
    }
  }

  // ------------------------------------------------------------ properties

  lemma PathLeIsTotalPreorder()
    ensures IsTotalPreorder(PathLe)
  {
    forall a, b ensures PathLe(a, b) || PathLe(b, a) {
      StrLeTotal(a.path, b.path);
    }
    forall a, b, c | PathLe(a, b) && PathLe(b, c) ensures PathLe(a, c) {
      StrLeTransitive(a.path, b.path, c.path);
    }
  }

  /** The files are read in the order of their paths, every path found is
      read, and each only once. */
  lemma ListingSorted(files: seq<CreateDb.ResultFile>)
    ensures var l := Listing(files);
            && SortedBy(l, PathLe)
            && (forall i, j :: 0 <= i < j < |l| ==> l[i].path != l[j].path)
            && (forall f :: f in l ==> f in files)
            && (forall f :: f in files ==> Listed(l, f.path))
  {
    PathLeIsTotalPreorder();
    SortBySorted(FirstOfEach(files), PathLe);
    ListingMembers(files);
    ListingDistinct(files);
  }

  lemma ListingMembers(files: seq<CreateDb.ResultFile>)
    ensures var l := Listing(files);
            && (forall f :: f in l ==> f in files)
            && (forall f :: f in files ==> Listed(l, f.path))
  {
    var d := FirstOfEach(files);
    var l := Listing(files);
    assert multiset(l) == multiset(d) by {
      PathLeIsTotalPreorder();
      SortBySorted(d, PathLe);
    }
    forall f | f in l ensures f in files {
      assert f in multiset(d);
    }
    forall f | f in files ensures Listed(l, f.path) {
      var g :| g in d && g.path == f.path;
      assert g in multiset(l);
    }
  }

  lemma ListingDistinct(files: seq<CreateDb.ResultFile>)
    ensures var l := Listing(files);
            forall i, j :: 0 <= i < j < |l| ==> l[i].path != l[j].path
  {
    var d := FirstOfEach(files);
    var l := Listing(files);
    assert multiset(l) == multiset(d) by {
      PathLeIsTotalPreorder();
      SortBySorted(d, PathLe);
    }
    PermutedKeysDistinct(d, l, (f: CreateDb.ResultFile) => f.path);
  }

  /** The values of one side: every field listed has values, and the
      fields listed are the fields with values. */
  ghost predicate FieldsOk(fs: Fields) {
    && (forall x :: x in fs.samples <==> x in fs.names)
    && (forall x :: x in fs.samples ==> fs.samples[x] != [])
  }

  /** What is gathered under a parameter set: the set itself, which holds
      `colocated` like every set `guess_test_parameters` returns. */
  ghost predicate EnvOk(key: Record, e: Env) {
    && e.parameters == key
    && "colocated" in Keys(key)
    && FieldsOk(e.client) && FieldsOk(e.server)
  }

  ghost predicate GatheredOk(g: Gathered) {
    && (forall k :: k in g.keys ==> k in g.envs)
    && (forall k :: k in g.envs ==> EnvOk(k, g.envs[k]))
  }

  lemma AppendedOk(fs: Fields, field: string, s: Sample)
    requires FieldsOk(fs)
    ensures FieldsOk(Appended(fs, field, s))
  {
    var a := Appended(fs, field, s);
    forall x | x in a.samples ensures a.samples[x] != [] {
      if x == field && field in fs.samples {
        assert |a.samples[x]| == |fs.samples[x]| + 1;
      }
    }
  }

  lemma {:induction false} AddTriplesOk(key: Record, e: Env, ts: seq<Triple>, source: string)
    requires EnvOk(key, e)
    ensures EnvOk(key, AddTriples(e, ts, source))
    decreases |ts|
  {
    if ts != [] {
      AppendedOk(FieldsOf(e, ts[0].side), ts[0].field, Sample(ts[0].value, source));
      AddTriplesOk(key, AddTriple(e, ts[0], source), ts[1..], source);
    }
  }

  lemma GatherFileOk(g: Gathered, f: CreateDb.Filing, path: string)
    requires GatheredOk(g)
    requires f.outcome.Found? ==> "colocated" in Keys(f.outcome.params)
    ensures GatherFile(g, f, path).Some? ==> GatheredOk(GatherFile(g, f, path).value)
  {
    if GatherFile(g, f, path).Some? {
      var key := f.outcome.params;
      var e := AddPath(EnvOf(g, key), f.outcome.testDirectory);
      assert EnvOk(key, e);
      AddTriplesOk(key, e, f.yielded.out, path);
    }
  }

  /** Every parameter set `guess_test_parameters` finds holds `colocated`. */
  lemma GuessColocated(name: string)
    ensures Inference.Guess(name).Found? ==> "colocated" in Keys(Inference.Guess(name).params)
  {
    var s := Inference.Walk(Inference.Initial(name));
    if Inference.Guess(name).Found? {
      Inference.ParamsNamed(s.layout.value, s.flags, s.iteration.value, s.instance);
      assert Keys(Inference.Guess(name).params)[15] == "colocated";
    }
  }

  lemma {:induction false} GatherAllOk(g: Gathered, files: seq<CreateDb.ResultFile>, hint: Option<string>)
    requires GatheredOk(g)
    ensures GatherAll(g, files, hint).Some? ==> GatheredOk(GatherAll(g, files, hint).value)
    decreases |files|
  {
    if files != [] {
      GuessColocated(if hint.Some? then hint.value else files[0].path);
      var f := CreateDb.FilingOf(files[0], hint);
      GatherFileOk(g, f, files[0].path);
      if GatherFile(g, f, files[0].path).Some? {
        GatherAllOk(GatherFile(g, f, files[0].path).value, files[1..], hint);
      }
    }
  }

  /** What `main` gathers: under every parameter set, the fields listed
      per side are those with values, and the set holds `colocated`. */
  lemma GatherOk(files: seq<CreateDb.ResultFile>, hint: Option<string>)
    ensures Gather(files, hint).Some? ==> GatheredOk(Gather(files, hint).value)
  {
    GatherAllOk(Gathered([], map[]), Listing(files), hint);
  }

  /** The triples of a file that go to a side and field, as values of
      that file. */
  function Picked(ts: seq<Triple>, side: Side, field: string, source: string): seq<Sample>
    decreases |ts|
  {
    if ts == [] then []
    else
      (if ts[0].side == side && ts[0].field == field then [Sample(ts[0].value, source)] else [])
      + Picked(ts[1..], side, field, source)
  }

  /** Reading a file appends to each field of each side the values the
      file yields for it, in the order yielded, each with the file's name,
      and nothing else. */
  lemma {:induction false} SamplesAfter(e: Env, ts: seq<Triple>, source: string, side: Side, field: string)
    ensures SamplesOf(AddTriples(e, ts, source), side, field)
            == SamplesOf(e, side, field) + Picked(ts, side, field, source)
    decreases |ts|
  {
    if ts == [] {
      assert SamplesOf(e, side, field) + [] == SamplesOf(e, side, field);
    } else {
      var t := ts[0];
      var e1 := AddTriple(e, t, source);
      var here := if t.side == side && t.field == field then [Sample(t.value, source)] else [];
      assert SamplesOf(e1, side, field) == SamplesOf(e, side, field) + here;
      SamplesAfter(e1, ts[1..], source, side, field);
      AppendAssoc(SamplesOf(e, side, field), here, Picked(ts[1..], side, field, source));
    }
  }

  /** A field of a parameter set has no values exactly when the set never
      saw it, so its row counts 0. */
  lemma AbsentCountsZero(files: seq<CreateDb.ResultFile>, hint: Option<string>)
    requires Gather(files, hint).Some?
    ensures var envs := Envs(Gather(files, hint).value);
            forall i, side, field :: 0 <= i < |envs| ==>
              (|SamplesOf(envs[i], side, field)| == 0 <==> field !in FieldsOf(envs[i], side).names)
  {
    var g := Gather(files, hint).value;
    GatherOk(files, hint);
    var envs := Envs(g);
    forall i, side, field | 0 <= i < |envs|
      ensures |SamplesOf(envs[i], side, field)| == 0 <==> field !in FieldsOf(envs[i], side).names
    {
      assert EnvOk(g.keys[i], envs[i]);
    }
  }

  ghost predicate Unique(s: seq<string>) {
    forall i, j :: 0 <= i < j < |s| ==> s[i] != s[j]
  }

  lemma {:induction false} AddNamesSpec(u: seq<string>, ns: seq<string>)
    ensures forall x :: x in AddNames(u, ns) <==> x in u || x in ns
    ensures Unique(u) ==> Unique(AddNames(u, ns))
    decreases |ns|
  {
    if ns != [] {
      var u' := if ns[0] in u then u else u + [ns[0]];
      AddNamesSpec(u', ns[1..]);
      assert forall x :: x in ns <==> x == ns[0] || x in ns[1..];
    }
  }

  lemma {:induction false} UnionOfSpec(u: seq<string>, envs: seq<Env>, side: Side)
    ensures forall x :: x in UnionOf(u, envs, side) <==>
              x in u || exists e :: e in envs && x in FieldsOf(e, side).names
    ensures Unique(u) ==> Unique(UnionOf(u, envs, side))
    decreases |envs|
  {
    if envs != [] {
      var ns := SortStrings(FieldsOf(envs[0], side).names);
      var u' := AddNames(u, ns);
      AddNamesSpec(u, ns);
      UnionOfSpec(u', envs[1..], side);
      forall x ensures x in UnionOf(u, envs, side) <==>
                       x in u || exists e :: e in envs && x in FieldsOf(e, side).names
      {
        assert x in ns <==> x in multiset(ns);
        if x in FieldsOf(envs[0], side).names {
          assert x in multiset(FieldsOf(envs[0], side).names);
        }
        if exists e :: e in envs && x in FieldsOf(e, side).names {
          var e :| e in envs && x in FieldsOf(e, side).names;
          if e != envs[0] {
            assert e in envs[1..];
          }
        }
        if exists e :: e in envs[1..] && x in FieldsOf(e, side).names {
          var e :| e in envs[1..] && x in FieldsOf(e, side).names;
          assert e in envs;
        }
      }
    }
  }

  /** `sorted(full_field_set[dirn])` lists, each once and in order, the
      fields some parameter set saw on that side. */
  lemma ColumnsAreUnion(envs: seq<Env>, side: Side)
    ensures StrictlySorted(Columns(envs, side))
    ensures forall x :: x in Columns(envs, side) <==> exists e :: e in envs && x in FieldsOf(e, side).names
  {
    var u := UnionOf([], envs, side);
    UnionOfSpec([], envs, side);
    SortedSetIsStrict(u);
    forall x ensures x in Columns(envs, side) <==> x in u {
      assert x in Columns(envs, side) <==> x in multiset(Columns(envs, side));
    }
  }

  /** Without `full_results`, each field gives exactly one step. */
  lemma {:induction false} SideStepsAt(e: Env, side: Side, cols: seq<string>)
    ensures |SideSteps(e, side, cols, false)| == |cols|
    ensures forall j :: 0 <= j < |cols| ==>
              SideSteps(e, side, cols, false)[j] == FieldSteps(e, side, cols[j], false)[0]
    decreases |cols|
  {
    if cols != [] {
      var h := FieldSteps(e, side, cols[0], false);
      var t := SideSteps(e, side, cols[1..], false);
      SideStepsAt(e, side, cols[1..]);
      assert |h| == 1 && SideSteps(e, side, cols, false) == h + t;
      forall j | 0 <= j < |cols|
        ensures SideSteps(e, side, cols, false)[j] == FieldSteps(e, side, cols[j], false)[0]
      {
        if j > 0 {
          assert cols[1..][j - 1] == cols[j];
        }
      }
    }
  }

  /** The number of rows of a parameter set without `full_results`: one
      per column of either side. */
  function Width(cc: seq<string>, sc: seq<string>): nat {
    |cc| + |sc|
  }

  /** The side of column `k` of a parameter set's rows: the client's
      columns come first. */
  function ColumnSide(cc: seq<string>, k: nat): Side {
    if k < |cc| then Client else Server
  }

  /** The field of column `k` of a parameter set's rows. */
  function Column(cc: seq<string>, sc: seq<string>, k: nat): string
    requires k < Width(cc, sc)
  {
    if k < |cc| then cc[k] else sc[k - |cc|]
  }

  /** Without `full_results`, a parameter set gives one step per column,
      the client's columns first. */
  lemma EnvStepAt(e: Env, cc: seq<string>, sc: seq<string>, k: nat)
    requires k < Width(cc, sc)
    ensures |EnvSteps(e, cc, sc, false)| == Width(cc, sc)
    ensures EnvSteps(e, cc, sc, false)[k] == FieldSteps(e, ColumnSide(cc, k), Column(cc, sc, k), false)[0]
  {
    var client := SideSteps(e, Client, cc, false);
    var server := SideSteps(e, Server, sc, false);
    SideStepsAt(e, Client, cc);
    SideStepsAt(e, Server, sc);
    if k < |cc| {
      assert (client + server)[k] == client[k];
    } else {
      var j := k - |cc|;
      assert |client| == |cc|;
      assert ColumnSide(cc, k) == Server && Column(cc, sc, k) == sc[j];
      assert server[j] == FieldSteps(e, Server, sc[j], false)[0];
      assert (client + server)[k] == server[j];
    }
  }

  lemma EnvStepsLength(e: Env, cc: seq<string>, sc: seq<string>)
    ensures |EnvSteps(e, cc, sc, false)| == Width(cc, sc)
  {
    SideStepsAt(e, Client, cc);
    SideStepsAt(e, Server, sc);
  }

  /** The steps of each parameter set, one block per set. */
  function Blocks(envs: seq<Env>, cc: seq<string>, sc: seq<string>, full: bool): (bs: seq<seq<Step>>)
    ensures |bs| == |envs|
    ensures forall j :: 0 <= j < |envs| ==> bs[j] == EnvSteps(envs[j], cc, sc, full)
  {
    seq(|envs|, j requires 0 <= j < |envs| => EnvSteps(envs[j], cc, sc, full))
  }

  /** The rows of `main` are the blocks of the parameter sets one after
      the other. */
  lemma {:induction false} AllStepsConcat(envs: seq<Env>, cc: seq<string>, sc: seq<string>, full: bool)
    ensures AllSteps(envs, cc, sc, full) == Concat(Blocks(envs, cc, sc, full))
    decreases |envs|
  {
    if envs != [] {
      AllStepsConcat(envs[1..], cc, sc, full);
      assert Blocks(envs, cc, sc, full)[1..] == Blocks(envs[1..], cc, sc, full);
    }
  }

  lemma BlocksLength(envs: seq<Env>, cc: seq<string>, sc: seq<string>)
    ensures Uniform(Blocks(envs, cc, sc, false), Width(cc, sc))
  {
    forall j | 0 <= j < |envs| ensures |Blocks(envs, cc, sc, false)[j]| == Width(cc, sc) {
      EnvStepsLength(envs[j], cc, sc);
    }
  }

  /** Without `full_results`, one step per parameter set and column. */
  lemma AllStepsLength(envs: seq<Env>, cc: seq<string>, sc: seq<string>)
    ensures |AllSteps(envs, cc, sc, false)| == Offset(|envs|, Width(cc, sc))
  {
    AllStepsConcat(envs, cc, sc, false);
    BlocksLength(envs, cc, sc);
    ConcatLength(Blocks(envs, cc, sc, false), Width(cc, sc));
  }

  /** Step `k` of parameter set `i` is its row for column `k`, where the
      sets have `w` rows each. */
  lemma StepAt(envs: seq<Env>, cc: seq<string>, sc: seq<string>, w: nat, i: nat, k: nat)
    requires w == Width(cc, sc)
    requires i < |envs| && k < w
    ensures Offset(i, w) + k < Offset(|envs|, w)
    ensures Offset(i, w) + k < |AllSteps(envs, cc, sc, false)|
    ensures AllSteps(envs, cc, sc, false)[Offset(i, w) + k]
            == FieldSteps(envs[i], ColumnSide(cc, k), Column(cc, sc, k), false)[0]
  {
    var bs := Blocks(envs, cc, sc, false);
    OffsetMono(|envs|, w, i, k);
    AllStepsConcat(envs, cc, sc, false);
    BlocksLength(envs, cc, sc);
    ConcatAt(bs, w, i, k);
    EnvStepAt(envs[i], cc, sc, k);
  }

  /** Every value of the field a number. */
  ghost predicate Numeric(e: Env) {
    forall side, field :: NumericField(e, side, field)
  }

  ghost predicate NumericField(e: Env, side: Side, field: string) {
    Numbers(SamplesOf(e, side, field)).Some?
  }

  /** Without `full_results`, a field whose values are numbers gives one
      row, which names its side and field and counts its values. */
  lemma SummaryRowSays(e: Env, side: Side, field: string)
    requires Numbers(SamplesOf(e, side, field)).Some?
    ensures var st := FieldSteps(e, side, field, false);
            && |st| == 1 && st[0].Row?
            && Lookup(st[0].dict, "side") == Some(Str(SideName(side)))
            && Lookup(st[0].dict, "field") == Some(Str(field))
            && Lookup(st[0].dict, "count") == Some(Int(|SamplesOf(e, side, field)|))
  {
    SummaryStepSays(e.parameters, side, field, e.paths, SamplesOf(e, side, field));
  }

  lemma SummaryStepSays(p: Record, side: Side, field: string, paths: seq<string>, ss: seq<Sample>)
    requires Numbers(ss).Some?
    ensures SummaryOne(SummarySteps(paths, Update(p, [("side", Str(SideName(side))), ("field", Str(field))]), ss),
                       side, field, |ss|)
  {
    var vs := Numbers(ss).value;
    StatsRowOf(p, side, field, JoinWith(paths, ','), Statistics.Stats(vs), |ss|);
  }

  /** One row, naming the side and the field and counting `n` samples. */
  ghost predicate SummaryOne(st: seq<Step>, side: Side, field: string, n: nat) {
    && |st| == 1 && st[0].Row?
    && Lookup(st[0].dict, "side") == Some(Str(SideName(side)))
    && Lookup(st[0].dict, "field") == Some(Str(field))
    && Lookup(st[0].dict, "count") == Some(Int(n))
  }

  /** `StatsRow` for entries shaped as `stats` returns them, counting `n`. */
  lemma StatsRowOf(p: Record, side: Side, field: string, paths: string, st: Record, n: nat)
    requires |st| == |Statistics.StatNames| && st[0].1 == Int(n)
    requires forall i :: 0 <= i < |st| ==> st[i].0 == Statistics.StatNames[i]
    ensures var d := Update(Update(Update(p, [("side", Str(SideName(side))), ("field", Str(field))]),
                                   [("paths", Str(paths))]), st);
            && Lookup(d, "side") == Some(Str(SideName(side)))
            && Lookup(d, "field") == Some(Str(field))
            && Lookup(d, "count") == Some(Int(n))
  {
    KeyedLikeStats(st);
    StatsRow(p, side, field, paths, st);
  }

  /** The summary row of a field: the parameters, then the side and the
      field, the paths, and the entries of `stats`, which name neither the
      side nor the field. */
  lemma StatsRow(p: Record, side: Side, field: string, paths: string, st: Record)
    requires |st| > 0 && st[0].0 == "count"
    requires "side" !in Keys(st) && "field" !in Keys(st)
    requires forall j :: 0 < j < |st| ==> st[j].0 != "count"
    ensures var d := Update(Update(Update(p, [("side", Str(SideName(side))), ("field", Str(field))]),
                                   [("paths", Str(paths))]), st);
            && Lookup(d, "side") == Some(Str(SideName(side)))
            && Lookup(d, "field") == Some(Str(field))
            && Lookup(d, "count") == Some(st[0].1)
  {
    var named := [("side", Str(SideName(side))), ("field", Str(field))];
    var d := Update(p, named);
    var withPaths := [("paths", Str(paths))];
    var d2 := Update(d, withPaths);
    assert Lookup(d2, "side") == Some(Str(SideName(side))) && Lookup(d2, "field") == Some(Str(field)) by {
      UpdateLast(p, named, 0);
      UpdateLast(p, named, 1);
      UpdateOther(d, withPaths, "side");
      UpdateOther(d, withPaths, "field");
    }
    UpdateOther(d2, st, "side");
    UpdateOther(d2, st, "field");
    UpdateLast(d2, st, 0);
  }

  /** A record keyed like `stats`' result names neither the side nor the
      field, and "count" only first. */
  lemma KeyedLikeStats(r: Record)
    requires |r| == |Statistics.StatNames|
    requires forall i :: 0 <= i < |r| ==> r[i].0 == Statistics.StatNames[i]
    ensures "side" !in Keys(r) && "field" !in Keys(r)
    ensures forall j :: 0 < j < |r| ==> r[j].0 != "count"
  {
    StatNamesAvoid();
    assert Keys(r) == Statistics.StatNames;
  }

  lemma StatNamesAvoid()
    ensures "side" !in Statistics.StatNames && "field" !in Statistics.StatNames
    ensures forall j :: 0 < j < |Statistics.StatNames| ==> Statistics.StatNames[j] != "count"
  {
  }

  /** With "ignore", every row is written, as the values of its header
      columns. */
  lemma {:induction false} EmitIgnore(lines: seq<seq<Cell>>, fieldnames: seq<string>, steps: seq<Step>)
    requires forall i :: 0 <= i < |steps| ==> steps[i].Row?
    ensures var r := EmitAll(lines, fieldnames, Ignore, steps);
            && r.1
            && |r.0| == |lines| + |steps|
            && r.0[..|lines|] == lines
            && forall i :: 0 <= i < |steps| ==> r.0[|lines| + i] == Line(fieldnames, steps[i].dict)
    decreases |steps|
  {
    if steps != [] {
      var l := Line(fieldnames, steps[0].dict);
      EmitIgnore(lines + [l], fieldnames, steps[1..]);
      var r := EmitAll(lines, fieldnames, Ignore, steps);
      assert r == EmitAll(lines + [l], fieldnames, Ignore, steps[1..]);
      assert r.0[..|lines|] == (lines + [l])[..|lines|];
      forall i | 0 <= i < |steps| ensures r.0[|lines| + i] == Line(fieldnames, steps[i].dict) {
        if i > 0 {
          assert |lines + [l]| + (i - 1) == |lines| + i;
          assert steps[1..][i - 1] == steps[i];
        }
      }
    }
  }

  /** A line that names its side and field and counts `n` values, at the
      positions of "side", "field" and "count" in the header. */
  predicate RowSays(line: seq<Cell>, side: Side, field: string, n: nat) {
    && |line| == 27
    && line[13] == Str(SideName(side))
    && line[14] == Str(field)
    && line[18] == Int(n)
  }

  /** Where the summary header puts the side, the field and the count. */
  predicate HeaderSays(hdr: seq<string>) {
    |hdr| == 27 && hdr[13] == "side" && hdr[14] == "field" && hdr[18] == "count"
  }

  lemma HeaderPositions()
    ensures HeaderSays(Headers(false))
  {
  }

  /** The output is rectangular: without `full_results`, when every value
      is a number and the writer leaves out keys outside its header, the
      run completes and writes the header followed by one row per
      parameter set and column of the two sides' unions. */
  lemma Rectangular(g: Gathered)
    requires forall e :: e in Envs(g) ==> Numeric(e)
    ensures var envs := Envs(g);
            var out := Written(g, false, Ignore);
            && out.completed
            && |out.lines| == 1 + Offset(|envs|, Width(Columns(envs, Client), Columns(envs, Server)))
            && out.lines[0] == HeaderLine(Headers(false))
  {
    var envs := Envs(g);
    var cc := Columns(envs, Client);
    var sc := Columns(envs, Server);
    var hdr := Headers(false);
    var steps := AllSteps(envs, cc, sc, false);
    AllStepsLength(envs, cc, sc);
    AllStepsRows(envs, cc, sc);
    var first := [HeaderLine(hdr)];
    EmitIgnore(first, hdr, steps);
    var r := EmitAll(first, hdr, Ignore, steps);
    assert |first| == 1;
    assert r.0[0] == first[0] by { assert r.0[..1] == first; }
  }

  /** ... and after the header, line `1 + j` is the row of step `j`: the
      writer fills the header's columns from the step's dict. `RowAt` says
      which step that is and what its row holds. */
  lemma WrittenRow(g: Gathered, j: nat)
    requires forall e :: e in Envs(g) ==> Numeric(e)
    requires j < |AllSteps(Envs(g), Columns(Envs(g), Client), Columns(Envs(g), Server), false)|
    ensures var steps := AllSteps(Envs(g), Columns(Envs(g), Client), Columns(Envs(g), Server), false);
            var out := Written(g, false, Ignore);
            && 1 + j < |out.lines| && steps[j].Row?
            && out.lines[1 + j] == Line(Headers(false), steps[j].dict)
  {
    var envs := Envs(g);
    var cc := Columns(envs, Client);
    var sc := Columns(envs, Server);
    var hdr := Headers(false);
    var steps := AllSteps(envs, cc, sc, false);
    assert forall n :: 0 <= n < |steps| ==> steps[n].Row? by {
      AllStepsRows(envs, cc, sc);
    }
    EmitRowAt(hdr, steps, j);
  }

  /** Where the writer puts the row of step `j` when every step is a row. */
  lemma EmitRowAt(hdr: seq<string>, steps: seq<Step>, j: nat)
    requires forall n :: 0 <= n < |steps| ==> steps[n].Row?
    requires j < |steps|
    ensures var lines := EmitAll([HeaderLine(hdr)], hdr, Ignore, steps).0;
            |lines| == 1 + |steps| && lines[1 + j] == Line(hdr, steps[j].dict)
  {
    var first := [HeaderLine(hdr)];
    EmitIgnore(first, hdr, steps);
    assert |first| == 1;
  }

  /** The row written for column `k` of parameter set `i` names its side and
      field and counts that field's values. */
  lemma RowAt(envs: seq<Env>, cc: seq<string>, sc: seq<string>, w: nat, i: nat, k: nat, hdr: seq<string>)
    requires w == Width(cc, sc)
    requires HeaderSays(hdr)
    requires i < |envs| && k < w
    requires Numeric(envs[i])
    ensures Offset(i, w) + k < |AllSteps(envs, cc, sc, false)|
    ensures var s := AllSteps(envs, cc, sc, false)[Offset(i, w) + k];
            && s.Row?
            && RowSays(Line(hdr, s.dict), ColumnSide(cc, k), Column(cc, sc, k),
                       |SamplesOf(envs[i], ColumnSide(cc, k), Column(cc, sc, k))|)
  {
    StepAt(envs, cc, sc, w, i, k);
    var side := ColumnSide(cc, k);
    var field := Column(cc, sc, k);
    assert NumericField(envs[i], side, field);
    SummaryRowSays(envs[i], side, field);
    LineSays(hdr, FieldSteps(envs[i], side, field, false)[0].dict, side, field, |SamplesOf(envs[i], side, field)|);
  }

  /** A row whose dict holds `side`, `field` and `count` shows them in the
      header's columns for them. */
  lemma LineSays(hdr: seq<string>, d: Record, side: Side, field: string, n: nat)
    requires HeaderSays(hdr)
    requires Lookup(d, "side") == Some(Str(SideName(side)))
    requires Lookup(d, "field") == Some(Str(field))
    requires Lookup(d, "count") == Some(Int(n))
    ensures RowSays(Line(hdr, d), side, field, n)
  {
    var l := Line(hdr, d);
    assert l[13] == Get(d, "side");
    assert l[14] == Get(d, "field");
    assert l[18] == Get(d, "count");
  }

  /** Every step is a row. */
  ghost predicate AllRows(steps: seq<Step>) {
    forall k :: 0 <= k < |steps| ==> steps[k].Row?
  }

  lemma RowsConcat(a: seq<Step>, b: seq<Step>)
    requires AllRows(a) && AllRows(b)
    ensures AllRows(a + b)
  {
    forall k | 0 <= k < |a + b| ensures (a + b)[k].Row? {
      if k >= |a| {
        assert (a + b)[k] == b[k - |a|];
      }
    }
  }

  lemma {:induction false} SideStepsRows(e: Env, side: Side, cols: seq<string>)
    requires Numeric(e)
    ensures AllRows(SideSteps(e, side, cols, false))
    decreases |cols|
  {
    if cols != [] {
      var first := FieldSteps(e, side, cols[0], false);
      var rest := SideSteps(e, side, cols[1..], false);
      assert AllRows(first) by {
        assert NumericField(e, side, cols[0]);
        SummaryRowSays(e, side, cols[0]);
      }
      SideStepsRows(e, side, cols[1..]);
      RowsConcat(first, rest);
      assert SideSteps(e, side, cols, false) == first + rest;
    }
  }

  /** Every step is a row when every value is a number. */
  lemma {:induction false} AllStepsRows(envs: seq<Env>, cc: seq<string>, sc: seq<string>)
    requires forall e :: e in envs ==> Numeric(e)
    ensures AllRows(AllSteps(envs, cc, sc, false))
    decreases |envs|
  {
    if envs != [] {
      assert envs[0] in envs;
      SideStepsRows(envs[0], Client, cc);
      SideStepsRows(envs[0], Server, sc);
      RowsConcat(SideSteps(envs[0], Client, cc, false), SideSteps(envs[0], Server, sc, false));
      assert forall e :: e in envs[1..] ==> e in envs;
      AllStepsRows(envs[1..], cc, sc);
      RowsConcat(EnvSteps(envs[0], cc, sc, false), AllSteps(envs[1..], cc, sc, false));
    }
  }

  // ------------------------------------------------- the writer as written

  /** Every row of `steps` holds `key`. */
  ghost predicate Carry(steps: seq<Step>, key: string) {
    forall i :: 0 <= i < |steps| && steps[i].Row? ==> key in Keys(steps[i].dict)
  }

  lemma {:induction false} ValueStepsCarry(d: Record, ss: seq<Sample>, key: string)
    requires key in Keys(d)
    ensures Carry(ValueSteps(d, ss), key)
    decreases |ss|
  {
    if ss != [] {
      var next := Update(d, [("value", ss[0].value), ("paths", Str(ss[0].source))]);
      UpdateKeeps(d, [("value", ss[0].value), ("paths", Str(ss[0].source))], key);
      ValueStepsCarry(next, ss[1..], key);
      var st := ValueSteps(d, ss);
      var rest := ValueSteps(next, ss[1..]);
      assert st == [Row(next)] + rest;
      forall i | 0 <= i < |st| && st[i].Row?
        ensures key in Keys(st[i].dict)
      {
        if i > 0 {
          assert st[i] == rest[i - 1];
        }
      }
    }
  }

  lemma FieldStepsCarry(e: Env, side: Side, field: string, full: bool, key: string)
    requires key in Keys(e.parameters)
    ensures Carry(FieldSteps(e, side, field, full), key)
  {
    var d := Results(e, side, field);
    UpdateKeeps(e.parameters, [("side", Str(SideName(side))), ("field", Str(field))], key);
    if full {
      ValueStepsCarry(d, SamplesOf(e, side, field), key);
    } else {
      SummaryStepsCarry(e.paths, d, SamplesOf(e, side, field), key);
    }
  }

  lemma SummaryStepsCarry(paths: seq<string>, d: Record, ss: seq<Sample>, key: string)
    requires key in Keys(d)
    ensures Carry(SummarySteps(paths, d, ss), key)
  {
    var vs := Numbers(ss);
    if vs.Some? {
      UpdateTwiceKeeps(d, [("paths", Str(JoinWith(paths, ',')))], Statistics.Stats(vs.value), key);
    }
  }

  lemma UpdateTwiceKeeps(d: Record, a: Record, b: Record, key: string)
    requires key in Keys(d)
    ensures key in Keys(Update(Update(d, a), b))
  {
    UpdateKeeps(d, a, key);
    UpdateKeeps(Update(d, a), b, key);
  }

  lemma {:induction false} SideStepsCarry(e: Env, side: Side, cols: seq<string>, full: bool, key: string)
    requires key in Keys(e.parameters)
    ensures Carry(SideSteps(e, side, cols, full), key)
    decreases |cols|
  {
    if cols != [] {
      FieldStepsCarry(e, side, cols[0], full, key);
      SideStepsCarry(e, side, cols[1..], full, key);
    }
  }

  lemma {:induction false} AllStepsCarry(envs: seq<Env>, cc: seq<string>, sc: seq<string>, full: bool, key: string)
    requires forall e :: e in envs ==> key in Keys(e.parameters)
    ensures Carry(AllSteps(envs, cc, sc, full), key)
    decreases |envs|
  {
    if envs != [] {
      SideStepsCarry(envs[0], Client, cc, full, key);
      SideStepsCarry(envs[0], Server, sc, full, key);
      AllStepsCarry(envs[1..], cc, sc, full, key);
    }
  }

  /** With "raise", rows that all hold a key outside the header write
      nothing, and the run ends at the first of them. */
  lemma EmitRaise(lines: seq<seq<Cell>>, fieldnames: seq<string>, steps: seq<Step>, key: string)
    requires Carry(steps, key) && key !in fieldnames
    ensures EmitAll(lines, fieldnames, Raise, steps) == (lines, steps == [])
  {
    if steps != [] && steps[0].Row? {
      assert key in Keys(steps[0].dict);
      assert RowLine(fieldnames, Raise, steps[0].dict).None?;
    }
  }

  /** The header has no `colocated` column. */
  lemma ColocatedNotAHeader(full: bool)
    ensures "colocated" !in Headers(full)
  {
  }

  /** `main` as written writes the header and no row: every row holds the
      parameter `colocated`, which is not a column of the header, so the
      first `writerow` raises `ValueError`; the run completes only when
      there is no row to write. */
  lemma AsWrittenHeaderOnly(files: seq<CreateDb.ResultFile>, hint: Option<string>, full: bool)
    ensures var out := MainAsWritten(files, hint, full);
            && |out.lines| <= 1
            && (out.completed ==>
                  && Gather(files, hint).Some?
                  && var envs := Envs(Gather(files, hint).value);
                     AllSteps(envs, Columns(envs, Client), Columns(envs, Server), full) == [])
  {
    GatherOk(files, hint);
    if Gather(files, hint).Some? {
      var g := Gather(files, hint).value;
      GatheredColocated(g);
      WrittenHeaderOnly(g, full);
    }
  }

  /** Every parameter set gathered holds `colocated`. */
  lemma GatheredColocated(g: Gathered)
    requires GatheredOk(g)
    ensures forall e :: e in Envs(g) ==> "colocated" in Keys(e.parameters)
  {
    var envs := Envs(g);
    forall e | e in envs ensures "colocated" in Keys(e.parameters) {
      var i :| 0 <= i < |envs| && envs[i] == e;
      assert EnvOk(g.keys[i], e);
    }
  }

  /** `AsWrittenHeaderOnly` once the files are read into `g`. */
  lemma WrittenHeaderOnly(g: Gathered, full: bool)
    requires forall e :: e in Envs(g) ==> "colocated" in Keys(e.parameters)
    ensures var out := Written(g, full, Raise);
            var envs := Envs(g);
            && |out.lines| == 1
            && out.completed == (AllSteps(envs, Columns(envs, Client), Columns(envs, Server), full) == [])
  {
    var envs := Envs(g);
    var hdr := Headers(full);
    var steps := AllSteps(envs, Columns(envs, Client), Columns(envs, Server), full);
    assert Carry(steps, "colocated") by {
      AllStepsCarry(envs, Columns(envs, Client), Columns(envs, Server), full, "colocated");
    }
    assert "colocated" !in hdr by {
      ColocatedNotAHeader(full);
    }
    EmitRaise([HeaderLine(hdr)], hdr, steps, "colocated");
  }

  /** Without `full_results`, `main` as written raises as soon as one file
      yields one value: the row of that value's field cannot be written. */
  lemma AsWrittenRaises(files: seq<CreateDb.ResultFile>, hint: Option<string>, i: nat, side: Side, field: string)
    requires Gather(files, hint).Some?
    requires i < |Envs(Gather(files, hint).value)|
    requires field in FieldsOf(Envs(Gather(files, hint).value)[i], side).names
    ensures !MainAsWritten(files, hint, false).completed
  {
    var envs := Envs(Gather(files, hint).value);
    var cc := Columns(envs, Client);
    var sc := Columns(envs, Server);
    ColumnsAreUnion(envs, side);
    assert envs[i] in envs;
    assert field in Columns(envs, side);
    assert |cc| + |sc| > 0;
    StepAt(envs, cc, sc, Width(cc, sc), 0, 0);
    AsWrittenHeaderOnly(files, hint, false);
  }
}

/** `TcptraceReader` in tools/summarize_test_results.py: the per-connection
    statistics `tcptrace -l` prints in two columns (client, server), read
    only for connections whose "total packets" line reaches the threshold. */
module Tcptrace {
  import opened Base
  import opened Text
  import opened TcptraceLines

  /** Client field names the reader drops. */
  const SkipFields: seq<string> := ["req sack", "req 1323 ws/ts", "SYN/FIN pkts sent"]

  /** The default of the class attribute `min_packets`. */
  const MinPackets: int := 0

  /** A line opens a connection worth reporting: a total-packets line whose
      count reaches the threshold. */
  predicate Opens(p: Parsed, minPackets: int) {
    p.packets.Some? && p.packets.value >= minPackets
  }

  /** The (client, server) pair a matched line yields. */
  function Pair(f: FieldLine): (ts: seq<Triple>)
    ensures |ts| == 2 && ts[0].side == Client && ts[1].side == Server
    ensures ts[0].field == f.clientField && ts[1].field == f.serverField
    ensures (ts[0].value.Int? || ts[0].value.Real?) && (ts[1].value.Int? || ts[1].value.Real?)
  {
    [Triple(Client, f.clientField, Coerce(f.clientValue)),
     Triple(Server, f.serverField, Coerce(f.serverValue))]
  }

  /** The triples of a match: a client triple and a server triple, unless
      nothing matched or the client field is skipped. */
  function Emit(m: Option<FieldLine>): (ts: seq<Triple>)
    ensures |ts| == 0 || |ts| == 2
    ensures ts != [] ==> m.Some? && m.value.clientField !in SkipFields && ts == Pair(m.value)
  {
    match m
    case None => []
    case Some(f) => if f.clientField in SkipFields then [] else Pair(f)
  }

  /** One line of `readfile`: the new value of `handle_connection` and the
      triples the line yields. */
  function Step(p: Parsed, handle: bool, minPackets: int): (bool, seq<Triple>)
  {
    var h := match p.packets case Some(n) => n >= minPackets case None => handle;
    (h, if h then Emit(p.fields) else [])
  }

  /** Everything `readfile` yields from lines parsed as `ps` when the
      connection flag starts as `handle`. */
  function Run(ps: seq<Parsed>, handle: bool, minPackets: int): seq<Triple>
    decreases |ps|
  {
    if ps == [] then []
    else
      var st := Step(ps[0], handle, minPackets);
      st.1 + Run(ps[1..], st.0, minPackets)
  }

  function ParseAll(lines: seq<string>): (ps: seq<Parsed>)
    ensures |ps| == |lines|
    ensures forall j :: 0 <= j < |lines| ==> ps[j] == Parse(lines[j])
  {
    seq(|lines|, j requires 0 <= j < |lines| => Parse(lines[j]))
  }

  /** What `TcptraceReader().readfile(f)` yields from the lines of `f`. */
  function ReadFrom(lines: seq<string>, minPackets: int): seq<Triple> {
    Run(ParseAll(lines), false, minPackets)
  }

  /** `TcptraceReader().readfile(f)` over the lines of `f`. */
  method ReadFile(lines: seq<string>, minPackets: int) returns (out: seq<Triple>)
    ensures out == ReadFrom(lines, minPackets)
  {
    ghost var ps := ParseAll(lines);
    var handle := false;
    out := [];
    var i := 0;
    assert ps[0..] == ps;
    while i < |lines|
      invariant 0 <= i <= |lines|
      invariant Run(ps, false, minPackets) == out + Run(ps[i..], handle, minPackets)
    {
      RunStep(ps, i, handle, minPackets);
      ghost var rest := Run(ps[i + 1..], Step(ps[i], handle, minPackets).0, minPackets);
      var yielded;
      handle, yielded := ReadLine(lines[i], handle, minPackets);
      AppendAssoc(out, yielded, rest);
      out := out + yielded;
      i := i + 1;
    }
    assert ps[i..] == [];
  }

  /** `Run` from position `i` is the step at `i` followed by the run after it. */
  lemma RunStep(ps: seq<Parsed>, i: nat, handle: bool, minPackets: int)
    requires i < |ps|
    ensures var st := Step(ps[i], handle, minPackets);
            Run(ps[i..], handle, minPackets) == st.1 + Run(ps[i + 1..], st.0, minPackets)
  {
    assert ps[i..][1..] == ps[i + 1..];
  }

  /** The body of the loop of `readfile`, for one line. */
  method ReadLine(raw: string, handle: bool, minPackets: int) returns (h: bool, yielded: seq<Triple>)
    ensures (h, yielded) == Step(Parse(raw), handle, minPackets)
  {
    var line := Strip(raw);
    h := handle;
    var m := TotalPackets(line);
    if m.Some? {
      h := m.value >= minPackets;
    }
    yielded := [];
    if h {
      var f := MatchField(line);
      if f.Some? && f.value.clientField !in SkipFields {
        yielded := Pair(f.value);
      }
    }
    StepOf(Parse(raw), handle, minPackets);
  }

  /** `Step` spelled out case by case. */
  lemma StepOf(p: Parsed, handle: bool, minPackets: int)
    ensures var h := if p.packets.Some? then p.packets.value >= minPackets else handle;
            Step(p, handle, minPackets)
            == (h, if h && p.fields.Some? && p.fields.value.clientField !in SkipFields then Pair(p.fields.value) else [])
  {
  }

  // ------------------------------------------------------------- properties

  /** Until a total-packets line reaches the threshold nothing is yielded:
      the lines before it may as well not be there. */
  lemma {:induction false} GatedUntilOpened(ps: seq<Parsed>, k: nat, minPackets: int)
    requires k <= |ps|
    requires forall j :: 0 <= j < k ==> !Opens(ps[j], minPackets)
    ensures Run(ps, false, minPackets) == Run(ps[k..], false, minPackets)
    decreases k
  {
    if k > 0 {
      assert Step(ps[0], false, minPackets) == (false, []);
      assert ps[1..][k - 1..] == ps[k..];
      GatedUntilOpened(ps[1..], k - 1, minPackets);
    }
  }

  /** With no qualifying total-packets line the reader yields nothing. */
  lemma NeverOpened(lines: seq<string>, minPackets: int)
    requires forall j :: 0 <= j < |lines| ==> !Opens(Parse(lines[j]), minPackets)
    ensures ReadFrom(lines, minPackets) == []
  {
    var ps := ParseAll(lines);
    GatedUntilOpened(ps, |ps|, minPackets);
  }

  /** What the reader yields comes in (client, server) pairs, and no client
      field is one of the skipped ones. */
  predicate Paired(ts: seq<Triple>) {
    && |ts| % 2 == 0
    && (forall k :: 0 <= k < |ts| / 2 ==> ts[2 * k].side == Client && ts[2 * k].field !in SkipFields)
    && (forall k :: 0 <= k < |ts| / 2 ==> ts[2 * k + 1].side == Server)
    && (forall k :: 0 <= k < |ts| ==> ts[k].value.Int? || ts[k].value.Real?)
  }

  lemma PairedAppend(a: seq<Triple>, b: seq<Triple>)
    requires Paired(a) && Paired(b)
    ensures Paired(a + b)
  {
    var c := a + b;
    forall k | 0 <= k < |c| / 2
      ensures c[2 * k].side == Client && c[2 * k].field !in SkipFields && c[2 * k + 1].side == Server
    {
      if 2 * k < |a| {
        assert c[2 * k] == a[2 * k] && c[2 * k + 1] == a[2 * k + 1];
      } else {
        var m := k - |a| / 2;
        assert c[2 * k] == b[2 * m] && c[2 * k + 1] == b[2 * m + 1];
      }
    }
  }

  lemma {:induction false} RunPaired(ps: seq<Parsed>, handle: bool, minPackets: int)
    ensures Paired(Run(ps, handle, minPackets))
    decreases |ps|
  {
    if ps != [] {
      var st := Step(ps[0], handle, minPackets);
      StepPaired(ps[0], handle, minPackets);
      RunPaired(ps[1..], st.0, minPackets);
      PairedAppend(st.1, Run(ps[1..], st.0, minPackets));
    }
  }

  /** The reader's output is paired. */
  lemma ReadPaired(lines: seq<string>, minPackets: int)
    ensures Paired(ReadFrom(lines, minPackets))
  {
    RunPaired(ParseAll(lines), false, minPackets);
  }

  lemma StepPaired(p: Parsed, handle: bool, minPackets: int)
    ensures Paired(Step(p, handle, minPackets).1)
  {
    EmitPaired(p.fields);
  }

  lemma EmitPaired(m: Option<FieldLine>)
    ensures Paired(Emit(m))
  {
    var ts := Emit(m);
    if ts != [] {
      forall k | 0 <= k < |ts| / 2
        ensures ts[2 * k].side == Client && ts[2 * k].field !in SkipFields && ts[2 * k + 1].side == Server
      {
        assert k == 0;
      }
    }
  }

  /** A rendered line of a connection being reported yields exactly its
      client triple and then its server triple, values converted. */
  lemma RenderedLineYields(f: FieldLine, minPackets: int)
    requires Renderable(f) && f.clientField !in SkipFields
    ensures Step(Parse(Render(f)), true, minPackets)
         == (true, [Triple(Client, f.clientField, Coerce(f.clientValue)),
                    Triple(Server, f.serverField, Coerce(f.serverValue))])
  {
    var line := Render(f);
    assert line[0] == f.clientField[0];
    assert line[|line| - 1] == f.serverValue[|f.serverValue| - 1];
    StripUnchanged(line);
    MatchRender(f);
    RenderedNotTotal(f);
  }

  /** A unit-bearing line `cf: cv cu  sf: sv su` of a connection being
      reported yields its client triple and then its server triple; the
      units are dropped. */
  lemma UnitLineYields(f: FieldLine, cu: string, su: string, minPackets: int)
    requires UnitsRenderable(f, cu, su) && f.clientField !in SkipFields
    ensures Step(Parse(RenderUnits(f, cu, su)), true, minPackets)
         == (true, [Triple(Client, f.clientField, Coerce(f.clientValue)),
                    Triple(Server, f.serverField, Coerce(f.serverValue))])
  {
    var line := RenderUnits(f, cu, su);
    assert line[0] == f.clientField[0];
    assert line[|line| - 1] == su[|su| - 1];
    StripUnchanged(line);
    MatchRenderUnits(f, cu, su);
    FieldLineNotTotal(f.clientField, f.clientValue,
                      cu + (" " + (f.serverField + (": " + (f.serverValue + (" " + su))))));
  }

  /** A `total packets:` line opens the gate exactly when its count reaches
      the threshold, whatever the gate was, and yields nothing itself. */
  lemma PacketsLineGate(ws: string, d: string, handle: bool, minPackets: int)
    requires ws != [] && (forall j :: 0 <= j < |ws| ==> IsSpace(ws[j])) && IsDigits(d)
    ensures Step(Parse("total packets:" + ws + d), handle, minPackets)
         == (DigitsValue(d) >= minPackets, [])
  {
    var line := "total packets:" + ws + d;
    assert line[0] == 't' && line[|line| - 1] == d[|d| - 1];
    StripUnchanged(line);
    TotalPacketsRead(ws, d);
    PacketsLineUnmatched(ws, d);
  }
}

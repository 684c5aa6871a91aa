/** `OwampReader` in tools/summarize_test_results.py: the summary `owping`
    prints for each direction of a one-way latency test,

      9000 sent, 0 lost (0.000%), 0 duplicates
      one-way jitter = 0.8 ms (P95-P50)

    read as packet, loss and duplicate counts and the jitter. Without a
    fixed direction the first test is the client-to-server one and every
    line after its jitter line belongs to the server. */
module Owamp {
  import opened Base
  import opened Text
  import opened OwampLines

  /** The side a line's values are yielded for: the reader's own direction,
      else client until a jitter line has been read. */
  function Direction(fixed: Option<Side>, c2s: bool): Side {
    match fixed
    case Some(s) => s
    case None => if c2s then Client else Server
  }

  /** One line: the new value of `is_c2s` and the values yielded. */
  function Step(p: OwampLine, c2s: bool, fixed: Option<Side>): (bool, seq<Triple>)
  {
    var d := Direction(fixed, c2s);
    var counts := match p.packets
      case Some((n, l, u)) => [Triple(d, "owamp_packets", Int(n)), Triple(d, "owamp_lost", Int(l)),
                               Triple(d, "owamp_dups", Int(u))]
      case None => [];
    var jitter := match p.jitter
      case Some(j) => [Triple(d, "owamp_jitter", Real(j))]
      case None => [];
    (c2s && p.jitter.None?, counts + jitter)
  }

  /** Everything yielded from lines parsed as `ps`, `is_c2s` starting as `c2s`. */
  function Run(ps: seq<OwampLine>, c2s: bool, fixed: Option<Side>): seq<Triple>
    decreases |ps|
  {
    if ps == [] then []
    else
      var st := Step(ps[0], c2s, fixed);
      st.1 + Run(ps[1..], st.0, fixed)
  }

  /** `total_seen`: one for each summary line and each jitter line read. */
  function Seen(ps: seq<OwampLine>): nat
    decreases |ps|
  {
    if ps == [] then 0
    else (if ps[0].packets.Some? then 1 else 0) + (if ps[0].jitter.Some? then 1 else 0) + Seen(ps[1..])
  }

  /** The fewest values read without the "Parse error" message: both
      directions are expected when the direction is not fixed. */
  function Threshold(fixed: Option<Side>): nat {
    if fixed.Some? then 2 else 4
  }

  function ParseAll(lines: seq<string>): (ps: seq<OwampLine>)
    ensures |ps| == |lines|
    ensures forall j :: 0 <= j < |lines| ==> ps[j] == Parse(lines[j])
  {
    seq(|lines|, j requires 0 <= j < |lines| => Parse(lines[j]))
  }

  /** What `OwampReader(direction).readfile(f)` yields. */
  function ReadFrom(lines: seq<string>, fixed: Option<Side>): seq<Triple> {
    Run(ParseAll(lines), true, fixed)
  }

  /** `OwampReader(direction).readfile(f)`: the values, and whether the
      "Parse error" message is logged. */
  method ReadFile(lines: seq<string>, fixed: Option<Side>) returns (out: seq<Triple>, parseError: bool)
    ensures out == ReadFrom(lines, fixed)
    ensures parseError <==> Seen(ParseAll(lines)) < Threshold(fixed)
  {
    ghost var ps := ParseAll(lines);
    var c2s := true;
    var totalSeen := 0;
    out := [];
    var i := 0;
    assert ps[0..] == ps;
    while i < |lines|
      invariant 0 <= i <= |lines|
      invariant Run(ps, true, fixed) == out + Run(ps[i..], c2s, fixed)
      invariant Seen(ps) == totalSeen + Seen(ps[i..])
    {
      RunStep(ps, i, c2s, fixed);
      ghost var rest := Run(ps[i + 1..], Step(ps[i], c2s, fixed).0, fixed);
      var yielded, seen;
      c2s, yielded, seen := ReadLine(lines[i], c2s, fixed);
      AppendAssoc(out, yielded, rest);
      out := out + yielded;
      totalSeen := totalSeen + seen;
      i := i + 1;
    }
    assert ps[i..] == [];
    parseError := totalSeen < Threshold(fixed);
  }

  lemma RunStep(ps: seq<OwampLine>, i: nat, c2s: bool, fixed: Option<Side>)
    requires i < |ps|
    ensures var st := Step(ps[i], c2s, fixed);
            && Run(ps[i..], c2s, fixed) == st.1 + Run(ps[i + 1..], st.0, fixed)
            && Seen(ps[i..]) == (if ps[i].packets.Some? then 1 else 0) + (if ps[i].jitter.Some? then 1 else 0)
                                + Seen(ps[i + 1..])
  {
    assert ps[i..][1..] == ps[i + 1..];
  }

  /** The body of the loop for one line: the new `is_c2s`, the values
      yielded and what the line adds to `total_seen`. */
  method ReadLine(raw: string, c2s: bool, fixed: Option<Side>) returns (next: bool, yielded: seq<Triple>, seen: nat)
    ensures (next, yielded) == Step(Parse(raw), c2s, fixed)
    ensures seen == (if Parse(raw).packets.Some? then 1 else 0) + (if Parse(raw).jitter.Some? then 1 else 0)
  {
    var line := Strip(raw);
    var direction := if fixed.Some? then fixed.value else if c2s then Client else Server;
    next := c2s;
    seen := 0;
    var counts := [];
    var m := MatchPackets(line);
    if m.Some? {
      var (n, l, u) := m.value;
      seen := seen + 1;
      counts := [Triple(direction, "owamp_packets", Int(n)), Triple(direction, "owamp_lost", Int(l)),
                 Triple(direction, "owamp_dups", Int(u))];
    }
    var jitter := [];
    var j := MatchJitter(line);
    if j.Some? {
      seen := seen + 1;
      next := false;
      jitter := [Triple(direction, "owamp_jitter", Real(j.value))];
    }
    yielded := counts + jitter;
  }

  // ------------------------------------------------------------- properties

  /** With a fixed direction every value is yielded for that side. */
  lemma {:induction false} FixedSide(ps: seq<OwampLine>, c2s: bool, s: Side)
    ensures forall t :: t in Run(ps, c2s, Some(s)) ==> t.side == s
    decreases |ps|
  {
    if ps != [] {
      FixedSide(ps[1..], Step(ps[0], c2s, Some(s)).0, s);
    }
  }

  /** Once a jitter line has been read, everything is a server value. */
  lemma {:induction false} ServerAfterJitter(ps: seq<OwampLine>)
    ensures forall t :: t in Run(ps, false, None) ==> t.side == Server
    decreases |ps|
  {
    if ps != [] {
      ServerAfterJitter(ps[1..]);
    }
  }

  /** Lines with no jitter line among them yield only client values. */
  lemma {:induction false} ClientUntilJitter(ps: seq<OwampLine>)
    requires forall j :: 0 <= j < |ps| ==> ps[j].jitter.None?
    ensures forall t :: t in Run(ps, true, None) ==> t.side == Client
    decreases |ps|
  {
    if ps != [] {
      ClientUntilJitter(ps[1..]);
    }
  }

  /** Reading up to and including the first jitter line, then the rest as
      the server's: the first test's values are the client's, the second's
      the server's. */
  lemma {:induction false} SplitAtJitter(ps: seq<OwampLine>, k: nat)
    requires k < |ps| && ps[k].jitter.Some?
    requires forall j :: 0 <= j < k ==> ps[j].jitter.None?
    ensures Run(ps, true, None) == Run(ps[..k + 1], true, None) + Run(ps[k + 1..], false, None)
    decreases k
  {
    var st := Step(ps[0], true, None);
    if k == 0 {
      assert ps[..1][1..] == [];
      assert Run(ps[..1], true, None) == st.1;
    } else {
      var tail := ps[1..];
      SplitAtJitter(tail, k - 1);
      assert st.0;
      assert ps[..k + 1][1..] == tail[..k];
      assert tail[k..] == ps[k + 1..];
      AppendAssoc(st.1, Run(tail[..k], true, None), Run(ps[k + 1..], false, None));
    }
  }

  /** Up to and including the first jitter line, whose own value is the
      client's jitter, everything is a client value. */
  lemma {:induction false} ClientThroughJitter(ps: seq<OwampLine>, k: nat)
    requires k < |ps| && ps[k].jitter.Some?
    requires forall j :: 0 <= j < k ==> ps[j].jitter.None?
    ensures forall t :: t in Run(ps[..k + 1], true, None) ==> t.side == Client
    decreases k
  {
    var st := Step(ps[0], true, None);
    var run := Run(ps[..k + 1], true, None);
    var rest := Run(ps[..k + 1][1..], st.0, None);
    assert run == st.1 + rest;
    if k > 0 {
      assert ps[..k + 1][1..] == ps[1..][..k];
      assert st.0;
      ClientThroughJitter(ps[1..], k - 1);
    }
    StepClient(ps[0]);
    forall t | t in run ensures t.side == Client {
      assert t in st.1 || t in rest;
    }
  }

  /** Every value of a line read as the client's is the client's. */
  lemma StepClient(p: OwampLine)
    ensures forall t :: t in Step(p, true, None).1 ==> t.side == Client
  {
  }

  /** Each summary line adds three values and each jitter line one. */
  lemma {:induction false} RunLength(ps: seq<OwampLine>, c2s: bool, fixed: Option<Side>)
    ensures |Run(ps, c2s, fixed)| == 3 * Summaries(ps) + Jitters(ps)
    ensures Seen(ps) == Summaries(ps) + Jitters(ps)
    decreases |ps|
  {
    if ps != [] {
      RunLength(ps[1..], Step(ps[0], c2s, fixed).0, fixed);
    }
  }

  function Summaries(ps: seq<OwampLine>): nat
    decreases |ps|
  {
    if ps == [] then 0 else (if ps[0].packets.Some? then 1 else 0) + Summaries(ps[1..])
  }

  function Jitters(ps: seq<OwampLine>): nat
    decreases |ps|
  {
    if ps == [] then 0 else (if ps[0].jitter.Some? then 1 else 0) + Jitters(ps[1..])
  }
}

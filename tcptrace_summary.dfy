/** `TcptraceSummaryReader` in tools/summarize_test_results.py: the
    statistics of every (side, field) that `TcptraceReader` yields. */
module TcptraceSummary {
  import opened Base
  import opened Text
  import opened Statistics
  import opened Tcptrace

  function Key(t: Triple): (Side, string) {
    (t.side, t.field)
  }

  /** The distinct (side, field) keys in the order first seen. */
  function KeysSeen(ts: seq<Triple>): (ks: seq<(Side, string)>)
    ensures |ks| <= |ts|
    decreases |ts|
  {
    if ts == [] then []
    else
      var ks := KeysSeen(ts[..|ts| - 1]);
      if Key(ts[|ts| - 1]) in ks then ks else ks + [Key(ts[|ts| - 1])]
  }

  /** Each key is listed once, every yielded triple's key is listed, and
      every listed key is that of some yielded triple. */
  lemma {:induction false} KeysSeenExact(ts: seq<Triple>)
    ensures var ks := KeysSeen(ts);
            && (forall i, j :: 0 <= i < j < |ks| ==> ks[i] != ks[j])
            && (forall i :: 0 <= i < |ts| ==> Key(ts[i]) in ks)
            && (forall k :: k in ks ==> exists i :: 0 <= i < |ts| && Key(ts[i]) == k)
    decreases |ts|
  {
    if ts != [] {
      var init := ts[..|ts| - 1];
      KeysSeenExact(init);
      assert forall i :: 0 <= i < |init| ==> ts[i] == init[i];
    }
  }

  /** The values yielded under key `k`, in order. */
  function ValuesOf(ts: seq<Triple>, k: (Side, string)): (vs: seq<real>)
    ensures |vs| <= |ts|
    decreases |ts|
  {
    if ts == [] then []
    else
      var last := ts[|ts| - 1];
      ValuesOf(ts[..|ts| - 1], k) + (if Key(last) == k then [Number(last.value)] else [])
  }

  lemma {:induction false} ValuesOfUnseen(ts: seq<Triple>, k: (Side, string))
    requires k !in KeysSeen(ts)
    ensures ValuesOf(ts, k) == []
    decreases |ts|
  {
    if ts != [] {
      var init := ts[..|ts| - 1];
      assert KeysSeen(init) <= KeysSeen(ts);
      ValuesOfUnseen(init, k);
    }
  }

  /** Every key seen has at least one value. */
  lemma {:induction false} ValuesOfSeen(ts: seq<Triple>, k: (Side, string))
    requires k in KeysSeen(ts)
    ensures ValuesOf(ts, k) != []
    decreases |ts|
  {
    var init := ts[..|ts| - 1];
    var last := ts[|ts| - 1];
    if Key(last) != k {
      ValuesOfSeen(init, k);
    }
  }

  lemma KeysSeenSnoc(ts: seq<Triple>, i: nat)
    requires i < |ts|
    ensures var ks := KeysSeen(ts[..i]);
            KeysSeen(ts[..i + 1]) == if Key(ts[i]) in ks then ks else ks + [Key(ts[i])]
  {
    assert ts[..i + 1][..i] == ts[..i];
  }

  lemma ValuesOfSnoc(ts: seq<Triple>, i: nat, k: (Side, string))
    requires i < |ts|
    ensures ValuesOf(ts[..i + 1], k)
         == ValuesOf(ts[..i], k) + (if Key(ts[i]) == k then [Number(ts[i].value)] else [])
  {
    assert ts[..i + 1][..i] == ts[..i];
  }

  lemma ValuesOfSnocAll(ts: seq<Triple>, i: nat)
    requires i < |ts|
    ensures forall k :: ValuesOf(ts[..i + 1], k)
                     == ValuesOf(ts[..i], k) + (if Key(ts[i]) == k then [Number(ts[i].value)] else [])
  {
    forall k {
      ValuesOfSnoc(ts, i, k);
    }
  }

  /** The ten summary triples of one key: `field.replace(' ', '_') + '_' + stat`. */
  function StatTriples(k: (Side, string), r: Record): (out: seq<Triple>)
    ensures |out| == |r|
    ensures forall i :: 0 <= i < |r| ==>
              out[i] == Triple(k.0, ReplaceAll(k.1, " ", "_") + "_" + r[i].0, r[i].1)
  {
    seq(|r|, i requires 0 <= i < |r| => Triple(k.0, ReplaceAll(k.1, " ", "_") + "_" + r[i].0, r[i].1))
  }

  /** The summary of the keys `ks`, in that order. */
  function SummaryOf(ks: seq<(Side, string)>, ts: seq<Triple>): (out: seq<Triple>)
    ensures |out| == 10 * |ks|
    decreases |ks|
  {
    if ks == [] then []
    else
      var k := ks[|ks| - 1];
      SummaryOf(ks[..|ks| - 1], ts) + StatTriples(k, Stats(ValuesOf(ts, k)))
  }

  /** Entry `j` of the block of the `i`-th key is statistic `j` of that
      key's values. */
  lemma {:induction false} SummaryAt(ks: seq<(Side, string)>, ts: seq<Triple>, i: nat, j: nat)
    requires i < |ks| && j < 10
    ensures var k := ks[i];
            SummaryOf(ks, ts)[10 * i + j]
            == Triple(k.0, ReplaceAll(k.1, " ", "_") + "_" + StatNames[j], Stats(ValuesOf(ts, k))[j].1)
    decreases |ks|
  {
    var init := ks[..|ks| - 1];
    if i < |ks| - 1 {
      SummaryAt(init, ts, i, j);
      assert init[i] == ks[i];
    }
  }

  /** The summary reader's output: every distinct key once, in first-seen
      order (Python 2 leaves the order of a `dict` unspecified). */
  function SummaryFrom(lines: seq<string>, minPackets: int): seq<Triple> {
    var ts := ReadFrom(lines, minPackets);
    SummaryOf(KeysSeen(ts), ts)
  }

  /** `TcptraceSummaryReader().readfile(f)`: the values of every
      (side, field) collected, then ten statistics yielded per key. */
  method ReadSummary(lines: seq<string>, minPackets: int) returns (out: seq<Triple>)
    ensures out == SummaryFrom(lines, minPackets)
  {
    var ts := ReadFile(lines, minPackets);
    var keys, values := GroupByKey(ts);
    out := SummarizeGroups(keys, values, ts);
  }

  /** The first loop: `data[(side, field)].append(value)`. The keys are
      also listed in the order first seen. */
  method GroupByKey(ts: seq<Triple>) returns (keys: seq<(Side, string)>, values: map<(Side, string), seq<real>>)
    ensures keys == KeysSeen(ts)
    ensures forall k :: k in values <==> k in keys
    ensures forall k :: k in keys ==> values[k] == ValuesOf(ts, k)
  {
    keys := [];
    values := map[];
    var i := 0;
    while i < |ts|
      invariant 0 <= i <= |ts|
      invariant keys == KeysSeen(ts[..i])
      invariant forall k :: k in values <==> k in keys
      invariant forall k :: k in keys ==> values[k] == ValuesOf(ts[..i], k)
    {
      var t := ts[i];
      var key := (t.side, t.field);
      KeysSeenSnoc(ts, i);
      ValuesOfSnocAll(ts, i);
      if key !in values {
        ValuesOfUnseen(ts[..i], key);
        keys := keys + [key];
        values := values[key := []];
      }
      values := values[key := values[key] + [Number(t.value)]];
      i := i + 1;
    }
    assert ts[..i] == ts;
  }

  /** The second loop: for each key, its ten statistics under the names
      `field.replace(' ', '_') + '_' + stat`. */
  method SummarizeGroups(keys: seq<(Side, string)>, values: map<(Side, string), seq<real>>, ts: seq<Triple>)
    returns (out: seq<Triple>)
    requires forall k :: k in keys ==> k in values && values[k] == ValuesOf(ts, k)
    ensures out == SummaryOf(keys, ts)
  {
    out := [];
    var j := 0;
    while j < |keys|
      invariant 0 <= j <= |keys|
      invariant out == SummaryOf(keys[..j], ts)
    {
      SummaryOfSnoc(keys, j, ts);
      var key := keys[j];
      out := out + StatTriples(key, Stats(values[key]));
      j := j + 1;
    }
    assert keys[..j] == keys;
  }

  lemma SummaryOfSnoc(keys: seq<(Side, string)>, j: nat, ts: seq<Triple>)
    requires j < |keys|
    ensures SummaryOf(keys[..j + 1], ts)
         == SummaryOf(keys[..j], ts) + StatTriples(keys[j], Stats(ValuesOf(ts, keys[j])))
  {
    assert keys[..j + 1][..j] == keys[..j];
  }

  /** The summary has ten entries per distinct key, a key appears exactly
      when the reader yielded a triple under it, and each key's statistics
      are taken over at least one value. */
  lemma SummaryShape(lines: seq<string>, minPackets: int)
    ensures var ts := ReadFrom(lines, minPackets);
            var ks := KeysSeen(ts);
            && |SummaryFrom(lines, minPackets)| == 10 * |ks|
            && (forall t :: t in ts ==> Key(t) in ks)
            && (forall k :: k in ks ==> ValuesOf(ts, k) != [])
  {
    var ts := ReadFrom(lines, minPackets);
    var ks := KeysSeen(ts);
    KeysSeenExact(ts);
    forall t | t in ts ensures Key(t) in ks {
      var i :| 0 <= i < |ts| && ts[i] == t;
    }
    forall k | k in ks ensures ValuesOf(ts, k) != [] {
      ValuesOfSeen(ts, k);
    }
  }
}

/** Values shared by every part of the model: optional values, the scalar
    values Python hands to the readers, the store and the CSV writer, and the
    (side, field, value) triples every reader produces. */
module Base {

  datatype Option<+T> = None | Some(value: T)

  /** A Python scalar as the tools see it: a `str`, an `int`, a `float`, a
      `str` holding the `str()` rendering of a number (`Shown`: the number is
      kept, its characters are not modelled), `None`, or a value of any other
      type (which `columns` ignores). Floats are modelled as exact reals. */
  datatype Cell = Str(s: string) | Int(i: int) | Real(r: real) | Shown(n: real) | Null | Other

  /** The number behind a numeric cell (0 for any other). */
  function Number(c: Cell): real {
    match c
    case Int(i) => i as real
    case Real(r) => r
    case Shown(r) => r
    case _ => 0.0
  }

  /** The endpoint a measurement belongs to. */
  datatype Side = Client | Server

  function SideName(s: Side): (r: string)
    ensures r == "client" || r == "server"
    ensures r == "client" <==> s == Client
  {
    match s
    case Client => "client"
    case Server => "server"
  }

  /** What every reader yields: `(side, field, value)`. */
  datatype Triple = Triple(side: Side, field: string, value: Cell)

  /** What a reader's generator produced: the triples it yielded, and
      whether it then raised instead of running to the end of the file. */
  datatype Yield = Yield(out: seq<Triple>, raised: bool)

  /** The yield of a generator that first yielded `out`, then went on as `y`. */
  function After(out: seq<Triple>, y: Yield): Yield {
    Yield(out + y.out, y.raised)
  }

  lemma AfterAppend(out: seq<Triple>, t: Triple, y: Yield)
    ensures After(out, Yield([t] + y.out, y.raised)) == After(out + [t], y)
  {
    AppendAssoc(out, [t], y.out);
  }

  /** An ordered mapping of names to values, as `collections.OrderedDict`. */
  type Record = seq<(string, Cell)>

  function Keys(r: Record): (ks: seq<string>)
    ensures |ks| == |r|
    ensures forall i :: 0 <= i < |r| ==> ks[i] == r[i].0
  {
    if r == [] then [] else [r[0].0] + Keys(r[1..])
  }

  function Values(r: Record): (vs: seq<Cell>)
    ensures |vs| == |r|
    ensures forall i :: 0 <= i < |r| ==> vs[i] == r[i].1
  {
    if r == [] then [] else [r[0].1] + Values(r[1..])
  }

  /** `r[key]`, or None when the key is absent. */
  function Lookup(r: Record, key: string): (v: Option<Cell>)
    ensures v.Some? <==> key in Keys(r)
    ensures v.Some? ==> exists i :: 0 <= i < |r| && r[i] == (key, v.value)
  {
    if r == [] then None
    else if r[0].0 == key then Some(r[0].1)
    else Lookup(r[1..], key)
  }

  /** `del r[key]` on an ordered dict: every entry under that key goes. */
  function Delete(r: Record, key: string): (d: Record)
    ensures key !in Keys(d)
    ensures forall e :: e in d <==> e in r && e.0 != key
  {
    if r == [] then []
    else if r[0].0 == key then Delete(r[1..], key)
    else [r[0]] + Delete(r[1..], key)
  }

  /** `r.update(s)` on ordered dicts: keys of `s` replace the value of an
      existing key in place, new keys are appended in `s`'s order. */
  function Update(r: Record, s: Record): (u: Record)
    decreases |s|
  {
    if s == [] then r else Update(Put(r, s[0].0, s[0].1), s[1..])
  }

  /** `r[key] = v` on an ordered dict. */
  function Put(r: Record, key: string, v: Cell): (u: Record)
    ensures key in Keys(u)
    ensures Lookup(u, key) == Some(v)
  {
    if r == [] then [(key, v)]
    else if r[0].0 == key then [(key, v)] + r[1..]
    else [r[0]] + Put(r[1..], key, v)
  }

  /** Setting one key leaves the value of every other key as it was. */
  lemma {:induction false} PutOther(r: Record, key: string, v: Cell, other: string)
    requires other != key
    ensures Lookup(Put(r, key, v), other) == Lookup(r, other)
    decreases |r|
  {
    if r != [] && r[0].0 != key {
      PutOther(r[1..], key, v, other);
    }
  }

  /** An update leaves the keys it does not mention as they were. */
  lemma {:induction false} UpdateOther(r: Record, s: Record, other: string)
    requires other !in Keys(s)
    ensures Lookup(Update(r, s), other) == Lookup(r, other)
    decreases |s|
  {
    if s != [] {
      assert Keys(s)[0] == s[0].0;
      PutOther(r, s[0].0, s[0].1, other);
      assert forall i :: 0 <= i < |s| - 1 ==> Keys(s[1..])[i] == Keys(s)[i + 1];
      UpdateOther(Put(r, s[0].0, s[0].1), s[1..], other);
    }
  }

  /** After an update, a key holds the value of its last entry in the
      update. */
  lemma {:induction false} UpdateLast(r: Record, s: Record, i: nat)
    requires i < |s|
    requires forall j :: i < j < |s| ==> s[j].0 != s[i].0
    ensures Lookup(Update(r, s), s[i].0) == Some(s[i].1)
    decreases |s|
  {
    var r' := Put(r, s[0].0, s[0].1);
    if i == 0 {
      assert forall j :: 0 <= j < |s| - 1 ==> Keys(s[1..])[j] == s[j + 1].0;
      UpdateOther(r', s[1..], s[0].0);
    } else {
      UpdateLast(r', s[1..], i - 1);
    }
  }

  /** An update removes no key. */
  lemma {:induction false} UpdateKeeps(r: Record, s: Record, key: string)
    requires key in Keys(r)
    ensures key in Keys(Update(r, s))
    decreases |s|
  {
    if s != [] {
      var r' := Put(r, s[0].0, s[0].1);
      if s[0].0 != key {
        PutOther(r, s[0].0, s[0].1, key);
      }
      UpdateKeeps(r', s[1..], key);
    }
  }

  /** Where block `i` starts in blocks of `w` elements each. */
  function Offset(i: nat, w: nat): nat {
    if i == 0 then 0 else Offset(i - 1, w) + w
  }

  lemma {:induction false} OffsetIsProduct(i: nat, w: nat)
    ensures Offset(i, w) == i * w
  {
    if i > 0 {
      OffsetIsProduct(i - 1, w);
      assert i * w == (i - 1) * w + w;
    }
  }

  lemma {:induction false} OffsetMono(n: nat, w: nat, i: nat, k: nat)
    requires i < n && k < w
    ensures Offset(i, w) + k < Offset(n, w)
    decreases i
  {
    if i > 0 {
      OffsetMono(n - 1, w, i - 1, k);
    }
  }

  /** The blocks of `bs`, one after the other. */
  function Concat<T>(bs: seq<seq<T>>): seq<T>
    decreases |bs|
  {
    if bs == [] then [] else bs[0] + Concat(bs[1..])
  }

  /** Every block of `bs` has `w` elements. */
  ghost predicate Uniform<T>(bs: seq<seq<T>>, w: nat) {
    forall j :: 0 <= j < |bs| ==> |bs[j]| == w
  }

  lemma {:induction false} ConcatLength<T>(bs: seq<seq<T>>, w: nat)
    requires Uniform(bs, w)
    ensures |Concat(bs)| == Offset(|bs|, w)
    decreases |bs|
  {
    if bs != [] {
      ConcatLength(bs[1..], w);
    }
  }

  /** Element `k` of block `i` sits at `Offset(i, w) + k`. */
  lemma {:induction false} ConcatAt<T>(bs: seq<seq<T>>, w: nat, i: nat, k: nat)
    requires Uniform(bs, w)
    requires i < |bs| && k < w
    ensures Offset(i, w) + k < |Concat(bs)|
    ensures Concat(bs)[Offset(i, w) + k] == bs[i][k]
    decreases i
  {
    ConcatLength(bs, w);
    OffsetMono(|bs|, w, i, k);
    if i > 0 {
      ConcatAt(bs[1..], w, i - 1, k);
    }
  }

  /** Concatenation regroups; stated once so loops need not re-prove it. */
  lemma AppendAssoc<T>(a: seq<T>, b: seq<T>, c: seq<T>)
    ensures a + (b + c) == (a + b) + c
  {
  }

  /** A non-empty sequence is its head before its tail. */
  lemma HeadTail<T>(s: seq<T>)
    requires s != []
    ensures [s[0]] + s[1..] == s
  {
  }
}

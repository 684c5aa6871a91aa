/** The line matchers of `TcptraceReader` in tools/summarize_test_results.py:
    the "total packets" regular expression and the two two-column field
    regular expressions, modelled as the deterministic token matchers they
    amount to on a stripped line, with the value conversion. */
module TcptraceLines {
  import opened Base
  import opened Text

  /** The four captures of a matched two-column line. */
  datatype FieldLine = FieldLine(clientField: string, clientValue: string,
                                 serverField: string, serverValue: string)

  /** `^total packets:\s+(\d+)$`: the packet count of a stripped line. */
  function TotalPackets(line: string): (r: Option<nat>)
    ensures r.Some? ==> StartsWith(line, "total packets:")
  {
    if !StartsWith(line, "total packets:") then None
    else
      var rest := line[14..];
      var w := LeadingSpaces(rest);
      var digits := rest[w..];
      if w == 0 || !IsDigits(digits) then None else Some(DigitsValue(digits))
  }

  /** `total packets:`, whitespace and digits read back as the number the
      digits write. */
  lemma TotalPacketsRead(ws: string, d: string)
    requires ws != [] && (forall j :: 0 <= j < |ws| ==> IsSpace(ws[j])) && IsDigits(d)
    ensures TotalPackets("total packets:" + ws + d) == Some(DigitsValue(d))
  {
    var line := "total packets:" + ws + d;
    assert line[..14] == "total packets:";
    assert line[14..] == ws + d;
    LeadingSpacesOf(ws, d);
    assert (ws + d)[|ws|..] == d;
  }

  /** A total-packets line matches neither field pattern: nothing follows
      the count. */
  lemma PacketsLineUnmatched(ws: string, d: string)
    requires ws != [] && (forall j :: 0 <= j < |ws| ==> IsSpace(ws[j])) && IsDigits(d)
    ensures MatchField("total packets:" + ws + d) == None
  {
    var line := "total packets:" + ws + d;
    assert IndexOf(line, ':') == Some(13) && line[14..] == ws + d by {
      assert line == "total packets" + [':'] + (ws + d);
      IndexOfAfter("total packets", ':', ws + d);
    }
    assert LeadingSpaces(ws + d) == |ws| && (ws + d)[|ws|..] == d by {
      LeadingSpacesOf(ws, d);
    }
    assert TokenLength(d) == |d| by {
      assert NoSpace(d);
      TokenLengthOf(d, []);
      assert d + [] == d;
    }
    NothingAfterClient(line, 13, d);
  }

  /** A line that ends with the client value matches neither pattern. */
  lemma NothingAfterClient(line: string, i: nat, r1: string)
    requires IndexOf(line, ':') == Some(i)
    requires r1 == line[i + 1..][LeadingSpaces(line[i + 1..])..]
    requires TokenLength(r1) == |r1|
    ensures MatchNoUnits(line) == None && MatchUnits(line) == None
  {
    assert r1[|r1|..] == [];
  }

  /** `^([^:]+):\s+(\S+)\s+([^:]+):\s+(\S+)$`. The client field runs up to
      the first colon and the client value is the whole next token. The
      server field is the text between the whitespace after that token and
      the next colon; when that text is empty the regular expression backs
      off one whitespace character, which then is the server field. The
      server value is the one token after that colon. */
  function MatchNoUnits(line: string): (r: Option<FieldLine>)
    ensures r.Some? ==> r.value.clientField != [] && ':' !in r.value.clientField
    ensures r.Some? ==> r.value.serverField != [] && ':' !in r.value.serverField
    ensures r.Some? ==> r.value.serverValue != [] && NoSpace(r.value.serverValue)
  {
    match IndexOf(line, ':')
    case None => None
    case Some(i) =>
      var r := line[i + 1..];
      var w := LeadingSpaces(r);
      var r1 := r[w..];
      var t := TokenLength(r1);
      if i == 0 || w == 0 || t == 0 then None
      else
        match ServerNoUnits(r1[t..])
        case None => None
        case Some((sf, sv)) => Some(FieldLine(line[..i], r1[..t], sf, sv))
  }

  /** The server half of `field_no_units_regex`, after the client value:
      whitespace, the server field and its colon, whitespace, the value. */
  function ServerNoUnits(r2: string): (r: Option<(string, string)>)
    ensures r.Some? ==> r.value.0 != [] && ':' !in r.value.0
    ensures r.Some? ==> r.value.1 != [] && NoSpace(r.value.1)
  {
    var w2 := LeadingSpaces(r2);
    var r3 := r2[w2..];
    if w2 == 0 then None
    else
      match IndexOf(r3, ':')
      case None => None
      case Some(j) =>
        var tail := r3[j + 1..];
        var w3 := LeadingSpaces(tail);
        var sv := tail[w3..];
        if (j == 0 && w2 < 2) || w3 == 0 || sv == [] || !NoSpace(sv) then None
        else
          var sf := if j > 0 then r3[..j] else r2[w2 - 1..w2];
          assert j == 0 ==> IsSpace(sf[0]);
          Some((sf, sv))
  }

  /** `^([^:]+):\s+(\S+)\s+(\S+)\s+([^:]*):\s+(\S+)\s+(\S+)$`: as above with a
      unit token after each value; the server field may be empty. */
  function MatchUnits(line: string): (r: Option<FieldLine>)
    ensures r.Some? ==> r.value.clientField != [] && ':' !in r.value.clientField
    ensures r.Some? ==> ':' !in r.value.serverField
  {
    match ClientPart(line)
    case None => None
    case Some((cf, cv, r2)) =>
      match UnitField(r2)
      case None => None
      case Some((sf, tail)) =>
        match ServerValueUnit(tail)
        case None => None
        case Some(sv) => Some(FieldLine(cf, cv, sf, sv))
  }

  /** `^([^:]+):\s+(\S+)`: the client field, its value, and the rest of the
      line. */
  function ClientPart(line: string): Option<(string, string, string)> {
    match IndexOf(line, ':')
    case None => None
    case Some(i) =>
      var r := line[i + 1..];
      var w := LeadingSpaces(r);
      var r1 := r[w..];
      var t := TokenLength(r1);
      if i == 0 || w == 0 || t == 0 then None
      else Some((line[..i], r1[..t], r1[t..]))
  }

  /** `\s+(\S+)\s+([^:]*):` after the client value: the client unit, which
      is skipped, the server field, and the text after its colon. */
  function UnitField(r2: string): Option<(string, string)> {
    var w2 := LeadingSpaces(r2);
    var r3 := r2[w2..];
    var u := TokenLength(r3);
    var r4 := r3[u..];
    var w4 := LeadingSpaces(r4);
    var r5 := r4[w4..];
    var colon := IndexOf(r5, ':');
    if w2 == 0 || u == 0 || w4 == 0 || colon.None? then None
    else Some((r5[..colon.value], r5[colon.value + 1..]))
  }

  /** After the server field's colon: whitespace, the value, whitespace
      and a unit token that ends the line. */
  function ServerValueUnit(tail: string): Option<string>
  {
    var w5 := LeadingSpaces(tail);
    var t6 := tail[w5..];
    var v := TokenLength(t6);
    var rest := t6[v..];
    var w6 := LeadingSpaces(rest);
    var su := rest[w6..];
    if w5 == 0 || v == 0 || w6 == 0 || su == [] || TokenLength(su) < |su| then None
    else Some(t6[..v])
  }

  /** The value conversion: `int()`, else `float()`, else 0. */
  function Coerce(v: string): (c: Cell)
    ensures c.Int? || c.Real?
  {
    match PyInt(v)
    case Some(n) => Int(n)
    case None =>
      match PyFloat(v)
      case Some(x) => Real(x)
      case None => Int(0)
  }

  /** A value written with an exponent is not an `int()` but is a
      `float()`: `1e3` becomes a thousand. */
  lemma CoerceExponent()
    ensures Coerce("1e3") == Real(1000.0)
  {
    StripUnchanged("1e3");
    assert Sign("1e3") == (false, "1e3");
    assert !IsDigit("1e3"[1]);
    ExponentExample();
  }

  /** `field_no_units_regex`, and `field_regex` when that does not match. */
  function MatchField(line: string): (r: Option<FieldLine>)
    ensures r.Some? ==> r.value.clientField != [] && ':' !in r.value.clientField
  {
    var m := MatchNoUnits(line);
    if m.Some? then m else MatchUnits(line)
  }


  /** What the three regular expressions make of one line, once stripped. */
  datatype Parsed = Parsed(packets: Option<nat>, fields: Option<FieldLine>)

  function Parse(line: string): Parsed {
    var l := Strip(line);
    Parsed(TotalPackets(l), MatchField(l))
  }

  /** The two-column line `tcptrace` prints, `cf: cv sf: sv`. */
  function Render(f: FieldLine): string {
    f.clientField + (": " + (f.clientValue + (" " + (f.serverField + (": " + f.serverValue)))))
  }

  /** Fields that the two-column form can carry without ambiguity. */
  predicate Renderable(f: FieldLine) {
    && f.clientField != [] && ':' !in f.clientField && !IsSpace(f.clientField[0])
    && f.clientValue != [] && NoSpace(f.clientValue)
    && f.serverField != [] && ':' !in f.serverField && !IsSpace(f.serverField[0])
    && f.serverValue != [] && NoSpace(f.serverValue)
  }

  /** The matcher reads a rendered line back into its four fields. */
  lemma MatchRender(f: FieldLine)
    requires Renderable(f)
    ensures MatchNoUnits(Render(f)) == Some(f)
  {
    var cf, cv, sf, sv := f.clientField, f.clientValue, f.serverField, f.serverValue;
    var second := sf + (": " + sv);
    var r1 := cv + (" " + second);
    ColonAfter(sf, sv);
    SpaceThen(sv);
    ColonAfter(cf, r1);
    SpaceThen(r1);
    TokenThen(cv, second);
    SpaceThen(second);
    MatchNoUnitsAt(Render(f), |cf|, " " + r1, r1, " " + second, second, |sf|, " " + sv);
  }

  /** `MatchNoUnits` on a line whose pieces are known. */
  lemma MatchNoUnitsAt(line: string, i: nat, r: string, r1: string, r2: string, r3: string,
                       j: nat, tail: string)
    requires IndexOf(line, ':') == Some(i) && i > 0 && r == line[i + 1..]
    requires LeadingSpaces(r) == 1 && r1 == r[1..]
    requires 0 < TokenLength(r1) && r2 == r1[TokenLength(r1)..]
    requires LeadingSpaces(r2) == 1 && r3 == r2[1..]
    requires IndexOf(r3, ':') == Some(j) && j > 0 && tail == r3[j + 1..]
    requires LeadingSpaces(tail) == 1 && tail[1..] != [] && NoSpace(tail[1..])
    ensures MatchNoUnits(line) == Some(FieldLine(line[..i], r1[..TokenLength(r1)], r3[..j], tail[1..]))
  {
    ServerNoUnitsAt(r2, r3, j, tail);
  }

  lemma ServerNoUnitsAt(r2: string, r3: string, j: nat, tail: string)
    requires LeadingSpaces(r2) == 1 && r3 == r2[1..]
    requires IndexOf(r3, ':') == Some(j) && j > 0 && tail == r3[j + 1..]
    requires LeadingSpaces(tail) == 1 && tail[1..] != [] && NoSpace(tail[1..])
    ensures ServerNoUnits(r2) == Some((r3[..j], tail[1..]))
  {
  }

  /** A rendered line is never read as a total-packets line. */
  lemma RenderedNotTotal(f: FieldLine)
    requires Renderable(f)
    ensures TotalPackets(Render(f)) == None
  {
    FieldLineNotTotal(f.clientField, f.clientValue, f.serverField + (": " + f.serverValue));
  }

  /** A line `cf: cv <rest>`, with `cv` a token, is not a total-packets
      line: after the colon comes one space and then text holding a space. */
  lemma FieldLineNotTotal(cf: string, cv: string, rest: string)
    requires ':' !in cf && cv != [] && NoSpace(cv)
    ensures TotalPackets(cf + (": " + (cv + (" " + rest)))) == None
  {
    var r1 := cv + (" " + rest);
    var line := cf + (": " + r1);
    ColonAfter(cf, r1);
    if StartsWith(line, "total packets:") {
      // the first colon is the one "total packets:" ends with
      var words := "total packets";
      assert line[..14] == words + [':'];
      assert line == line[..14] + line[14..];
      IndexOfAfter(words, ':', line[14..]);
      assert |cf| == 13;
      SpaceThen(r1);
      TokenThen(cv, rest);
      assert r1[|cv|] == ' ';
      assert line[14..] == " " + r1;
      assert !IsDigits(r1);
    }
  }

  /** The unit-bearing line `tcptrace` prints, `cf: cv cu sf: sv su`. */
  function RenderUnits(f: FieldLine, cu: string, su: string): string {
    f.clientField + (": " + (f.clientValue + (" " + (cu + (" " + (f.serverField
      + (": " + (f.serverValue + (" " + su)))))))))
  }

  /** Fields and units that the unit-bearing form can carry without
      ambiguity; `field_regex` lets the server field be empty. */
  predicate UnitsRenderable(f: FieldLine, cu: string, su: string) {
    && f.clientField != [] && ':' !in f.clientField && !IsSpace(f.clientField[0])
    && f.clientValue != [] && NoSpace(f.clientValue)
    && cu != [] && NoSpace(cu) && ':' !in cu
    && ':' !in f.serverField && (f.serverField == [] || !IsSpace(f.serverField[0]))
    && f.serverValue != [] && NoSpace(f.serverValue)
    && su != [] && NoSpace(su)
  }

  /** A rendered unit-bearing line is refused by the no-units pattern and
      read back by the units pattern into its four fields, units dropped. */
  lemma MatchRenderUnits(f: FieldLine, cu: string, su: string)
    requires UnitsRenderable(f, cu, su)
    ensures MatchNoUnits(RenderUnits(f, cu, su)) == None
    ensures MatchUnits(RenderUnits(f, cu, su)) == Some(f)
  {
    var cf, cv, sf, sv := f.clientField, f.clientValue, f.serverField, f.serverValue;
    var x4 := sv + (" " + su);
    assert x4[0] == sv[0] && x4[|sv|] == ' ';
    NoUnitsRefusesUnitLine(cf, cv, cu, sf, x4);
    UnitsReadUnitLine(cf, cv, cu, sf, sv, su);
  }

  /** The no-units pattern refuses `cf: cv cu sf: x4` when `x4` holds a
      space: its server value would be all of `x4`. */
  lemma NoUnitsRefusesUnitLine(cf: string, cv: string, cu: string, sf: string, x4: string)
    requires cf != [] && ':' !in cf && cv != [] && NoSpace(cv)
    requires cu != [] && !IsSpace(cu[0]) && ':' !in cu && ':' !in sf
    requires x4 != [] && !IsSpace(x4[0]) && !NoSpace(x4)
    ensures MatchNoUnits(cf + (": " + (cv + (" " + (cu + (" " + (sf + (": " + x4)))))))) == None
  {
    NoUnitsRefused(cu, sf, x4);
    MatchNoUnitsClient(cf, cv, cu + (" " + (sf + (": " + x4))));
  }

  /** The units pattern reads `cf: cv cu sf: sv su` as its four fields. */
  lemma UnitsReadUnitLine(cf: string, cv: string, cu: string, sf: string, sv: string, su: string)
    requires cf != [] && ':' !in cf && cv != [] && NoSpace(cv)
    requires cu != [] && NoSpace(cu)
    requires ':' !in sf && (sf == [] || !IsSpace(sf[0]))
    requires sv != [] && NoSpace(sv) && su != [] && NoSpace(su)
    ensures MatchUnits(cf + (": " + (cv + (" " + (cu + (" " + (sf + (": " + (sv + (" " + su)))))))))) == Some(FieldLine(cf, cv, sf, sv))
  {
    var x4 := sv + (" " + su);
    var x2 := cu + (" " + (sf + (": " + x4)));
    ClientPartRead(cf, cv, x2);
    UnitFieldRead(cu, sf, x4);
    ValueUnitRead(sv, su);
    MatchUnitsOf(cf + (": " + (cv + (" " + x2))), cf, cv, " " + x2, sf, " " + x4, sv);
  }

  /** The units pattern is its three parts in turn. */
  lemma MatchUnitsOf(line: string, cf: string, cv: string, r2: string, sf: string, tail: string, sv: string)
    requires ClientPart(line) == Some((cf, cv, r2))
    requires UnitField(r2) == Some((sf, tail))
    requires ServerValueUnit(tail) == Some(sv)
    ensures MatchUnits(line) == Some(FieldLine(cf, cv, sf, sv))
  {
  }

  /** `cf: cv <x2>` splits into the client field, the client value and
      ` <x2>`. */
  lemma ClientPartRead(cf: string, cv: string, x2: string)
    requires cf != [] && ':' !in cf && cv != [] && NoSpace(cv)
    ensures ClientPart(cf + (": " + (cv + (" " + x2)))) == Some((cf, cv, " " + x2))
  {
    ClientHalf(cf, cv, x2);
    ClientPartAt(cf + (": " + (cv + (" " + x2))), |cf|, cv + (" " + x2), |cv|);
  }

  lemma ClientPartAt(line: string, i: nat, r1: string, t: nat)
    requires IndexOf(line, ':') == Some(i) && i > 0
    requires LeadingSpaces(line[i + 1..]) == 1 && r1 == line[i + 1..][1..]
    requires TokenLength(r1) == t > 0
    ensures ClientPart(line) == Some((line[..i], r1[..t], r1[t..]))
  {
  }

  /** ` cu sf: <x4>` reads as the server field and ` <x4>`. */
  lemma UnitFieldRead(cu: string, sf: string, x4: string)
    requires cu != [] && NoSpace(cu)
    requires ':' !in sf && (sf == [] || !IsSpace(sf[0]))
    ensures UnitField(" " + (cu + (" " + (sf + (": " + x4))))) == Some((sf, " " + x4))
  {
    var x3 := sf + (": " + x4);
    var x2 := cu + (" " + x3);
    assert LeadingSpaces(" " + x2) == 1 && (" " + x2)[1..] == x2 by {
      assert x2[0] == cu[0];
      SpaceThen(x2);
    }
    TokenThen(cu, x3);
    assert LeadingSpaces(" " + x3) == 1 && (" " + x3)[1..] == x3 by {
      assert x3 != [] && !IsSpace(x3[0]);
      SpaceThen(x3);
    }
    ColonAfter(sf, x4);
    UnitFieldAt(" " + x2, x2, |cu|, x3, |sf|);
  }

  lemma UnitFieldAt(r2: string, r3: string, u: nat, r5: string, j: nat)
    requires LeadingSpaces(r2) == 1 && r3 == r2[1..]
    requires TokenLength(r3) == u > 0
    requires LeadingSpaces(r3[u..]) == 1 && r5 == r3[u..][1..]
    requires IndexOf(r5, ':') == Some(j)
    ensures UnitField(r2) == Some((r5[..j], r5[j + 1..]))
  {
  }

  /** The no-units pattern on `cf: cv <x2>` is refused by its server half. */
  lemma MatchNoUnitsClient(cf: string, cv: string, x2: string)
    requires cf != [] && ':' !in cf && cv != [] && NoSpace(cv)
    requires ServerNoUnits(" " + x2) == None
    ensures MatchNoUnits(cf + (": " + (cv + (" " + x2)))) == None
  {
    ClientHalf(cf, cv, x2);
    MatchNoUnitsRefusedAt(cf + (": " + (cv + (" " + x2))), |cf|, cv + (" " + x2), " " + x2);
  }

  /** The client half of a line `cf: cv <rest>`: the first colon ends the
      field, one space follows, then the value token and a space. */
  lemma ClientHalf(cf: string, cv: string, x2: string)
    requires ':' !in cf && cv != [] && NoSpace(cv)
    ensures var r1 := cv + (" " + x2); var line := cf + (": " + r1);
            && IndexOf(line, ':') == Some(|cf|) && line[..|cf|] == cf
            && LeadingSpaces(line[|cf| + 1..]) == 1 && line[|cf| + 1..][1..] == r1
            && TokenLength(r1) == |cv| && r1[..|cv|] == cv && r1[|cv|..] == " " + x2
  {
    var r1 := cv + (" " + x2);
    ColonAfter(cf, r1);
    SpaceThen(r1);
    TokenThen(cv, x2);
  }

  /** After the server field's colon, ` sv su` reads as the value `sv`. */
  lemma ValueUnitRead(sv: string, su: string)
    requires sv != [] && NoSpace(sv) && su != [] && NoSpace(su)
    ensures ServerValueUnit(" " + (sv + (" " + su))) == Some(sv)
  {
    var x4 := sv + (" " + su);
    SpaceThen(x4);
    TokenThen(sv, su);
    SpaceThen(su);
    ServerValueUnitAt(" " + x4, x4, |sv|, su);
  }

  /** The no-units pattern on a line whose server half it refuses. */
  lemma MatchNoUnitsRefusedAt(line: string, i: nat, r1: string, r2: string)
    requires IndexOf(line, ':') == Some(i) && i > 0
    requires LeadingSpaces(line[i + 1..]) == 1 && r1 == line[i + 1..][1..]
    requires 0 < TokenLength(r1) && r2 == r1[TokenLength(r1)..]
    requires ServerNoUnits(r2) == None
    ensures MatchNoUnits(line) == None
  {
  }

  /** The server value and its unit, when their pieces are known. */
  lemma ServerValueUnitAt(tail: string, t6: string, v: nat, su: string)
    requires LeadingSpaces(tail) == 1 && t6 == tail[1..]
    requires TokenLength(t6) == v > 0
    requires LeadingSpaces(t6[v..]) == 1 && su == t6[v..][1..] && su != [] && NoSpace(su)
    ensures ServerValueUnit(tail) == Some(t6[..v])
  {
    assert TokenLength(su) == |su| by {
      TokenLengthOf(su, []);
      assert su + [] == su;
    }
  }

  /** The server half of the no-units pattern refuses `cu sf: sv su`: the
      server value it would take, `sv su`, holds a space. */
  lemma NoUnitsRefused(cu: string, sf: string, x4: string)
    requires cu != [] && !IsSpace(cu[0]) && ':' !in cu && ':' !in sf
    requires x4 != [] && !IsSpace(x4[0]) && !NoSpace(x4)
    ensures ServerNoUnits(" " + (cu + (" " + (sf + (": " + x4))))) == None
  {
    var x2 := cu + (" " + (sf + (": " + x4)));
    UnitFieldColon(cu, sf, x4);
    assert LeadingSpaces(" " + x2) == 1 && (" " + x2)[1..] == x2 by {
      assert x2[0] == cu[0];
      SpaceThen(x2);
    }
    assert LeadingSpaces(" " + x4) == 1 && !NoSpace((" " + x4)[1..]) by {
      SpaceThen(x4);
    }
    ServerNoUnitsRefusedAt(" " + x2, x2, |cu| + 1 + |sf|, " " + x4);
  }

  /** In `cu sf: x4`, with no colon in `cu` or `sf`, the first colon is
      the one after `sf`. */
  lemma UnitFieldColon(cu: string, sf: string, x4: string)
    requires ':' !in cu && ':' !in sf
    ensures var x2 := cu + (" " + (sf + (": " + x4)));
            IndexOf(x2, ':') == Some(|cu| + 1 + |sf|) && x2[|cu| + 1 + |sf| + 1..] == " " + x4
  {
    var a := cu + [' '] + sf;
    assert cu + (" " + (sf + (": " + x4))) == a + (": " + x4);
    ColonAfter(a, x4);
  }

  lemma ServerNoUnitsRefusedAt(r2: string, r3: string, j: nat, tail: string)
    requires LeadingSpaces(r2) == 1 && r3 == r2[1..]
    requires IndexOf(r3, ':') == Some(j) && j > 0 && tail == r3[j + 1..]
    requires LeadingSpaces(tail) == 1 && !NoSpace(tail[1..])
    ensures ServerNoUnits(r2) == None
  {
  }
}

/** `get_file_reader` in tools/summarize_test_results.py: which reader
    handles a result file, chosen from its name by the first of a fixed list
    of patterns that matches, together with the side its values belong to. */
module Dispatch {
  import opened Base
  import opened Text
  import Owamp
  import ABench
  import TcptraceSummary
  import Tcptrace
  import VmStat
  import Interrupts
  import Sysdig

  /** The readers, with the direction each is constructed with. */
  datatype Reader =
    | OwampReader(direction: Option<Side>)
    | PowstreamReader(side: Side)
    | TcptraceSummaryReader
    | ABenchReader
    | InterruptsReader(side: Side)
    | SysdigFreqReader(side: Side)
    | VmStatsReader(side: Side)

  /** "server" when the name says so, else "client". */
  function ServerIfNamed(name: string): Side {
    if Contains(name, "server") then Server else Client
  }

  /** "client" when the name says so, else "server". */
  function ClientIfNamed(name: string): Side {
    if Contains(name, "client") then Client else Server
  }

  /** `get_file_reader(fname)`; None is the function's bare `return`. */
  function GetFileReader(name: string): Option<Reader> {
    if Contains(name, "owping.out") then Some(OwampReader(None))
    else if EndsWith(name, "owp") then Some(PowstreamReader(ServerIfNamed(name)))
    else if Contains(name, "server.tcptrace") then Some(TcptraceSummaryReader)
    else if Contains(name, "ab.out") then Some(ABenchReader)
    else if Contains(name, "interrupts") then Some(InterruptsReader(ServerIfNamed(name)))
    else if Contains(name, "topscalls-") then Some(SysdigFreqReader(ClientIfNamed(name)))
    else if Contains(name, "vmstat.log") then Some(VmStatsReader(ClientIfNamed(name)))
    else None
  }

  /** The patterns in the order they are tried: rule `k` picks the reader
      whose `Rule` is `k`. */
  const RuleCount: nat := 7

  predicate RuleMatches(k: nat, name: string) {
    if k == 0 then Contains(name, "owping.out")
    else if k == 1 then EndsWith(name, "owp")
    else if k == 2 then Contains(name, "server.tcptrace")
    else if k == 3 then Contains(name, "ab.out")
    else if k == 4 then Contains(name, "interrupts")
    else if k == 5 then Contains(name, "topscalls-")
    else if k == 6 then Contains(name, "vmstat.log")
    else false
  }

  function Rule(r: Reader): (k: nat)
    ensures k < RuleCount
  {
    match r
    case OwampReader(_) => 0
    case PowstreamReader(_) => 1
    case TcptraceSummaryReader => 2
    case ABenchReader => 3
    case InterruptsReader(_) => 4
    case SysdigFreqReader(_) => 5
    case VmStatsReader(_) => 6
  }

  // ------------------------------------------------------------- properties

  /** The reader chosen is the one of the first rule that matches, and there
      is none exactly when no rule matches. */
  lemma FirstMatchingRule(name: string)
    ensures var r := GetFileReader(name);
            && (r.None? <==> forall k :: 0 <= k < RuleCount ==> !RuleMatches(k, name))
            && (r.Some? ==> RuleMatches(Rule(r.value), name)
                            && forall k :: 0 <= k < Rule(r.value) ==> !RuleMatches(k, name))
  {
    var r := GetFileReader(name);
    if r.None? {
      forall k | 0 <= k < RuleCount ensures !RuleMatches(k, name) {
      }
    } else {
      assert RuleMatches(Rule(r.value), name);
      forall k | 0 <= k < Rule(r.value) ensures !RuleMatches(k, name) {
      }
    }
  }

  /** Powstream and interrupts files are the server's when their name says
      "server"; sysdig and vmstat files are the client's when it says
      "client"; owping output is read without a fixed direction. */
  lemma ChosenSide(name: string)
    ensures var r := GetFileReader(name);
            && (r.Some? && (r.value.PowstreamReader? || r.value.InterruptsReader?) ==>
                  (r.value.side == Server <==> Contains(name, "server")))
            && (r.Some? && (r.value.SysdigFreqReader? || r.value.VmStatsReader?) ==>
                  (r.value.side == Client <==> Contains(name, "client")))
            && (r.Some? && r.value.OwampReader? ==> r.value.direction == None)
  {
  }

  /** Every name ending in `ab.out` goes to the Apache Bench reader unless an
      earlier pattern claims it first. */
  lemma ABenchFile(prefix: string)
    requires !Contains(prefix + "ab.out", "owping.out")
    requires !Contains(prefix + "ab.out", "server.tcptrace")
    ensures GetFileReader(prefix + "ab.out") == Some(ABenchReader)
  {
    ContainsInfix(prefix, "ab.out", []);
    assert prefix + "ab.out" + [] == prefix + "ab.out";
    var name := prefix + "ab.out";
    assert name[|name| - 3..] == "out";
  }

  /** What `reader.readfile(f)` yields for the file named `name` with lines
      `lines`. `owstats`, which the powstream reader runs, is outside the
      model: what it yields is given as `external`. */
  function ReadWith(r: Reader, name: string, lines: seq<string>, external: Yield): Yield {
    match r
    case OwampReader(d) => Yield(Owamp.ReadFrom(lines, d), false)
    case PowstreamReader(_) => external
    case TcptraceSummaryReader => Yield(TcptraceSummary.SummaryFrom(lines, Tcptrace.MinPackets), false)
    case ABenchReader => Yield(ABench.Yields(lines), false)
    case InterruptsReader(s) => Interrupts.ReadFrom(lines, s)
    case SysdigFreqReader(s) => Sysdig.ReadFrom(name, lines, s)
    case VmStatsReader(s) => Yield(VmStat.ReadFrom(lines, s), false)
  }
}

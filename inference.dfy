/** `guess_test_parameters` in tools/utils.py: the parameters of a test,
    read off the names of the directories a result file sits in. The walk
    starts at the file itself and goes up one `dirname` at a time. A
    directory named `que...` names the instance; a directory whose name
    splits on '-' into at least eight words (five for `physical-...`) is
    the run directory of `run.bash`, whose words are the parameters and
    whose optional trailing words are extras (`instr`, `pinning`, `gre`,
    `colocated`, `stresscpuN`, `stressioN`, `stressmemN`, `noht`); the
    directory just below it is the iteration number. */
module Inference {
  import opened Base
  import opened Text

  // ----------------------------------------------------------------- extras

  /** What one word of a run directory's name switches on. */
  datatype Extra =
    | Instr | Pinning | Gre | Colocated
    | StressCpu(n: Option<int>) | StressIo(n: Option<int>) | StressMem(n: Option<int>)
    | NoHt | Plain

  /** The `if`/`elif` chain of the extras loop for one word; a stress word
      carries `int()` of what follows its prefix (None: ValueError). */
  function ExtraOf(v: string): Extra {
    if v == "instr" then Instr
    else if v == "pinning" then Pinning
    else if v == "gre" then Gre
    else if v == "colocated" then Colocated
    else if StartsWith(v, "stresscpu") then StressCpu(PyInt(v[9..]))
    else if StartsWith(v, "stressio") then StressIo(PyInt(v[8..]))
    else if StartsWith(v, "stressmem") then StressMem(PyInt(v[9..]))
    else if v == "noht" then NoHt
    else Plain
  }

  function ExtrasOf(parts: seq<string>): (es: seq<Extra>)
    ensures |es| == |parts|
    ensures forall j :: 0 <= j < |parts| ==> es[j] == ExtraOf(parts[j])
  {
    seq(|parts|, j requires 0 <= j < |parts| => ExtraOf(parts[j]))
  }

  /** A stress word whose count is not an integer: `int()` raises. */
  predicate Raising(e: Extra) {
    (e.StressCpu? || e.StressIo? || e.StressMem?) && e.n.None?
  }

  /** The variables the extras set; `true` is "enabled". */
  datatype Flags = Flags(
    instrumentation: bool, pinning: bool, gre: bool, colocated: bool,
    stressCpu: int, stressIo: int, stressMem: int, hyperthreading: bool)

  /** The values assumed before any directory is read. */
  const Defaults := Flags(false, false, false, false, 0, 0, 0, true)

  /** One word's effect on the flags; None where `int()` raises. */
  function ApplyExtra(f: Flags, e: Extra): (g: Option<Flags>)
    ensures g.None? <==> Raising(e)
  {
    match e
    case Instr => Some(f.(instrumentation := true))
    case Pinning => Some(f.(pinning := true))
    case Gre => Some(f.(gre := true))
    case Colocated => Some(f.(colocated := true))
    case StressCpu(n) => if n.None? then None else Some(f.(stressCpu := n.value))
    case StressIo(n) => if n.None? then None else Some(f.(stressIo := n.value))
    case StressMem(n) => if n.None? then None else Some(f.(stressMem := n.value))
    case NoHt => Some(f.(hyperthreading := false))
    case Plain => Some(f)
  }

  /** The `for v in parts` loop: the flags as the loop leaves them, and
      whether it ran to the end (false: it raised, keeping what the words
      before the raising one had set). */
  function ApplyExtras(f: Flags, es: seq<Extra>): (Flags, bool)
    decreases |es|
  {
    if es == [] then (f, true)
    else
      match ApplyExtra(f, es[0])
      case None => (f, false)
      case Some(g) => ApplyExtras(g, es[1..])
  }

  /** The extras loop over the words of a directory name. */
  method ScanExtras(parts: seq<string>, f: Flags) returns (g: Flags, ok: bool)
    ensures (g, ok) == ApplyExtras(f, ExtrasOf(parts))
  {
    ghost var es := ExtrasOf(parts);
    g := f;
    var i := 0;
    assert es[0..] == es;
    while i < |parts|
      invariant 0 <= i <= |parts|
      invariant ApplyExtras(f, es) == ApplyExtras(g, es[i..])
    {
      assert es[i..][1..] == es[i + 1..];
      var e := ExtraOf(parts[i]);
      assert e == es[i];
      match e {
        case Instr => g := g.(instrumentation := true);
        case Pinning => g := g.(pinning := true);
        case Gre => g := g.(gre := true);
        case Colocated => g := g.(colocated := true);
        case StressCpu(n) =>
          if n.None? {
            return g, false;
          }
          g := g.(stressCpu := n.value);
        case StressIo(n) =>
          if n.None? {
            return g, false;
          }
          g := g.(stressIo := n.value);
        case StressMem(n) =>
          if n.None? {
            return g, false;
          }
          g := g.(stressMem := n.value);
        case NoHt => g := g.(hyperthreading := false);
        case Plain =>
      }
      i := i + 1;
    }
    ok := true;
  }

  // ------------------------------------------------------------- run names

  /** The parameters a run directory's name gives, in `run.bash`'s order. */
  datatype Layout = Layout(
    environment: string, nic: string, numVcpus: Cell, offloading: string,
    rateLimit: string, numWorkers: string, numSimultaneous: Cell, workload: string)

  /** The tuple unpacking of `parts[:5]` (physical hosts, one vCPU, one
      simultaneous request, the rate taken from the NIC's speed) or of
      `parts[:8]`; None where the unpacking raises for too few words. */
  function Unpack(parts: seq<string>): (l: Option<Layout>)
    ensures l.Some? <==> parts != [] && |parts| >= (if parts[0] == "physical" then 5 else 8)
    ensures l.Some? ==> l.value.environment == parts[0] && l.value.nic == parts[1]
  {
    if parts == [] then None
    else if parts[0] == "physical" then
      if |parts| < 5 then None
      else Some(Layout(parts[0], parts[1], Int(1), parts[2], ReplaceAll(parts[1], "g", "000"), parts[3], Int(1), parts[4]))
    else if |parts| < 8 then None
    else Some(Layout(parts[0], parts[1], Str(parts[2]), parts[3], parts[4], parts[5], Str(parts[6]), parts[7]))
  }

  // ------------------------------------------------------------------- walk

  /** The loop's variables: the path still to try, the one tried before it,
      the instance, the extras' flags, the last unpacked run name and the
      iteration (None while unbound). */
  datatype Scan = Scan(
    path: string, prev: Option<string>, instance: Option<string>, flags: Flags,
    layout: Option<Layout>, iteration: Option<int>)

  /** `environment` is set and not empty (a non-empty string is true). */
  predicate Decoded(s: Scan) {
    s.layout.Some? && s.layout.value.environment != ""
  }

  /** The variables on entering the loop: the file's own path, with
      `virtio-net-pci` shortened to `virtio`. */
  function Initial(fname: string): Scan {
    Scan(ReplaceAll(fname, "virtio-net-pci", "virtio"), None, None, Defaults, None, None)
  }

  /** One pass of the loop body over a path that is not "/": the new
      variables, and whether the body broke out of the loop (the run name
      and the iteration were both read). Every other pass ends by moving up
      to `dirname(path)`. */
  function Level(s: Scan): (r: (Scan, bool))
    ensures r.1 ==> r.0.path == s.path && r.0.iteration.Some? && r.0.prev == s.prev && s.prev.Some?
    ensures !r.1 ==> r.0.path == Dirname(s.path) && r.0.prev == Some(s.path)
    ensures r.0.instance == s.instance || StartsWith(Basename(s.path), "que")
  {
    var base := Basename(s.path);
    if StartsWith(base, "que") then
      (s.(instance := Some(base), prev := Some(s.path), path := Dirname(s.path)), false)
    else
      var parts := SplitOn(base, '-');
      match Unpack(parts)
      case None => (s.(prev := Some(s.path), path := Dirname(s.path)), false)
      case Some(l) =>
        var (flags, ok) := ApplyExtras(s.flags, ExtrasOf(parts));
        var t := s.(layout := Some(l), flags := flags);
        var iteration := if ok && s.prev.Some? then PyInt(Basename(s.prev.value)) else None;
        if iteration.Some? then (t.(iteration := iteration), true)
        else (t.(prev := Some(s.path), path := Dirname(s.path)), false)
  }

  /** The loop `while path and not environment`, stopping at a path made
      only of slashes (the root, however it is spelled). */
  function Walk(s: Scan): (t: Scan)
    decreases |s.path|
  {
    if s.path == [] || Decoded(s) || AllSlashes(s.path) then s
    else
      var (next, done) := Level(s);
      if done then next
      else
        DirnameShortens(s.path);
        Walk(next)
  }

  /** The loop as written, which stops only at "/": None when it never
      ends (see `SlashesSpin`). */
  function WalkAsWritten(s: Scan): (t: Option<Scan>)
    decreases |s.path|
  {
    if s.path == [] || Decoded(s) || s.path == "/" then Some(s)
    else if AllSlashes(s.path) then None
    else
      var (next, done) := Level(s);
      if done then Some(next)
      else
        DirnameShortens(s.path);
        WalkAsWritten(next)
  }

  // ---------------------------------------------------------------- results

  /** What a call ends in: no parameters (`return` with nothing), the
      parameters and the test directory, an exception (`iteration` unbound,
      or no `prev_path` to fix up), or a loop that never ends. */
  datatype Outcome = NoParams | Found(params: Record, testDirectory: string) | Raises | Hangs

  function Enabled(b: bool): Cell {
    Str(if b then "enabled" else "disabled")
  }

  /** "on" and "off" are spelled "enabled" and "disabled"; any other
      offloading word is kept. */
  function Offloading(o: string): (r: string)
    ensures o == "on" ==> r == "enabled"
    ensures o == "off" ==> r == "disabled"
    ensures o != "on" && o != "off" ==> r == o
  {
    if o == "on" then "enabled" else if o == "off" then "disabled" else o
  }

  /** The keys of the result, in the order it lists them. */
  const ParamNames: seq<string> := [
    "iteration", "instance", "cluster", "environment", "nic", "num_vcpus",
    "num_workers", "num_simultaneous", "rate_limit", "workload", "broken",
    "instrumentation", "offloading", "pinning", "gre", "colocated",
    "stress_cpu", "stress_io", "stress_mem", "hyperthreading"]

  /** The ordered dict returned: the cluster is always "ccc" and the
      broken-ness "unknown" (its check is commented out). */
  function Params(l: Layout, f: Flags, iteration: int, instance: Option<string>): (r: Record)
    ensures |r| == 20
  {
    [("iteration", Int(iteration)),
     ("instance", if instance.Some? then Str(instance.value) else Null),
     ("cluster", Str("ccc")),
     ("environment", Str(l.environment)),
     ("nic", Str(l.nic)),
     ("num_vcpus", l.numVcpus),
     ("num_workers", Str(l.numWorkers)),
     ("num_simultaneous", l.numSimultaneous),
     ("rate_limit", Str(l.rateLimit)),
     ("workload", Str(l.workload)),
     ("broken", Str("unknown")),
     ("instrumentation", Enabled(f.instrumentation)),
     ("offloading", Str(Offloading(l.offloading))),
     ("pinning", Enabled(f.pinning)),
     ("gre", Enabled(f.gre)),
     ("colocated", Enabled(f.colocated)),
     ("stress_cpu", Int(f.stressCpu)),
     ("stress_io", Int(f.stressIo)),
     ("stress_mem", Int(f.stressMem)),
     ("hyperthreading", Enabled(f.hyperthreading))]
  }

  /** After the loop: nothing without an environment; the exception of
      `prev_path.replace` or of the unbound `iteration`; else the result. */
  function Finish(s: Scan): Outcome {
    if !Decoded(s) then NoParams
    else if s.prev.None? || s.iteration.None? then Raises
    else Found(Params(s.layout.value, s.flags, s.iteration.value, s.instance),
               ReplaceAll(s.prev.value, "virtio", "virtio-net-pci"))
  }

  /** `guess_test_parameters(fname)`, with the walk stopping at every
      spelling of the root. */
  function Guess(fname: string): Outcome {
    Finish(Walk(Initial(fname)))
  }

  /** `guess_test_parameters(fname)` as written. */
  function GuessAsWritten(fname: string): Outcome {
    match WalkAsWritten(Initial(fname))
    case None => Hangs
    case Some(s) => Finish(s)
  }

  /** `guess_test_parameters(fname)`: the walk up the directories. */
  method GuessTestParameters(fname: string) returns (r: Outcome)
    ensures r == Guess(fname)
    ensures r != Hangs
  {
    var s := Initial(fname);
    while s.path != [] && !Decoded(s)
      invariant Walk(s) == Walk(Initial(fname))
      decreases |s.path|
    {
      if AllSlashes(s.path) {
        break;
      }
      var next, done := ScanLevel(s);
      if done {
        return Finish(next);
      }
      DirnameShortens(s.path);
      s := next;
    }
    r := Finish(s);
  }

  /** The loop body for one path. */
  method ScanLevel(s: Scan) returns (next: Scan, done: bool)
    ensures (next, done) == Level(s)
  {
    var base := Basename(s.path);
    if StartsWith(base, "que") {
      return s.(instance := Some(base), prev := Some(s.path), path := Dirname(s.path)), false;
    }
    var parts := SplitOn(base, '-');
    var layout := Unpack(parts);
    next, done := s.(prev := Some(s.path), path := Dirname(s.path)), false;
    if layout.Some? {
      var flags, ok := ScanExtras(parts, s.flags);
      var t := s.(layout := layout, flags := flags);
      next := t.(prev := Some(s.path), path := Dirname(s.path));
      if ok && s.prev.Some? {
        var iteration := PyInt(Basename(s.prev.value));
        if iteration.Some? {
          next, done := t.(iteration := iteration), true;
        }
      }
    }
  }

  // ------------------------------------------------------------- properties

  /** The extras loop runs to the end exactly when no stress word has a
      count that is not an integer. */
  lemma {:induction false} ExtrasRunThrough(f: Flags, es: seq<Extra>)
    ensures ApplyExtras(f, es).1 <==> forall j :: 0 <= j < |es| ==> !Raising(es[j])
    decreases |es|
  {
    if es != [] {
      match ApplyExtra(f, es[0])
      case None =>
      case Some(h) =>
        ExtrasRunThrough(h, es[1..]);
        assert forall j :: 0 < j < |es| ==> es[j] == es[1..][j - 1];
    }
  }

  /** What one word changes. */
  lemma ExtraStep(f: Flags, e: Extra)
    requires !Raising(e)
    ensures var h := ApplyExtra(f, e).value;
            && h.instrumentation == (f.instrumentation || e == Instr)
            && h.pinning == (f.pinning || e == Pinning)
            && h.gre == (f.gre || e == Gre)
            && h.colocated == (f.colocated || e == Colocated)
            && h.hyperthreading == (f.hyperthreading && e != NoHt)
            && (!e.StressCpu? ==> h.stressCpu == f.stressCpu)
            && (!e.StressIo? ==> h.stressIo == f.stressIo)
            && (!e.StressMem? ==> h.stressMem == f.stressMem)
  {
    match e {
      case Instr =>
      case Pinning =>
      case Gre =>
      case Colocated =>
      case StressCpu(_) =>
      case StressIo(_) =>
      case StressMem(_) =>
      case NoHt =>
      case Plain =>
    }
  }

  /** When it does, a word switches its flag on (`noht` switches
      hyperthreading off) exactly when it is present. */
  lemma {:induction false} ExtrasSwitch(f: Flags, es: seq<Extra>)
    requires ApplyExtras(f, es).1
    ensures var g := ApplyExtras(f, es).0;
            && g.instrumentation == (f.instrumentation || Instr in es)
            && g.pinning == (f.pinning || Pinning in es)
            && g.gre == (f.gre || Gre in es)
            && g.colocated == (f.colocated || Colocated in es)
            && g.hyperthreading == (f.hyperthreading && NoHt !in es)
    decreases |es|
  {
    if es != [] {
      var e := es[0];
      assert !Raising(e);
      ExtraStep(f, e);
      var h := ApplyExtra(f, e).value;
      ExtrasSwitch(h, es[1..]);
      assert es == [e] + es[1..];
    }
  }

  /** A stress count is kept unless a stress word of its kind is read. */
  lemma {:induction false} ExtrasStress(f: Flags, es: seq<Extra>)
    ensures var g := ApplyExtras(f, es).0;
            && ((forall j :: 0 <= j < |es| ==> !es[j].StressCpu?) ==> g.stressCpu == f.stressCpu)
            && ((forall j :: 0 <= j < |es| ==> !es[j].StressIo?) ==> g.stressIo == f.stressIo)
            && ((forall j :: 0 <= j < |es| ==> !es[j].StressMem?) ==> g.stressMem == f.stressMem)
    decreases |es|
  {
    if es != [] && !Raising(es[0]) {
      var e := es[0];
      ExtraStep(f, e);
      var h := ApplyExtra(f, e).value;
      ExtrasStress(h, es[1..]);
      assert forall j :: 0 <= j < |es[1..]| ==> es[1..][j] == es[j + 1];
    }
  }

  /** `run.bash`'s directory names decode back to the words they are made
      of: eight words (the rest are extras) ... */
  lemma DecodeRunName(words: seq<string>)
    requires |words| >= 8 && words[0] != "physical"
    requires forall j :: 0 <= j < |words| ==> '-' !in words[j]
    ensures Unpack(SplitOn(JoinWith(words, '-'), '-'))
         == Some(Layout(words[0], words[1], Str(words[2]), words[3], words[4], words[5], Str(words[6]), words[7]))
  {
    SplitOnJoin(words, '-');
  }

  /** ... or, for physical hosts, five, with the rate limit read off the
      NIC's speed ("10g" is 10000) and one vCPU and one simultaneous
      request. */
  lemma DecodePhysicalName(words: seq<string>)
    requires |words| >= 5 && words[0] == "physical"
    requires forall j :: 0 <= j < |words| ==> '-' !in words[j]
    ensures Unpack(SplitOn(JoinWith(words, '-'), '-'))
         == Some(Layout("physical", words[1], Int(1), words[2], ReplaceAll(words[1], "g", "000"), words[3], Int(1), words[4]))
  {
    SplitOnJoin(words, '-');
  }

  /** A directory name without '-' is never a run directory. */
  lemma NoDashNoLayout(base: string)
    requires '-' !in base
    ensures Unpack(SplitOn(base, '-')).None?
  {
    SplitOnSingle(base, '-');
  }

  /** One level whose name neither starts with "que" nor holds a '-': the
      walk just moves up. */
  lemma LevelPlain(s: Scan)
    requires !StartsWith(Basename(s.path), "que") && '-' !in Basename(s.path)
    ensures Level(s) == (s.(prev := Some(s.path), path := Dirname(s.path)), false)
  {
    NoDashNoLayout(Basename(s.path));
  }

  /** The level of the run directory, with the level below it already
      tried: the iteration is the name of that level. */
  lemma LevelDecode(s: Scan, l: Layout, g: Flags, below: string)
    requires !StartsWith(Basename(s.path), "que")
    requires Unpack(SplitOn(Basename(s.path), '-')) == Some(l)
    requires ApplyExtras(s.flags, ExtrasOf(SplitOn(Basename(s.path), '-'))) == (g, true)
    requires s.prev == Some(below)
    ensures var n := PyInt(Basename(below));
            Level(s) == if n.Some? then (s.(layout := Some(l), flags := g, iteration := n), true)
                        else (s.(layout := Some(l), flags := g, prev := Some(s.path), path := Dirname(s.path)), false)
  {
  }

  /** The variables on entering the loop, for a path already renamed. */
  function Start(path: string): Scan {
    Scan(path, None, None, Defaults, None, None)
  }

  /** A directory name that is neither an instance's nor a run's. */
  predicate PlainName(x: string) {
    '/' !in x && '-' !in x && !StartsWith(x, "que")
  }

  /** An instance's directory name. */
  predicate InstanceName(x: string) {
    '/' !in x && StartsWith(x, "que")
  }

  /** A run directory's name that decodes, with an environment, into `l`,
      its extras setting `g` from the defaults. */
  predicate RunName(x: string, l: Layout, g: Flags) {
    && '/' !in x && x != [] && !StartsWith(x, "que")
    && Unpack(SplitOn(x, '-')) == Some(l) && l.environment != ""
    && ApplyExtras(Defaults, ExtrasOf(SplitOn(x, '-'))) == (g, true)
  }

  /** Going up from `a/x`, where `x` is neither an instance nor a run
      directory. */
  lemma PlainStep(s: Scan, a: string, x: string)
    requires s.path == Child(a, x) && !Decoded(s) && PlainName(x)
    requires a != [] && a[|a| - 1] != '/'
    ensures Walk(s) == Walk(s.(prev := Some(s.path), path := a))
  {
    ChildParts(a, x);
    assert s.path[|a| - 1] != '/';
    LevelPlain(s);
  }

  /** Going up from an instance directory `a/que...`, naming the instance. */
  lemma QueStep(s: Scan, a: string, x: string)
    requires s.path == Child(a, x) && !Decoded(s) && InstanceName(x)
    requires a != [] && a[|a| - 1] != '/'
    ensures Walk(s) == Walk(s.(instance := Some(x), prev := Some(s.path), path := a))
  {
    ChildParts(a, x);
    assert s.path[|a| - 1] != '/';
  }

  /** The run directory `a/x`, read after the iteration directory `below`. */
  lemma DecodeStep(s: Scan, a: string, x: string, l: Layout, g: Flags, below: string)
    requires s.path == Child(a, x) && !Decoded(s) && s.prev == Some(below) && s.iteration.None?
    requires '/' !in x && x != [] && !StartsWith(x, "que")
    requires Unpack(SplitOn(x, '-')) == Some(l) && l.environment != ""
    requires ApplyExtras(s.flags, ExtrasOf(SplitOn(x, '-'))) == (g, true)
    ensures var n := PyInt(Basename(below));
            Finish(Walk(s)) == if n.Some? then Found(Params(l, g, n.value, s.instance), ReplaceAll(below, "virtio", "virtio-net-pci"))
                               else Raises
  {
    ChildParts(a, x);
    ChildEnd(a, x);
    LevelDecode(s, l, g, below);
    var n := PyInt(Basename(below));
    var t := s.(layout := Some(l), flags := g);
    if n.Some? {
      assert Walk(s) == t.(iteration := n);
      assert Finish(t.(iteration := n))
          == Found(Params(l, g, n.value, s.instance), ReplaceAll(below, "virtio", "virtio-net-pci"));
    } else {
      var up := t.(prev := Some(s.path), path := Dirname(s.path));
      assert Decoded(up) && Walk(up) == up;
      assert Walk(s) == up;
      assert Finish(up) == Raises;
    }
  }

  /** The walk from an iteration directory `p/seg/it` up into its run
      directory `p/seg`. */
  lemma IterationStep(s: Scan, p: string, seg: string, it: string, l: Layout, g: Flags)
    requires s.path == Child(Child(p, seg), it) && s.layout.None? && s.iteration.None? && s.flags == Defaults
    requires RunName(seg, l, g) && PlainName(it) && it != []
    ensures Finish(Walk(s))
            == if PyInt(it).Some? then Found(Params(l, g, PyInt(it).value, s.instance), ReplaceAll(s.path, "virtio", "virtio-net-pci"))
               else Raises
  {
    var a := Child(p, seg);
    ChildEnd(p, seg);
    ChildParts(a, it);
    PlainStep(s, a, it);
    var s1 := s.(prev := Some(s.path), path := a);
    DecodeStep(s1, p, seg, l, g, s.path);
  }

  /** A file directly in the iteration directory of a run directory: the
      parameters are the run directory's, the iteration is the name of the
      directory below it, and the test directory is that iteration
      directory; an iteration name that is not an integer leaves
      `iteration` unbound and the call raises. */
  lemma RunDirectory(p: string, seg: string, it: string, file: string, l: Layout, g: Flags)
    requires RunName(seg, l, g) && PlainName(it) && it != [] && PlainName(file)
    ensures var run := Child(Child(p, seg), it);
            Finish(Walk(Start(Child(run, file))))
            == if PyInt(it).Some? then Found(Params(l, g, PyInt(it).value, None), ReplaceAll(run, "virtio", "virtio-net-pci"))
               else Raises
  {
    var run := Child(Child(p, seg), it);
    ChildEnd(Child(p, seg), it);
    var s0 := Start(Child(run, file));
    PlainStep(s0, run, file);
    IterationStep(s0.(prev := Some(s0.path), path := run), p, seg, it, l, g);
  }

  /** A file in an instance's directory (`que...`) inside an iteration
      directory: the same, with the instance named. */
  lemma InstanceDirectory(p: string, seg: string, it: string, que: string, file: string, l: Layout, g: Flags)
    requires RunName(seg, l, g) && PlainName(it) && it != [] && InstanceName(que) && PlainName(file)
    ensures var run := Child(Child(p, seg), it);
            Finish(Walk(Start(Child(Child(run, que), file))))
            == if PyInt(it).Some? then Found(Params(l, g, PyInt(it).value, Some(que)), ReplaceAll(run, "virtio", "virtio-net-pci"))
               else Raises
  {
    var run := Child(Child(p, seg), it);
    var inst := Child(run, que);
    assert que != [] && que[0] == 'q';
    ChildEnd(Child(p, seg), it);
    ChildEnd(run, que);
    var s0 := Start(Child(inst, file));
    PlainStep(s0, inst, file);
    var s1 := s0.(prev := Some(s0.path), path := inst);
    QueStep(s1, run, que);
    IterationStep(s1.(instance := Some(que), prev := Some(inst), path := run), p, seg, it, l, g);
  }

  /** A path without '-' has no run directory: no parameters. */
  lemma {:induction false} WalkWithoutDash(s: Scan)
    requires '-' !in s.path && s.layout.None?
    ensures Walk(s).layout.None?
    decreases |s.path|
  {
    if s.path != [] && !AllSlashes(s.path) {
      var base := Basename(s.path);
      assert '-' !in base by {
        assert base == s.path[SegmentStart(s.path)..];
      }
      NoDashNoLayout(base);
      var (next, done) := Level(s);
      assert !done;
      DirnameShortens(s.path);
      DirnamePrefix(s.path);
      assert '-' !in next.path;
      WalkWithoutDash(next);
    }
  }

  lemma NoDashNoParams(fname: string)
    requires '-' !in fname
    ensures Guess(fname) == NoParams
    ensures GuessAsWritten(fname) == NoParams || GuessAsWritten(fname) == Hangs
  {
    if Contains(fname, "virtio-net-pci") {
      ContainsChar(fname, "virtio-net-pci", '-');
    }
    ReplaceAbsent(fname, "virtio-net-pci", "virtio");
    WalkWithoutDash(Initial(fname));
    AsWrittenAgrees(Initial(fname));
  }

  /** Wherever the loop as written ends, it ends where the corrected one
      does; where it never ends, the corrected one finds no parameters. */
  lemma {:induction false} AsWrittenAgrees(s: Scan)
    ensures WalkAsWritten(s).Some? ==> WalkAsWritten(s).value == Walk(s)
    ensures WalkAsWritten(s).None? ==> !Decoded(Walk(s))
    decreases |s.path|
  {
    if s.path == [] || Decoded(s) || s.path == "/" {
    } else if AllSlashes(s.path) {
    } else {
      var (next, done) := Level(s);
      if !done {
        DirnameShortens(s.path);
        AsWrittenAgrees(next);
      }
    }
  }

  /** On a path of two or more slashes, with no environment found, the
      loop body gives back the same path and still no environment: the
      loop as written, which stops only at "/", goes round forever. */
  lemma SlashesSpin(s: Scan)
    requires AllSlashes(s.path) && |s.path| >= 2 && !Decoded(s)
    ensures Level(s) == (s.(prev := Some(s.path)), false)
    ensures WalkAsWritten(s).None?
  {
    var p := s.path;
    assert LastIndexOf(p, '/') == Some(|p| - 1);
    assert Basename(p) == [];
    DirnameShortens(p);
    NoDashNoLayout([]);
  }

  /** A path starting with two slashes: `//x` has no parameters, and the
      loop as written never ends on it. */
  lemma DoubleSlashHangs()
    ensures GuessAsWritten("//x") == Hangs
    ensures Guess("//x") == NoParams
  {
    var p := "//x";
    assert !Contains(p, "virtio-net-pci") by {
      if Contains(p, "virtio-net-pci") {
        ContainsChar(p, "virtio-net-pci", '-');
      }
    }
    ReplaceAbsent(p, "virtio-net-pci", "virtio");
    var s := Initial(p);
    assert s.path == p;
    ChildParts("/", "x");
    assert Child("/", "x") == p;
    assert Dirname(p) == "//" by {
      assert LastIndexOf(p, '/') == Some(1);
      assert p[..2] == "//";
    }
    LevelPlain(s);
    var next := s.(prev := Some(p), path := "//");
    assert !AllSlashes(p) by {
      assert p[2] == 'x';
    }
    assert Walk(s) == Walk(next);
    assert WalkAsWritten(s) == WalkAsWritten(next);
    SlashesSpin(next);
  }

  /** The loop as written ends on every path that does not start with two
      slashes, and then agrees with the corrected one. */
  lemma {:induction false} WalkAsWrittenEnds(s: Scan)
    requires !StartsWith(s.path, "//")
    ensures WalkAsWritten(s).Some?
    decreases |s.path|
  {
    SlashesStart(s.path);
    if s.path != [] && !Decoded(s) && s.path != "/" && !AllSlashes(s.path) {
      var (next, done) := Level(s);
      if !done {
        DirnameShortens(s.path);
        DirnamePrefix(s.path);
        assert |next.path| >= 2 ==> next.path[..2] == s.path[..2];
        WalkAsWrittenEnds(next);
      }
    }
  }

  /** Renaming `virtio-net-pci` cannot create a leading "//". */
  lemma RenameKeepsHead(fname: string)
    requires !StartsWith(fname, "//")
    ensures !StartsWith(ReplaceAll(fname, "virtio-net-pci", "virtio"), "//")
  {
    var pat, rep := "virtio-net-pci", "virtio";
    var r := ReplaceAll(fname, pat, rep);
    if fname != [] && !StartsWith(fname, pat) && fname[0] == '/' {
      var rest := fname[1..];
      assert r == "/" + ReplaceAll(rest, pat, rep);
      if rest != [] {
        assert fname[..2] == ['/', rest[0]];
        if StartsWith(rest, pat) {
          assert ReplaceAll(rest, pat, rep)[0] == 'v';
        } else {
          assert ReplaceAll(rest, pat, rep)[0] == rest[0];
        }
      }
    }
  }

  lemma GuessEnds(fname: string)
    requires !StartsWith(fname, "//")
    ensures GuessAsWritten(fname) == Guess(fname)
  {
    RenameKeepsHead(fname);
    WalkAsWrittenEnds(Initial(fname));
    AsWrittenAgrees(Initial(fname));
  }

  /** The result lists the twenty parameters in order. */
  lemma ParamsNamed(l: Layout, f: Flags, iteration: int, instance: Option<string>)
    ensures Keys(Params(l, f, iteration, instance)) == ParamNames
  {
    var r := Params(l, f, iteration, instance);
    var ks := Keys(r);
    assert forall i :: 0 <= i < 20 ==> ks[i] == ParamNames[i];
  }
}

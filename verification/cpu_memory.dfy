/**
 `CpuMemory`: the iced CPU and memory component. At start it cleans the CPU
 model name; each tick it reads the CPU, memory and process probes, pushes
 one value per history and rebuilds the process list; its view ranks the
 processes by CPU and by memory and truncates long command lines.
 */
module CpuMemory {
  import opened Wrappers
  import opened Seqs
  import opened Machine
  import opened History
  import opened Ranking
  import opened CpuCommon
  import opened Text

  /** The marks `new` strips from the model name, in order. */
  const CpuModelRemove: seq<string> := ["(R)", "(TM)", "!"]

  const NoCpu := "index out of bounds: the len is 0 but the index is 0"

  /** The model name `new` keeps: the first CPU's brand, cleaned. */
  function CpuModel(brands: seq<string>): (o: Outcome<string>)
    ensures o.Panic? <==> |brands| == 0
    ensures o.Done? ==> |o.value| <= |brands[0]| && '!' !in o.value
  {
    if |brands| == 0 then Panic(NoCpu)
    else
      var beforeBang := RemoveAll(RemoveAll(brands[0], "(R)"), "(TM)");
      assert CpuModelRemove[1..] == ["(TM)", "!"] && CpuModelRemove[1..][1..] == ["!"];
      assert CleanModel(brands[0], CpuModelRemove) == RemoveAll(beforeBang, "!");
      RemoveCharIsFilter(beforeBang, '!');
      Done(CleanModel(brands[0], CpuModelRemove))
  }

  /** Removing `!` from a string without one changes nothing. */
  lemma RemoveBangAbsent(s: string)
    requires '!' !in s
    ensures RemoveAll(s, "!") == s
  {
    forall i | 0 <= i <= |s|
      ensures !OccursAt(s, "!", i)
    {
      if i < |s| {
        assert s[i..i + 1][0] == s[i];
      }
    }
    RemoveAbsent(s, "!");
  }

  /**
   A first brand of the usual shape, `a(R)b(TM)c` with no other `(` and no
   `!`, gives the model name `abc`.
   */
  lemma MarkedBrandCleaned(a: string, b: string, c: string, others: seq<string>)
    requires ParenFree(a) && ParenFree(b) && ParenFree(c)
    requires '!' !in a + b + c
    ensures CpuModel([a + "(R)" + b + "(TM)" + c] + others) == Done(a + b + c)
  {
    var brand := a + "(R)" + b + "(TM)" + c;
    RegisteredRemoved(a, b, c);
    ParenFreeConcat(a, b);
    TrademarkRemoved(a + b, c);
    RemoveBangAbsent(a + b + c);
    assert CpuModelRemove[1..] == ["(TM)", "!"] && CpuModelRemove[1..][1..] == ["!"];
    assert CleanModel(brand, CpuModelRemove) == RemoveAll(RemoveAll(RemoveAll(brand, "(R)"), "(TM)"), "!");
  }

  /** One logical CPU as sysinfo reports it: frequency in MHz and usage in percent. */
  datatype Cpu = Cpu(frequency: nat, usage: real)

  /** A hardware sensor; its temperature may be unavailable. */
  datatype Sensor = Sensor(name: string, temperature: Option<real>)

  const PackageSensor := "Package id 0"
  const MissingValue := "called `Option::unwrap()` on a `None` value"

  /** The CPU fields of the live state, frequency in GHz. */
  datatype CpuLive = CpuLive(frequency: real, temperature: real, usage: real, coreUsage: seq<real>)

  predicate IsPackage(s: Sensor) {
    s.name == PackageSensor
  }

  /**
   `update_cpu_data`: the first CPU's frequency, the package sensor's
   temperature (both must exist), the usages, and one push of the global
   usage as a fraction onto the CPU history.
   */
  function UpdateCpuData(history: Queue<Ratio>, cpus: seq<Cpu>, globalUsage: real, sensors: seq<Sensor>): (o: Outcome<(CpuLive, Queue<Ratio>)>)
    requires history.Valid()
    ensures o.Done? <==> |cpus| > 0 && Find(sensors, IsPackage).Some? && Find(sensors, IsPackage).value.temperature.Some?
    ensures o.Done? ==>
      && o.value.0.frequency * 1000.0 == cpus[0].frequency as real
      && o.value.0.temperature == Find(sensors, IsPackage).value.temperature.value
      && o.value.0.usage == globalUsage
      && o.value.0.coreUsage == Map(cpus, (c: Cpu) => c.usage)
      && o.value.1 == Push(history, Finite(globalUsage / 100.0))
  {
    if |cpus| == 0 then Panic(NoCpu)
    else
      match Find(sensors, IsPackage)
      case None => Panic(MissingValue)
      case Some(sensor) =>
        match sensor.temperature
        case None => Panic(MissingValue)
        case Some(t) =>
          Done((CpuLive(cpus[0].frequency as real / 1000.0, t, globalUsage, Map(cpus, (c: Cpu) => c.usage)),
                Push(history, Finite(globalUsage / 100.0))))
  }

  datatype MemoryLive = MemoryLive(memoryUsage: nat, swapUsage: nat)

  /** `update_memory`: the used amounts, and one push of each as a fraction of its total. */
  function UpdateMemory(memoryHistory: Queue<Ratio>, swapHistory: Queue<Ratio>,
                        usedMemory: nat, usedSwap: nat, memoryTotal: nat, swapTotal: nat): (o: (MemoryLive, Queue<Ratio>, Queue<Ratio>))
    requires memoryHistory.Valid() && swapHistory.Valid()
    ensures o.0 == MemoryLive(usedMemory, usedSwap)
    ensures o.1 == Push(memoryHistory, Divide(usedMemory as real, memoryTotal as real))
    ensures o.2 == Push(swapHistory, Divide(usedSwap as real, swapTotal as real))
    ensures swapTotal == 0 && swapHistory.capacity > 0 ==> o.2.items[0] == NonFinite
  {
    (MemoryLive(usedMemory, usedSwap),
     Push(memoryHistory, Divide(usedMemory as real, memoryTotal as real)),
     Push(swapHistory, Divide(usedSwap as real, swapTotal as real)))
  }

  /** What the second probe knows of a live process. */
  datatype LiveProcess = LiveProcess(name: string, cpuUsage: real, memory: nat)

  /** A row of the process list. */
  datatype ProcessRow = ProcessRow(cmd: string, pid: nat, cpuUsage: real, memoryUsage: nat)

  function TasksOf(p: ProbedProcess): set<nat> {
    if p.tasks.Some? then p.tasks.value else {}
  }

  /** Every PID listed as a task (thread) of a probed process. */
  function TaskPids(probe: seq<ProbedProcess>): (pids: set<nat>)
    ensures forall i :: 0 <= i < |probe| ==> TasksOf(probe[i]) <= pids
  {
    if |probe| == 0 then {}
    else
      var last := probe[|probe| - 1];
      var pids := TaskPids(probe[..|probe| - 1]) + TasksOf(last);
      assert forall i :: 0 <= i < |probe| - 1 ==> probe[i] == probe[..|probe| - 1][i];
      pids
  }

  /** The converse: every PID in the set is listed as a task by some probed process. */
  lemma {:induction false} TaskPidsListed(probe: seq<ProbedProcess>)
    ensures forall t :: t in TaskPids(probe) ==> exists i :: 0 <= i < |probe| && t in TasksOf(probe[i])
  {
    if |probe| > 0 {
      var init := probe[..|probe| - 1];
      TaskPidsListed(init);
      forall t | t in TaskPids(probe)
        ensures exists i :: 0 <= i < |probe| && t in TasksOf(probe[i])
      {
        if t in TaskPids(init) {
          var i :| 0 <= i < |init| && t in TasksOf(init[i]);
          assert probe[i] == init[i];
        } else {
          assert t in TasksOf(probe[|probe| - 1]);
        }
      }
    }
  }

  function MakeRow(p: ProbedProcess, live: LiveProcess): ProcessRow {
    ProcessRow(CommandLine(live.name, p.cmd), p.pid, live.cpuUsage, live.memory)
  }

  /** The list `update_processes` builds: non-task processes the second probe still knows. */
  function Rows(probe: seq<ProbedProcess>, taskPids: set<nat>, live: map<nat, LiveProcess>): (rows: seq<ProcessRow>)
    ensures |rows| <= |probe|
    ensures forall k :: 0 <= k < |rows| ==> rows[k].pid !in taskPids && rows[k].pid in live
    ensures forall i :: 0 <= i < |probe| && probe[i].pid !in taskPids && probe[i].pid in live ==>
              MakeRow(probe[i], live[probe[i].pid]) in rows
  {
    if |probe| == 0 then []
    else
      var init := probe[..|probe| - 1];
      var last := probe[|probe| - 1];
      assert forall i :: 0 <= i < |probe| - 1 ==> probe[i] == init[i];
      Rows(init, taskPids, live)
        + (if last.pid !in taskPids && last.pid in live then [MakeRow(last, live[last.pid])] else [])
  }

  /** The running count: non-task processes with Run status, whether or not the second probe knows them. */
  function NumRunning(probe: seq<ProbedProcess>, taskPids: set<nat>): (n: nat)
    ensures n <= |probe|
  {
    if |probe| == 0 then 0
    else
      var last := probe[|probe| - 1];
      NumRunning(probe[..|probe| - 1], taskPids) + (if last.pid !in taskPids && Running(last.status) then 1 else 0)
  }

  /** The number of probed processes that are not tasks. */
  function NonTaskCount(probe: seq<ProbedProcess>, taskPids: set<nat>): nat {
    if |probe| == 0 then 0
    else NonTaskCount(probe[..|probe| - 1], taskPids) + (if probe[|probe| - 1].pid !in taskPids then 1 else 0)
  }

  /** Both the list and the running count are bounded by the processes that are not tasks. */
  lemma {:induction false} BoundedByNonTasks(probe: seq<ProbedProcess>, taskPids: set<nat>, live: map<nat, LiveProcess>)
    ensures NumRunning(probe, taskPids) <= NonTaskCount(probe, taskPids)
    ensures |Rows(probe, taskPids, live)| <= NonTaskCount(probe, taskPids)
  {
    if |probe| > 0 {
      BoundedByNonTasks(probe[..|probe| - 1], taskPids, live);
    }
  }

  /**
   `update_processes`: `probe` is the fresh probe in iteration order, `live`
   the refreshed system's processes by PID.
   */
  method UpdateProcesses(probe: seq<ProbedProcess>, live: map<nat, LiveProcess>)
    returns (processes: seq<ProcessRow>, numRunning: nat)
    ensures processes == Rows(probe, TaskPids(probe), live)
    ensures numRunning == NumRunning(probe, TaskPids(probe))
  {
    var taskPids: set<nat> := {};
    var i := 0;
    while i < |probe|
      invariant 0 <= i <= |probe|
      invariant taskPids == TaskPids(probe[..i])
    {
      assert probe[..i + 1][..i] == probe[..i];
      taskPids := taskPids + TasksOf(probe[i]);
      i := i + 1;
    }
    assert probe[..|probe|] == probe;
    processes := [];
    numRunning := 0;
    i := 0;
    while i < |probe|
      invariant 0 <= i <= |probe|
      invariant processes == Rows(probe[..i], taskPids, live)
      invariant numRunning == NumRunning(probe[..i], taskPids)
    {
      var p := probe[i];
      PrefixStep(probe, i, taskPids, live);
      if p.pid !in taskPids {
        if Running(p.status) {
          numRunning := numRunning + 1;
        }
        if p.pid in live {
          processes := processes + [MakeRow(p, live[p.pid])];
        }
      }
      i := i + 1;
    }
  }

  /** The list and the count over one more probed process. */
  lemma PrefixStep(probe: seq<ProbedProcess>, i: nat, taskPids: set<nat>, live: map<nat, LiveProcess>)
    requires i < |probe|
    ensures var p := probe[i];
      && Rows(probe[..i + 1], taskPids, live)
         == Rows(probe[..i], taskPids, live) + (if p.pid !in taskPids && p.pid in live then [MakeRow(p, live[p.pid])] else [])
      && NumRunning(probe[..i + 1], taskPids)
         == NumRunning(probe[..i], taskPids) + (if p.pid !in taskPids && Running(p.status) then 1 else 0)
  {
    var pre := probe[..i + 1];
    assert pre[..|pre| - 1] == probe[..i];
    assert pre[|pre| - 1] == probe[i];
  }

  /**
   The running count can exceed the list: a running process that ends
   between the two probes is counted but not listed.
   */
  lemma RunningButGone()
    ensures var probe := [ProbedProcess(7, Run, None, ["sleep"])];
      NumRunning(probe, TaskPids(probe)) == 1 && Rows(probe, TaskPids(probe), map[]) == []
  {
    var probe := [ProbedProcess(7, Run, None, ["sleep"])];
    assert probe[..0] == [];
  }

  /** Threads never show: a PID some process lists as a task is neither listed nor counted. */
  lemma {:induction false} TasksNeverCounted(probe: seq<ProbedProcess>, taskPids: set<nat>)
    requires forall i :: 0 <= i < |probe| ==> probe[i].pid in taskPids
    ensures NumRunning(probe, taskPids) == 0
  {
    if |probe| > 0 {
      var init := probe[..|probe| - 1];
      assert forall i :: 0 <= i < |init| ==> init[i] == probe[i];
      TasksNeverCounted(init, taskPids);
    }
  }

  function ByCpu(p: ProcessRow): real {
    p.cpuUsage
  }

  function ByMemory(p: ProcessRow): real {
    p.memoryUsage as real
  }

  datatype Table = Table(byCpu: seq<ProcessRow>, byMemory: seq<ProcessRow>)

  /**
   The two rankings of `view_process_table`: the list sorted by CPU, then
   that list sorted by memory, each cut to `numProcesses` rows.
   */
  function ProcessTable(processes: seq<ProcessRow>, numProcesses: nat): (t: Table)
    ensures |t.byCpu| == Min(numProcesses, |processes|) && |t.byMemory| == |t.byCpu|
    ensures SortedDesc(t.byCpu, ByCpu) && SortedDesc(t.byMemory, ByMemory)
    ensures multiset(t.byCpu) <= multiset(processes) && multiset(t.byMemory) <= multiset(processes)
    ensures t.byCpu == TopK(processes, ByCpu, numProcesses)
    ensures t.byMemory == TopK(SortDesc(processes, ByCpu), ByMemory, numProcesses)
  {
    var byCpu := SortDesc(processes, ByCpu);
    var byMemory := SortDesc(byCpu, ByMemory);
    SortDescSorted(processes, ByCpu);
    SortDescSorted(byCpu, ByMemory);
    var t := Table(Take(byCpu, numProcesses), Take(byMemory, numProcesses));
    PrefixMultiset(byCpu, |t.byCpu|);
    PrefixMultiset(byMemory, |t.byMemory|);
    t
  }

  /** No process left out of either table uses more than a process shown in it. */
  lemma ProcessTableBeatsRest(processes: seq<ProcessRow>, numProcesses: nat)
    ensures var t := ProcessTable(processes, numProcesses);
      && (forall q, i :: q in multiset(processes) - multiset(t.byCpu) && 0 <= i < |t.byCpu| ==>
            ByCpu(t.byCpu[i]) >= ByCpu(q))
      && (forall q, i :: q in multiset(processes) - multiset(t.byMemory) && 0 <= i < |t.byMemory| ==>
            ByMemory(t.byMemory[i]) >= ByMemory(q))
  {
    TopKBeatsRest(processes, ByCpu, numProcesses);
    TopKBeatsRest(SortDesc(processes, ByCpu), ByMemory, numProcesses);
  }

  /** The rows whose memory use is `v`. */
  function MemoryIs(v: real): ProcessRow -> bool {
    (p: ProcessRow) => ByMemory(p) == v
  }

  /** Among rows with equal memory use, the memory ranking keeps the CPU order. */
  lemma MemoryTiesKeepCpuOrder(processes: seq<ProcessRow>, numProcesses: nat, v: real)
    ensures SortedDesc(Filter(ProcessTable(processes, numProcesses).byMemory, MemoryIs(v)), ByCpu)
  {
    var byMemory := SortDesc(SortDesc(processes, ByCpu), ByMemory);
    ResortKeepsTies(processes, ByCpu, ByMemory, MemoryIs(v));
    FilterPrefixSorted(byMemory, Min(numProcesses, |processes|), MemoryIs(v), ByCpu);
  }

  lemma PrefixMultiset<T>(xs: seq<T>, n: nat)
    requires n <= |xs|
    ensures multiset(xs[..n]) <= multiset(xs)
  {
    assert xs == xs[..n] + xs[n..];
  }

  /** The rows of a prefix that pass a filter are a prefix of the filtered rows. */
  lemma FilterPrefixSorted<T>(xs: seq<T>, n: nat, p: T -> bool, key: T -> real)
    requires n <= |xs|
    requires SortedDesc(Filter(xs, p), key)
    ensures SortedDesc(Filter(xs[..n], p), key)
  {
    assert xs == xs[..n] + xs[n..];
    FilterAppend(xs[..n], xs[n..], p);
    var f := Filter(xs[..n], p);
    assert forall i :: 0 <= i < |f| ==> f[i] == Filter(xs, p)[i];
  }

  /** The number of bytes `c` takes in UTF-8, the unit of Rust's `str::len` and slicing. */
  function Utf8Len(c: char): (n: nat)
    ensures 1 <= n <= 4
    ensures n == 1 <==> c as int < 0x80
  {
    if c as int < 0x80 then 1
    else if c as int < 0x800 then 2
    else if c as int < 0x10000 then 3
    else 4
  }

  /** `s.len()`: the UTF-8 length in bytes. */
  function ByteLen(s: string): (n: nat)
    ensures |s| <= n
  {
    if |s| == 0 then 0 else Utf8Len(s[0]) + ByteLen(s[1..])
  }

  /** The number of characters ending exactly at byte `n`, when `n` is a character boundary of `s`. */
  function Boundary(s: string, n: nat): (k: Option<nat>)
    ensures k.Some? ==> k.value <= |s| && ByteLen(s[..k.value]) == n
    ensures k.None? <==> forall j :: 0 <= j <= |s| ==> ByteLen(s[..j]) != n
  {
    if n == 0 then
      assert ByteLen(s[..0]) == 0;
      Some(0)
    else if |s| == 0 then
      assert s[..0] == s;
      None
    else if Utf8Len(s[0]) > n then
      assert forall j :: 1 <= j <= |s| ==> s[..j][1..] == s[1..][..j - 1];
      None
    else
      var rest := Boundary(s[1..], n - Utf8Len(s[0]));
      assert forall j :: 1 <= j <= |s| ==> s[..j][1..] == s[1..][..j - 1];
      if rest.None? then None else Some(rest.value + 1)
  }

  const Ellipsis := "\U{2026}"

  /**
   `floor_char_boundary(n)`, counted in characters: the longest prefix of at
   most `n` bytes.
   */
  function FloorBoundary(s: string, n: nat): (k: nat)
    ensures k <= |s| && ByteLen(s[..k]) <= n
    ensures k < |s| ==> ByteLen(s[..k + 1]) > n
  {
    if |s| == 0 || Utf8Len(s[0]) > n then
      assert s[..0] == [];
      assert |s| > 0 ==> s[..1][1..] == [];
      0
    else
      var k := FloorBoundary(s[1..], n - Utf8Len(s[0]));
      assert forall j :: 1 <= j <= |s| ==> s[..j][1..] == s[1..][..j - 1];
      k + 1
  }

  /** A failed string slice prints at most this many bytes of the string. */
  const MaxDisplayLength := 256

  /** The string as a failed slice prints it: its first 256 bytes in backquotes, then `[...]` if cut. */
  function DisplayTrunc(s: string): string {
    var k := FloorBoundary(s, MaxDisplayLength);
    "`" + s[..k] + "`" + (if k < |s| then "[...]" else "")
  }

  /** `max_cmd_chars - 1` with `max_cmd_chars == 0`: the slice end wraps to `usize::MAX`. */
  function SliceEndOutOfRange(s: string): string {
    "byte index 18446744073709551615 is out of bounds of " + DisplayTrunc(s)
  }

  /** Slicing `s` at byte `n`, which falls inside a character: that character and its bytes. */
  function NotCharBoundary(s: string, n: nat): string
    requires n < ByteLen(s)
  {
    var j := FloorBoundary(s, n);
    assert s[..|s|] == s;
    var start := ByteLen(s[..j]);
    "byte index " + NatToString(n) + " is not a char boundary; it is inside " + DebugChar(s[j])
      + " (bytes " + NatToString(start) + ".." + NatToString(start + Utf8Len(s[j])) + ") of " + DisplayTrunc(s)
  }

  /**
   The `format_cmd` closure of `view_process_table` as written: it compares
   the command's BYTE length with the column's character budget and cuts it
   at byte `maxChars - 1`, so a cut inside a multi-byte character panics.
   */
  function FormatCmd(s: string, maxChars: nat): (o: Outcome<string>)
    ensures ByteLen(s) <= maxChars ==> o == Done(s)
    ensures ByteLen(s) > maxChars ==>
      (o.Done? <==> maxChars > 0 && exists k :: 0 <= k <= |s| && ByteLen(s[..k]) == maxChars - 1)
    ensures o.Done? && ByteLen(s) > maxChars ==>
      && 1 <= |o.value| <= maxChars
      && |o.value| - 1 <= |s|
      && o.value[..|o.value| - 1] == s[..|o.value| - 1]
      && o.value[|o.value| - 1..] == Ellipsis
    ensures o.Done? && ByteLen(s) > maxChars ==>
      exists k :: 0 <= k <= |s| && ByteLen(s[..k]) == maxChars - 1 && o.value == s[..k] + Ellipsis
    ensures ByteLen(s) > maxChars == 0 ==> o == Panic(SliceEndOutOfRange(s))
    ensures o.Panic? && maxChars > 0 ==> o == Panic(NotCharBoundary(s, maxChars - 1))
  {
    if ByteLen(s) <= maxChars then Done(s)
    else if maxChars == 0 then Panic(SliceEndOutOfRange(s))
    else
      match Boundary(s, maxChars - 1)
      case None => Panic(NotCharBoundary(s, maxChars - 1))
      case Some(k) =>
        var r := s[..k] + Ellipsis;
        assert r[..|r| - 1] == s[..k];
        Done(r)
  }

  predicate IsAscii(s: string) {
    forall i :: 0 <= i < |s| ==> s[i] as int < 0x80
  }

  lemma {:induction false} AsciiByteLen(s: string)
    requires IsAscii(s)
    ensures ByteLen(s) == |s|
  {
    if |s| > 0 {
      AsciiByteLen(s[1..]);
    }
  }

  /**
   The truncation the closure evidently intends: at most `maxChars`
   characters, the command itself when it fits, otherwise its first
   `maxChars - 1` characters and an ellipsis.
   */
  function FormatCmdByChars(s: string, maxChars: nat): (r: string)
    ensures |r| <= maxChars || r == s
    ensures |s| <= maxChars <==> r == s
    ensures |s| > maxChars > 0 ==> |r| == maxChars && r[..maxChars - 1] == s[..maxChars - 1] && r[maxChars - 1] == Ellipsis[0]
    ensures |s| > maxChars == 0 ==> r == ""
  {
    if |s| <= maxChars then s
    else if maxChars == 0 then ""
    else s[..maxChars - 1] + Ellipsis
  }

  /** On ASCII commands the closure never panics and agrees with the intended truncation. */
  lemma AsciiCmdAgrees(s: string, maxChars: nat)
    requires IsAscii(s) && maxChars > 0
    ensures FormatCmd(s, maxChars) == Done(FormatCmdByChars(s, maxChars))
  {
    AsciiByteLen(s);
    if |s| > maxChars {
      AsciiByteLen(s[..maxChars - 1]);
      var k := Boundary(s, maxChars - 1);
      assert k.Some?;
      AsciiByteLen(s[..k.value]);
    }
  }

  /** A command with an accented letter panics when the cut falls inside that letter. */
  lemma AccentedCmdPanics()
    ensures FormatCmd("caf\U{00E9} x", 5) == Panic(NotCharBoundary("caf\U{00E9} x", 4))
  {
    var s := "caf\U{00E9} x";
    assert ByteLen(s) == 7 by {
      assert s[1..][1..][1..][1..][1..][1..] == "";
    }
    assert Boundary(s, 4).None? by {
      assert s[1..][1..][1..][0] == '\U{00E9}';
      assert Boundary(s[1..][1..][1..], 1).None?;
    }
  }
  /** The message of that panic names the byte, the letter it falls in, and the letter's bytes. */
  lemma AccentedCmdMessage()
    ensures NotCharBoundary("caf\U{00E9} x", 4)
            == "byte index " + "4" + " is not a char boundary; it is inside " + "'\U{00E9}'"
               + " (bytes " + "3" + ".." + "5" + ") of " + ("`" + "caf\U{00E9} x" + "`")
  {
    var s := "caf\U{00E9} x";
    AccentedCmdLayout();
    assert NatToString(4) == "4" && NatToString(3) == "3" && NatToString(5) == "5";
    assert DebugChar('\U{00E9}') == "'\U{00E9}'";
  }

  /** Where byte 4 of "café x" falls, and how the string is displayed. */
  lemma AccentedCmdLayout()
    ensures var s := "caf\U{00E9} x";
      && ByteLen(s) == 7 && FloorBoundary(s, 4) == 3 && s[3] == '\U{00E9}' && ByteLen(s[..3]) == 3
      && DisplayTrunc(s) == "`" + s + "`"
  {
    var s := "caf\U{00E9} x";
    assert ByteLen(s) == 7 by {
      assert s[1..][1..][1..][1..][1..][1..] == "";
    }
    assert FloorBoundary(s, 4) == 3 by {
      assert s[1..][1..][1..][0] == '\U{00E9}';
    }
    assert ByteLen(s[..3]) == 3 by {
      assert s[..3] == "caf";
      AsciiByteLen("caf");
    }
    ShortStringShownWhole(s);
  }

  /** A failed slice of a string of at most 256 bytes prints all of it. */
  lemma ShortStringShownWhole(s: string)
    requires ByteLen(s) <= MaxDisplayLength
    ensures DisplayTrunc(s) == "`" + s + "`"
  {
    FloorBoundaryWhole(s, MaxDisplayLength);
    assert s[..|s|] == s;
  }

  /** A string that fits the byte budget is kept whole. */
  lemma {:induction false} FloorBoundaryWhole(s: string, n: nat)
    requires ByteLen(s) <= n
    ensures FloorBoundary(s, n) == |s|
  {
    if |s| > 0 {
      FloorBoundaryWhole(s[1..], n - Utf8Len(s[0]));
    }
  }


  const ZeroChunk := "chunk size must be non-zero"

  /**
   `view_cpu_bars`: the core usages as fractions, `numPerRow` bars to a
   row; `chunks(0)` panics.
   */
  function CpuBarRows(coreUsage: seq<real>, numPerRow: nat): (o: Outcome<seq<seq<real>>>)
    ensures o.Panic? <==> numPerRow == 0
    ensures o.Done? ==> Flatten(o.value) == Map(coreUsage, (u: real) => u / 100.0)
    ensures o.Done? ==> forall j :: 0 <= j < |o.value| ==> 1 <= |o.value[j]| <= numPerRow
    ensures o.Done? ==> forall j :: 0 <= j < |o.value| - 1 ==> |o.value[j]| == numPerRow
  {
    if numPerRow == 0 then Panic(ZeroChunk)
    else Done(Chunks(Map(coreUsage, (u: real) => u / 100.0), numPerRow))
  }

  datatype Message = Tick | CpuModelClick | ProcessTableClick

  /** What `update` asks of the runtime besides updating the state. */
  datatype Effect = Refresh | WriteClipboard(text: string) | RunCommand(binary: string, args: seq<string>) | NoEffect

  /**
   `update`: a tick refreshes the data, a click on the model copies it, a
   click on the table runs the configured top command unless it is empty.
   */
  function Update(message: Message, cpuModel: string, topCommand: seq<string>): (e: Effect)
    ensures message == Tick <==> e == Refresh
    ensures e.WriteClipboard? <==> message == CpuModelClick
    ensures e.WriteClipboard? ==> e.text == cpuModel
    ensures e.RunCommand? <==> message == ProcessTableClick && |topCommand| > 0
    ensures e.RunCommand? ==> [e.binary] + e.args == topCommand
  {
    match message
    case Tick => Refresh
    case CpuModelClick => WriteClipboard(cpuModel)
    case ProcessTableClick =>
      if |topCommand| == 0 then NoEffect
      else
        assert [topCommand[0]] + topCommand[1..] == topCommand;
        RunCommand(topCommand[0], topCommand[1..])
  }
}

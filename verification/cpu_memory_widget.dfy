/**
 `CpuMemoryWidget`: the GTK CPU and memory widget. It lays out one bar per
 CPU, sends usages to the bars and raw values to the two graphs, and fills
 the two process lists (by CPU and by memory) from one sorted process table.
 */
module CpuMemoryWidget {
  import opened Wrappers
  import opened Seqs
  import opened Machine
  import opened Ranking
  import opened CpuCommon
  import opened Text
  import CpuMemory
  import History

  /** The model name shown: the brand without the trademark signs. */
  function CpuModel(brand: string): (r: string)
    ensures |r| <= |brand|
  {
    CleanModel(brand, TrademarkSigns)
  }

  /** A brand without a parenthesis is shown as it is. */
  lemma PlainBrandUnchanged(brand: string)
    requires '(' !in brand
    ensures CpuModel(brand) == brand
  {
    RemoveFromParenFree(brand, "(R)");
    RemoveFromParenFree(brand, "(TM)");
    assert TrademarkSigns[1..] == ["(TM)"] && TrademarkSigns[1..][1..] == [];
  }

  /** A brand of the usual shape, `a(R)b(TM)c` with no other `(`, is shown as `abc`. */
  lemma MarkedBrandCleaned(a: string, b: string, c: string)
    requires ParenFree(a) && ParenFree(b) && ParenFree(c)
    ensures CpuModel(a + "(R)" + b + "(TM)" + c) == a + b + c
  {
    CleanModelDropsMarks(a, b, c);
  }

  /**
   `build_cpu_bars`: the spacing between the bars of a row, from the
   container width (with `num_per_row` truncated to `u32`) and handed to
   each row box as an `i32`, then the rows.
   */
  method BuildCpuBars(numCpus: nat, numPerRow: nat, containerWidth: nat, width: nat) returns (o: Outcome<(int, Bars)>)
    requires IsU32(containerWidth) && IsU32(width)
    ensures o.Panic? <==> WrapU32(numPerRow) == 1 || (numCpus > 0 && numPerRow == 0)
    ensures o.Done? ==> o.value.0 == AsI32(BarSpacing(containerWidth, WrapU32(numPerRow), width).value)
    ensures o.Done? ==> -I32Span <= o.value.0 < I32Span
    ensures o.Done? ==> o.value.1.senders == Range(numCpus)
    ensures o.Done? && numPerRow > 0 ==> o.value.1.rows == Chunks(Range(numCpus), numPerRow)
  {
    var spacing := BarSpacing(containerWidth, WrapU32(numPerRow), width);
    if spacing.Panic? {
      return Panic(spacing.reason);
    }
    var bars := GroupBars(numCpus, numPerRow);
    if bars.Panic? {
      return Panic(bars.reason);
    }
    if numPerRow > 0 {
      RowsAreChunks(bars.value.rows, Range(numCpus), numPerRow);
    }
    return Done((AsI32(spacing.value), bars.value));
  }

  /** A sensor of this sysinfo version: the temperature is always there. */
  datatype Sensor = Sensor(name: string, temperature: real)

  predicate IsPackage(s: Sensor) {
    s.name == CpuMemory.PackageSensor
  }

  /** The labels and the values sent to the bars and the CPU graph. */
  datatype CpuReadout = CpuReadout(frequency: real, temperature: real, usage: real, barValues: seq<real>, graphValue: real)

  /**
   `update_cpu`: the global frequency in GHz, the package temperature (which
   must exist), the global usage, one fraction per bar while both CPUs and
   bars last, and the global usage in percent for the CPU graph.
   */
  function UpdateCpu(globalFrequency: nat, globalUsage: real, coreUsage: seq<real>, sensors: seq<Sensor>, numBars: nat): (o: Outcome<CpuReadout>)
    ensures o.Panic? <==> Find(sensors, IsPackage).None?
    ensures o.Done? ==>
      && o.value.frequency * 1000.0 == globalFrequency as real
      && o.value.temperature == Find(sensors, IsPackage).value.temperature
      && o.value.usage == globalUsage
      && o.value.graphValue == globalUsage
      && |o.value.barValues| == Min(|coreUsage|, numBars)
      && forall i :: 0 <= i < |o.value.barValues| ==> o.value.barValues[i] * 100.0 == coreUsage[i]
  {
    match Find(sensors, IsPackage)
    case None => Panic(CpuMemory.MissingValue)
    case Some(sensor) =>
      Done(CpuReadout(globalFrequency as real / 1000.0, sensor.temperature, globalUsage,
                      Take(Map(coreUsage, (u: real) => u / 100.0), numBars), globalUsage))
  }

  /**
   With one bar per CPU, the GTK bars show the same values, in the same
   order, as the iced component's rows of bars.
   */
  lemma BarsAgreeWithIced(globalFrequency: nat, globalUsage: real, coreUsage: seq<real>, sensors: seq<Sensor>, numPerRow: nat)
    requires Find(sensors, IsPackage).Some? && numPerRow > 0
    ensures UpdateCpu(globalFrequency, globalUsage, coreUsage, sensors, |coreUsage|).value.barValues
         == Flatten(CpuMemory.CpuBarRows(coreUsage, numPerRow).value)
  {
    var bars := UpdateCpu(globalFrequency, globalUsage, coreUsage, sensors, |coreUsage|).value.barValues;
    var rows := Flatten(CpuMemory.CpuBarRows(coreUsage, numPerRow).value);
    assert forall i :: 0 <= i < |bars| ==> bars[i] == rows[i];
  }

  /** The memory labels in bytes (from KiB, wrapping in `u64`) and the graph's raw value in KiB. */
  datatype MemoryReadout = MemoryReadout(usedBytes: nat, totalBytes: nat, share: Ratio, graphValue: nat)

  function Percent(r: Ratio): Ratio {
    if r.Finite? then Finite(r.value * 100.0) else NonFinite
  }

  /** `update_memory`. */
  function UpdateMemory(usedKib: nat, totalKib: nat): (m: MemoryReadout)
    ensures m.usedBytes == WrapU64(usedKib * 1024) && m.totalBytes == WrapU64(totalKib * 1024)
    ensures m.graphValue == usedKib
    ensures m.share.Finite? <==> m.totalBytes != 0
    ensures m.share.Finite? ==> m.share.value * m.totalBytes as real == 100.0 * m.usedBytes as real
  {
    var used := WrapU64(usedKib * 1024);
    var total := WrapU64(totalKib * 1024);
    MemoryReadout(used, total, Percent(Divide(used as real, total as real)), usedKib)
  }

  /**
   Below 16 EiB the percentage is the share of memory in use, and the graph
   (scaled by the total in KiB) draws the same fraction the iced component
   keeps in its history.
   */
  lemma MemoryShareWithoutOverflow(usedKib: nat, totalKib: nat, memoryHistory: History.Queue<Ratio>, swapHistory: History.Queue<Ratio>)
    requires 0 < totalKib && usedKib * 1024 < U64Modulus && totalKib * 1024 < U64Modulus
    requires memoryHistory.Valid() && swapHistory.Valid() && memoryHistory.capacity > 0
    ensures UpdateMemory(usedKib, totalKib).share == Finite(100.0 * usedKib as real / totalKib as real)
    ensures Divide(UpdateMemory(usedKib, totalKib).graphValue as real, totalKib as real)
         == CpuMemory.UpdateMemory(memoryHistory, swapHistory, usedKib, 0, totalKib, 0).1.items[0]
  {
    var m := UpdateMemory(usedKib, totalKib);
    assert m.usedBytes == usedKib * 1024 && m.totalBytes == totalKib * 1024;
    var x, u, t := m.share.value, usedKib as real, totalKib as real;
    assert x * (t * 1024.0) == 100.0 * (u * 1024.0);
    assert (x * t) * 1024.0 == (100.0 * u) * 1024.0;
    assert x * t == 100.0 * u;
    assert x == 100.0 * u / t;
  }

  /** A process of this sysinfo version: one probe gives status, usage and command. */
  datatype Process = Process(pid: nat, name: string, cmd: seq<string>, status: Status, cpuUsage: real, memory: nat)

  predicate IsRunning(p: Process) {
    Running(p.status)
  }

  function ProcessCpu(p: Process): real {
    p.cpuUsage
  }

  function ProcessMemory(p: Process): real {
    p.memory as real
  }

  /** The four cells of a process row: the CPU share per core, and memory from KiB to bytes. */
  datatype Row = Row(command: string, pid: nat, cpu: Ratio, memoryBytes: nat)

  function RowOf(p: Process, numCpus: nat): (r: Row)
    ensures r.command == CommandLine(p.name, p.cmd) && r.pid == p.pid
    ensures numCpus > 0 ==> r.cpu == Finite(p.cpuUsage / numCpus as real)
    ensures p.memory * 1024 < U64Modulus ==> r.memoryBytes == p.memory * 1024
  {
    Row(CommandLine(p.name, p.cmd), p.pid, Divide(p.cpuUsage, numCpus as real), WrapU64(p.memory * 1024))
  }

  /** The process counts and the two lists of `update_processes`. */
  datatype ProcessList = ProcessList(numRunning: nat, numProcesses: nat, byCpu: seq<Process>, byMemory: seq<Process>)

  /** `v[..end]` on a vector shorter than `end`. */
  function SliceTooShort(end: nat, len: nat): string {
    "range end index " + NatToString(end) + " out of range for slice of length " + NatToString(len)
  }

  /**
   `update_processes`: the running and total counts, then the first
   `numShown` processes by CPU, then (sorting the same table again) by
   memory; a table shorter than `numShown` panics.
   */
  function UpdateProcesses(processes: seq<Process>, numShown: nat): (o: Outcome<ProcessList>)
    ensures o.Panic? <==> numShown > |processes|
    ensures o.Panic? ==> o.reason == SliceTooShort(numShown, |processes|)
    ensures o.Done? ==> o.value.numRunning == Count(processes, IsRunning) <= o.value.numProcesses == |processes|
    ensures o.Done? ==> |o.value.byCpu| == numShown == |o.value.byMemory|
    ensures o.Done? ==> o.value.byCpu == TopK(processes, ProcessCpu, numShown)
    ensures o.Done? ==> o.value.byMemory == TopK(SortDesc(processes, ProcessCpu), ProcessMemory, numShown)
  {
    if numShown > |processes| then Panic(SliceTooShort(numShown, |processes|))
    else
      var byCpu := SortDesc(processes, ProcessCpu);
      var byMemory := SortDesc(byCpu, ProcessMemory);
      Done(ProcessList(Count(processes, IsRunning), |processes|, byCpu[..numShown], byMemory[..numShown]))
  }

  /**
   Both lists show processes of the table, in order, and no process left
   out of a list uses more than one shown in it.
   */
  lemma ShownBeatHidden(processes: seq<Process>, numShown: nat)
    requires numShown <= |processes|
    ensures var l := UpdateProcesses(processes, numShown).value;
      && SortedDesc(l.byCpu, ProcessCpu) && SortedDesc(l.byMemory, ProcessMemory)
      && multiset(l.byCpu) <= multiset(processes) && multiset(l.byMemory) <= multiset(processes)
      && (forall q, i :: q in multiset(processes) - multiset(l.byCpu) && 0 <= i < numShown ==>
            ProcessCpu(l.byCpu[i]) >= ProcessCpu(q))
      && (forall q, i :: q in multiset(processes) - multiset(l.byMemory) && 0 <= i < numShown ==>
            ProcessMemory(l.byMemory[i]) >= ProcessMemory(q))
  {
    var byCpu := SortDesc(processes, ProcessCpu);
    TopKBeatsRest(processes, ProcessCpu, numShown);
    TopKBeatsRest(byCpu, ProcessMemory, numShown);
    TopKSpec(processes, ProcessCpu, numShown);
    TopKSpec(byCpu, ProcessMemory, numShown);
  }
}

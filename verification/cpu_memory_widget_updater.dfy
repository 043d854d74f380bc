/**
 `CpuMemoryWidgetUpdater`: the variant of the GTK CPU widget whose bars are
 spaced by a configured margin rather than one computed from the container,
 and which shows only the process counts, not the process lists.
 */
module CpuMemoryWidgetUpdater {
  import opened Wrappers
  import opened Seqs
  import opened CpuCommon
  import CpuMemoryWidget

  /** `create_cpu_bars`: the rows and senders of the bar layout, with no spacing arithmetic. */
  method CreateCpuBars(numCpus: nat, numPerRow: nat) returns (o: Outcome<Bars>)
    ensures o.Panic? <==> numCpus > 0 && numPerRow == 0
    ensures o.Done? ==> o.value.senders == Range(numCpus)
    ensures o.Done? && numPerRow > 0 ==> o.value.rows == Chunks(Range(numCpus), numPerRow)
  {
    o := GroupBars(numCpus, numPerRow);
    if o.Done? && numPerRow > 0 {
      RowsAreChunks(o.value.rows, Range(numCpus), numPerRow);
    }
  }

  /** `update_static_props`: the same model name as the widget's. */
  function CpuModel(brand: string): (r: string)
    ensures |r| <= |brand|
    ensures '(' !in brand ==> r == brand
  {
    if '(' in brand then CpuMemoryWidget.CpuModel(brand)
    else
      CpuMemoryWidget.PlainBrandUnchanged(brand);
      CpuMemoryWidget.CpuModel(brand)
  }

  /** A brand of the usual shape, `a(R)b(TM)c` with no other `(`, is shown as `abc`. */
  lemma MarkedBrandCleaned(a: string, b: string, c: string)
    requires ParenFree(a) && ParenFree(b) && ParenFree(c)
    ensures CpuModel(a + "(R)" + b + "(TM)" + c) == a + b + c
  {
    CpuMemoryWidget.MarkedBrandCleaned(a, b, c);
  }

  /** `update_cpu`: the widget's readout without a CPU graph. */
  function UpdateCpu(globalFrequency: nat, globalUsage: real, coreUsage: seq<real>,
                     sensors: seq<CpuMemoryWidget.Sensor>, numBars: nat): (o: Outcome<(real, real, real, seq<real>)>)
    ensures o.Panic? <==> Find(sensors, CpuMemoryWidget.IsPackage).None?
    ensures o.Done? ==>
      && o.value.0 * 1000.0 == globalFrequency as real
      && o.value.1 == Find(sensors, CpuMemoryWidget.IsPackage).value.temperature
      && o.value.2 == globalUsage
      && |o.value.3| == Min(|coreUsage|, numBars)
      && forall i :: 0 <= i < |o.value.3| ==> o.value.3[i] * 100.0 == coreUsage[i]
  {
    match CpuMemoryWidget.UpdateCpu(globalFrequency, globalUsage, coreUsage, sensors, numBars)
    case Panic(reason) => Panic(reason)
    case Done(r) => Done((r.frequency, r.temperature, r.usage, r.barValues))
  }

  /** `update_processes`: the running count and the total. */
  function ProcessCounts(statuses: seq<Status>): (c: (nat, nat))
    ensures c.0 == Count(statuses, Running) && c.1 == |statuses|
    ensures c.0 <= c.1
    ensures c.0 == |statuses| <==> forall i :: 0 <= i < |statuses| ==> Running(statuses[i])
    ensures c.0 == 0 <==> forall i :: 0 <= i < |statuses| ==> !Running(statuses[i])
  {
    CountAllOrNone(statuses);
    (Count(statuses, Running), |statuses|)
  }

  lemma {:induction false} CountAllOrNone(xs: seq<Status>)
    ensures Count(xs, Running) == |xs| <==> forall i :: 0 <= i < |xs| ==> Running(xs[i])
    ensures Count(xs, Running) == 0 <==> forall i :: 0 <= i < |xs| ==> !Running(xs[i])
  {
    if |xs| > 0 {
      CountAllOrNone(xs[1..]);
      assert forall i :: 1 <= i < |xs| ==> xs[i] == xs[1..][i - 1];
    }
  }
}

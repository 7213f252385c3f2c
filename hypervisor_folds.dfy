/**
 * What each Cloud Hypervisor conversion computes from the samples it
 * reads, as functions: the memory figures derived from the meminfo items,
 * the load average, the process counts, and the network and disk folds
 * that accumulate totals and per-interface or per-device records sample by
 * sample. The lemmas tie each figure back to the samples.
 */
module HypervisorFolds {
  import opened Wrappers
  import opened Float
  import opened PrometheusParser
  import opened CadvisorLabels
  import opened CadvisorFormat
  import opened CadvisorNetwork
  import opened CadvisorDisk
  import opened CadvisorProcess
  import opened HypervisorSamples

  /** The last sample carrying `item` is the one at `i`. */
  predicate LastOf(samples: seq<MetricSample>, item: string, i: nat)
  {
    i < |samples| && Label(samples[i], "item") == Some(item)
    && forall j :: i < j < |samples| ==> Label(samples[j], "item") != Some(item)
  }

  /** No sample carries `item`. */
  predicate Missing(samples: seq<MetricSample>, item: string)
  {
    forall i :: 0 <= i < |samples| ==> Label(samples[i], "item") != Some(item)
  }

  /** An item no sample carries is not in the map. */
  lemma ItemAbsent(samples: seq<MetricSample>, item: string)
    requires Missing(samples, item)
    ensures item !in ItemMap(samples)
  {
    ItemMapKeys(samples, item);
  }

  // ---- memory ----

  /** `u64::saturating_sub`. */
  function SaturatingSub(a: nat, b: nat): (r: nat)
    ensures b <= a ==> r + b == a
    ensures a <= b ==> r == 0
  {
    if a >= b then a - b else 0
  }

  /** The memory figures derived from the meminfo items; no failure counters. */
  function MemoryFromInfo(info: map<string, nat>, labels: StandardLabels): MemoryMetrics
  {
    MemoryMetrics(
      if "memtotal" in info && "memfree" in info then SaturatingSub(info["memtotal"], info["memfree"]) else 0,
      if "active" in info && "inactive_file" in info then Some(info["active"] + info["inactive_file"]) else None,
      if "cached" in info && "buffers" in info then Some(info["cached"] + info["buffers"]) else None,
      if "anon_pages" in info then Some(info["anon_pages"]) else None,
      if "swaptotal" in info && "swapfree" in info then Some(SaturatingSub(info["swaptotal"], info["swapfree"])) else None,
      if "mapped" in info then Some(info["mapped"]) else None,
      map[],
      labels)
  }

  /**
   * Memory usage is the last `memtotal` less the last `memfree`, floored at
   * zero; without either it is zero.
   */
  lemma MemoryUsage(samples: seq<MetricSample>, labels: StandardLabels, t: nat, f: nat)
    ensures LastOf(samples, "memtotal", t) && LastOf(samples, "memfree", f) ==>
      MemoryFromInfo(Casts(ItemMap(samples)), labels).usageBytes == SaturatingSub(AsU64(samples[t].value), AsU64(samples[f].value))
    ensures Missing(samples, "memtotal") || Missing(samples, "memfree") ==>
      MemoryFromInfo(Casts(ItemMap(samples)), labels).usageBytes == 0
  {
    if LastOf(samples, "memtotal", t) && LastOf(samples, "memfree", f) {
      ItemMapLast(samples, "memtotal", t);
      ItemMapLast(samples, "memfree", f);
    }
    if Missing(samples, "memtotal") {
      ItemAbsent(samples, "memtotal");
    }
    if Missing(samples, "memfree") {
      ItemAbsent(samples, "memfree");
    }
  }

  /** The working set is the last `active` plus the last `inactive_file`, only when both are present. */
  lemma MemoryWorkingSet(samples: seq<MetricSample>, labels: StandardLabels, a: nat, i: nat)
    ensures LastOf(samples, "active", a) && LastOf(samples, "inactive_file", i) ==>
      MemoryFromInfo(Casts(ItemMap(samples)), labels).workingSetBytes == Some(AsU64(samples[a].value) + AsU64(samples[i].value))
    ensures Missing(samples, "active") || Missing(samples, "inactive_file") ==>
      MemoryFromInfo(Casts(ItemMap(samples)), labels).workingSetBytes == None
  {
    if LastOf(samples, "active", a) && LastOf(samples, "inactive_file", i) {
      ItemMapLast(samples, "active", a);
      ItemMapLast(samples, "inactive_file", i);
    }
    if Missing(samples, "active") { ItemAbsent(samples, "active"); }
    if Missing(samples, "inactive_file") { ItemAbsent(samples, "inactive_file"); }
  }

  /** The cache is the last `cached` plus the last `buffers`, only when both are present. */
  lemma MemoryCache(samples: seq<MetricSample>, labels: StandardLabels, c: nat, b: nat)
    ensures LastOf(samples, "cached", c) && LastOf(samples, "buffers", b) ==>
      MemoryFromInfo(Casts(ItemMap(samples)), labels).cacheBytes == Some(AsU64(samples[c].value) + AsU64(samples[b].value))
    ensures Missing(samples, "cached") || Missing(samples, "buffers") ==>
      MemoryFromInfo(Casts(ItemMap(samples)), labels).cacheBytes == None
  {
    if LastOf(samples, "cached", c) && LastOf(samples, "buffers", b) {
      ItemMapLast(samples, "cached", c);
      ItemMapLast(samples, "buffers", b);
    }
    if Missing(samples, "cached") { ItemAbsent(samples, "cached"); }
    if Missing(samples, "buffers") { ItemAbsent(samples, "buffers"); }
  }

  /**
   * Swap is `swaptotal` less `swapfree`, floored at zero, when both are
   * present; RSS is `anon_pages` and mapped memory `mapped`, when present.
   */
  lemma MemoryCopies(samples: seq<MetricSample>, labels: StandardLabels, t: nat, f: nat, r: nat, m: nat)
    ensures LastOf(samples, "swaptotal", t) && LastOf(samples, "swapfree", f) ==>
      MemoryFromInfo(Casts(ItemMap(samples)), labels).swapBytes == Some(SaturatingSub(AsU64(samples[t].value), AsU64(samples[f].value)))
    ensures Missing(samples, "swaptotal") || Missing(samples, "swapfree") ==>
      MemoryFromInfo(Casts(ItemMap(samples)), labels).swapBytes == None
    ensures LastOf(samples, "anon_pages", r) ==> MemoryFromInfo(Casts(ItemMap(samples)), labels).rssBytes == Some(AsU64(samples[r].value))
    ensures Missing(samples, "anon_pages") ==> MemoryFromInfo(Casts(ItemMap(samples)), labels).rssBytes == None
    ensures LastOf(samples, "mapped", m) ==> MemoryFromInfo(Casts(ItemMap(samples)), labels).mappedFileBytes == Some(AsU64(samples[m].value))
    ensures Missing(samples, "mapped") ==> MemoryFromInfo(Casts(ItemMap(samples)), labels).mappedFileBytes == None
  {
    if LastOf(samples, "swaptotal", t) && LastOf(samples, "swapfree", f) {
      ItemMapLast(samples, "swaptotal", t);
      ItemMapLast(samples, "swapfree", f);
    }
    if LastOf(samples, "anon_pages", r) { ItemMapLast(samples, "anon_pages", r); }
    if LastOf(samples, "mapped", m) { ItemMapLast(samples, "mapped", m); }
    if Missing(samples, "swaptotal") { ItemAbsent(samples, "swaptotal"); }
    if Missing(samples, "swapfree") { ItemAbsent(samples, "swapfree"); }
    if Missing(samples, "anon_pages") { ItemAbsent(samples, "anon_pages"); }
    if Missing(samples, "mapped") { ItemAbsent(samples, "mapped"); }
  }

  // ---- CPU, load average and process counts ----

  /**
   * The CPU figures: the total of the jiffies cast to `u64`, and the user and
   * system jiffies as read, each divided by the conversion factor, and the
   * load average.
   */
  function CpuFrom(samples: seq<MetricSample>, loads: seq<MetricSample>, factor: real, labels: StandardLabels): CpuMetrics
    requires factor > 0.0
  {
    CpuMetrics(
      Sum(Jiffies, samples) as real / factor,
      RealSum(CpuItem("user"), samples) / factor,
      RealSum(CpuItem("system"), samples) / factor,
      LoadAverageFrom(ItemMap(loads)),
      labels)
  }

  /** Dividing a sum is summing the divided parts. */
  lemma DivideSum(a: real, b: real, factor: real)
    requires factor > 0.0
    ensures a / factor + b / factor == (a + b) / factor
  {
  }

  /**
   * The CPU usage is the cast user, system, guest and nice jiffies, all on
   * the aggregated `cpu="total"` samples, over the factor; when every value
   * is a whole number within `u64` it is the user time plus the system time
   * plus the guest and nice time.
   */
  lemma CpuUsageSplit(samples: seq<MetricSample>, loads: seq<MetricSample>, factor: real, labels: StandardLabels)
    requires factor > 0.0
    ensures CpuFrom(samples, loads, factor, labels).usageSecondsTotal ==
      (Sum(CpuItem("user"), samples) + Sum(CpuItem("system"), samples)
       + Sum(CpuItem("guest"), samples) + Sum(CpuItem("nice"), samples)) as real / factor
    ensures (forall i :: 0 <= i < |samples| ==> IsWholeCount(samples[i].value)) ==>
      CpuFrom(samples, loads, factor, labels).usageSecondsTotal ==
      CpuFrom(samples, loads, factor, labels).userSecondsTotal + CpuFrom(samples, loads, factor, labels).systemSecondsTotal
      + (Sum(CpuItem("guest"), samples) + Sum(CpuItem("nice"), samples)) as real / factor
  {
    CpuUsageJiffies(samples, loads, factor, labels);
    if forall i :: 0 <= i < |samples| ==> IsWholeCount(samples[i].value) {
      CpuWholeSplit(samples, loads, factor, labels);
    }
  }

  lemma CpuUsageJiffies(samples: seq<MetricSample>, loads: seq<MetricSample>, factor: real, labels: StandardLabels)
    requires factor > 0.0
    ensures CpuFrom(samples, loads, factor, labels).usageSecondsTotal ==
      (Sum(CpuItem("user"), samples) + Sum(CpuItem("system"), samples)
       + Sum(CpuItem("guest"), samples) + Sum(CpuItem("nice"), samples)) as real / factor
  {
    JiffiesByItem(samples);
  }

  lemma CpuWholeSplit(samples: seq<MetricSample>, loads: seq<MetricSample>, factor: real, labels: StandardLabels)
    requires factor > 0.0
    requires forall i :: 0 <= i < |samples| ==> IsWholeCount(samples[i].value)
    ensures CpuFrom(samples, loads, factor, labels).usageSecondsTotal ==
      CpuFrom(samples, loads, factor, labels).userSecondsTotal + CpuFrom(samples, loads, factor, labels).systemSecondsTotal
      + (Sum(CpuItem("guest"), samples) + Sum(CpuItem("nice"), samples)) as real / factor
  {
    CpuUsageJiffies(samples, loads, factor, labels);
    WholeJiffies(samples, factor);
  }

  /** With whole counts, the divided jiffy total splits into the user, system and remaining seconds. */
  lemma WholeJiffies(samples: seq<MetricSample>, factor: real)
    requires factor > 0.0
    requires forall i :: 0 <= i < |samples| ==> IsWholeCount(samples[i].value)
    ensures (Sum(CpuItem("user"), samples) + Sum(CpuItem("system"), samples)
       + Sum(CpuItem("guest"), samples) + Sum(CpuItem("nice"), samples)) as real / factor ==
      RealSum(CpuItem("user"), samples) / factor + RealSum(CpuItem("system"), samples) / factor
      + (Sum(CpuItem("guest"), samples) + Sum(CpuItem("nice"), samples)) as real / factor
  {
    RealSumOfWholeCounts(CpuItem("user"), samples);
    RealSumOfWholeCounts(CpuItem("system"), samples);
    SplitSeconds(samples, factor);
  }

  lemma SplitSeconds(samples: seq<MetricSample>, factor: real)
    requires factor > 0.0
    requires RealSum(CpuItem("user"), samples) == Sum(CpuItem("user"), samples) as real
    requires RealSum(CpuItem("system"), samples) == Sum(CpuItem("system"), samples) as real
    ensures (Sum(CpuItem("user"), samples) + Sum(CpuItem("system"), samples)
       + Sum(CpuItem("guest"), samples) + Sum(CpuItem("nice"), samples)) as real / factor ==
      RealSum(CpuItem("user"), samples) / factor + RealSum(CpuItem("system"), samples) / factor
      + (Sum(CpuItem("guest"), samples) + Sum(CpuItem("nice"), samples)) as real / factor
  {
    DivideFour(Sum(CpuItem("user"), samples), Sum(CpuItem("system"), samples),
      Sum(CpuItem("guest"), samples), Sum(CpuItem("nice"), samples),
      RealSum(CpuItem("user"), samples), RealSum(CpuItem("system"), samples), factor);
  }

  lemma DivideFour(u: nat, s: nat, g: nat, n: nat, ru: real, rs: real, factor: real)
    requires factor > 0.0 && ru == u as real && rs == s as real
    ensures (u + s + g + n) as real / factor == ru / factor + rs / factor + (g + n) as real / factor
  {
    DivideSum(u as real, s as real, factor);
    DivideSum((u + s) as real, (g + n) as real, factor);
    assert (u + s + g + n) as real == (u + s) as real + (g + n) as real;
  }

  /** A load figure, 0.0 when its item is missing. */
  function LoadValue(loads: map<string, F64>, item: string): real
  {
    if item in loads then ToReal(loads[item]) else 0.0
  }

  /** No load average without any load item; otherwise the three figures. */
  function LoadAverageFrom(loads: map<string, F64>): Option<LoadAverage>
  {
    if loads == map[] then None
    else Some(LoadAverage(LoadValue(loads, "load1"), LoadValue(loads, "load5"), LoadValue(loads, "load15")))
  }

  /** The item map is empty exactly when no sample carries an item. */
  lemma {:induction false} ItemMapEmpty(samples: seq<MetricSample>)
    ensures ItemMap(samples) == map[] <==> forall i :: 0 <= i < |samples| ==> "item" !in samples[i].labels
    decreases |samples|
  {
    if |samples| != 0 {
      var n := |samples| - 1;
      ItemMapEmpty(samples[..n]);
      var s := samples[n];
      if "item" in s.labels {
        assert s.labels["item"] in ItemMap(samples);
      }
      assert forall i :: 0 <= i < n ==> samples[..n][i] == samples[i];
    }
  }

  /** A load average is reported exactly when some load sample carries an item. */
  lemma LoadPresence(samples: seq<MetricSample>)
    ensures LoadAverageFrom(ItemMap(samples)).Some? <==> exists i :: 0 <= i < |samples| && "item" in samples[i].labels
  {
    ItemMapEmpty(samples);
  }

  /** The last `load1`, `load5` and `load15` values, each 0.0 when missing. */
  lemma LoadFigures(samples: seq<MetricSample>, i: nat)
    requires LoadAverageFrom(ItemMap(samples)).Some?
    ensures LastOf(samples, "load1", i) ==> LoadAverageFrom(ItemMap(samples)).value.oneMinute == ToReal(samples[i].value)
    ensures Missing(samples, "load1") ==> LoadAverageFrom(ItemMap(samples)).value.oneMinute == 0.0
    ensures LastOf(samples, "load5", i) ==> LoadAverageFrom(ItemMap(samples)).value.fiveMinute == ToReal(samples[i].value)
    ensures Missing(samples, "load5") ==> LoadAverageFrom(ItemMap(samples)).value.fiveMinute == 0.0
    ensures LastOf(samples, "load15", i) ==> LoadAverageFrom(ItemMap(samples)).value.fifteenMinute == ToReal(samples[i].value)
    ensures Missing(samples, "load15") ==> LoadAverageFrom(ItemMap(samples)).value.fifteenMinute == 0.0
  {
    if LastOf(samples, "load1", i) { ItemMapLast(samples, "load1", i); }
    if Missing(samples, "load1") { ItemAbsent(samples, "load1"); }
    if LastOf(samples, "load5", i) { ItemMapLast(samples, "load5", i); }
    if Missing(samples, "load5") { ItemAbsent(samples, "load5"); }
    if LastOf(samples, "load15", i) { ItemMapLast(samples, "load15", i); }
    if Missing(samples, "load15") { ItemAbsent(samples, "load15"); }
  }

  /** The process figures: the task items, the summed thread and descriptor gauges. */
  function ProcessFrom(tasks: map<string, nat>, threads: nat, fds: nat, labels: StandardLabels): ProcessMetrics
  {
    ProcessMetrics(
      if "cur" in tasks then tasks["cur"] else 0,
      threads,
      if "max" in tasks then Some(tasks["max"]) else None,
      fds,
      map[],
      labels)
  }

  /** The process count is the last `cur` task sample, the thread limit the last `max` one. */
  lemma TaskFigures(samples: seq<MetricSample>, threads: nat, fds: nat, labels: StandardLabels, c: nat, m: nat)
    ensures LastOf(samples, "cur", c) ==> ProcessFrom(Casts(ItemMap(samples)), threads, fds, labels).count == AsU64(samples[c].value)
    ensures Missing(samples, "cur") ==> ProcessFrom(Casts(ItemMap(samples)), threads, fds, labels).count == 0
    ensures LastOf(samples, "max", m) ==>
      ProcessFrom(Casts(ItemMap(samples)), threads, fds, labels).threadCountMax == Some(AsU64(samples[m].value))
    ensures Missing(samples, "max") ==> ProcessFrom(Casts(ItemMap(samples)), threads, fds, labels).threadCountMax == None
  {
    if LastOf(samples, "cur", c) { ItemMapLast(samples, "cur", c); }
    if Missing(samples, "cur") { ItemAbsent(samples, "cur"); }
    if LastOf(samples, "max", m) { ItemMapLast(samples, "max", m); }
    if Missing(samples, "max") { ItemAbsent(samples, "max"); }
  }

  // ---- network ----

  /** What the network conversion has accumulated: the totals and the interfaces seen so far. */
  datatype NetState = NetState(totals: NetworkMetrics, interfaces: map<string, InterfaceMetrics>)

  /** `InterfaceMetrics::default()`. */
  const NoInterface := InterfaceMetrics("", 0, 0, 0, 0, None, None, None, None)

  /** `NetworkMetrics::default()`. */
  const NoNetwork := NetworkMetrics(0, 0, 0, 0, None, None, None, None, map[], DefaultLabels)

  /** `Some(total.unwrap_or(0) + v)`. */
  function AddTo(total: Option<nat>, v: nat): (r: Option<nat>)
    ensures r.Some? && r.value == (if total.Some? then total.value else 0) + v
  {
    Some((if total.Some? then total.value else 0) + v)
  }

  /**
   * One network sample: a sample of an accepted interface gets the
   * interface's record (created on first sight, named after it), sets the
   * item's field there and adds the value to the item's total.
   */
  function NetStep(patterns: seq<string>, st: NetState, s: MetricSample): NetState
  {
    match AcceptedInterface(patterns, s)
    case None => st
    case Some(name) =>
      var iface := (if name in st.interfaces then st.interfaces[name] else NoInterface).(name := name);
      var n, v := st.totals, AsU64(s.value);
      match NetItemOf(Label(s, "item"))
      case RecvBytes =>
        NetState(n.(receiveBytesTotal := n.receiveBytesTotal + v), st.interfaces[name := iface.(receiveBytes := v)])
      case XmitBytes =>
        NetState(n.(transmitBytesTotal := n.transmitBytesTotal + v), st.interfaces[name := iface.(transmitBytes := v)])
      case RecvPackets =>
        NetState(n.(receivePacketsTotal := n.receivePacketsTotal + v), st.interfaces[name := iface.(receivePackets := v)])
      case XmitPackets =>
        NetState(n.(transmitPacketsTotal := n.transmitPacketsTotal + v), st.interfaces[name := iface.(transmitPackets := v)])
      case RecvErrs =>
        NetState(n.(receiveErrorsTotal := AddTo(n.receiveErrorsTotal, v)),
          st.interfaces[name := iface.(receiveErrors := Some(v))])
      case XmitErrs =>
        NetState(n.(transmitErrorsTotal := AddTo(n.transmitErrorsTotal, v)),
          st.interfaces[name := iface.(transmitErrors := Some(v))])
      case RecvDrop =>
        NetState(n.(receivePacketsDroppedTotal := AddTo(n.receivePacketsDroppedTotal, v)),
          st.interfaces[name := iface.(receiveDropped := Some(v))])
      case XmitDrop =>
        NetState(n.(transmitPacketsDroppedTotal := AddTo(n.transmitPacketsDroppedTotal, v)),
          st.interfaces[name := iface.(transmitDropped := Some(v))])
      case OtherNetItem =>
        NetState(n, st.interfaces[name := iface])
  }

  /** The network samples folded in order from no totals and no interfaces. */
  function NetFold(patterns: seq<string>, samples: seq<MetricSample>): (r: NetState)
    ensures r.totals.perInterface == map[]
    decreases |samples|
  {
    if |samples| == 0 then NetState(NoNetwork, map[])
    else
      var n := |samples| - 1;
      NetStep(patterns, NetFold(patterns, samples[..n]), samples[n])
  }

  lemma NetFoldSnoc(patterns: seq<string>, a: seq<MetricSample>, x: MetricSample)
    ensures NetFold(patterns, a + [x]) == NetStep(patterns, NetFold(patterns, a), x)
  {
    assert (a + [x])[..|a|] == a;
  }

  /** The network figures: the totals, the interfaces only when asked for, and the labels. */
  function NetworkFrom(st: NetState, includePerInterface: bool, labels: StandardLabels): NetworkMetrics
  {
    st.totals.(perInterface := if includePerInterface then st.interfaces else map[], labels := labels)
  }

  /** The byte and packet items, whose totals start at zero. */
  predicate IsNetCounter(item: NetItem)
  {
    item.RecvBytes? || item.XmitBytes? || item.RecvPackets? || item.XmitPackets?
  }

  /** The error and drop items, whose totals are absent until a sample comes. */
  predicate IsNetOptional(item: NetItem)
  {
    item.RecvErrs? || item.XmitErrs? || item.RecvDrop? || item.XmitDrop?
  }

  function NetCounter(n: NetworkMetrics, item: NetItem): nat
  {
    if item.RecvBytes? then n.receiveBytesTotal
    else if item.XmitBytes? then n.transmitBytesTotal
    else if item.RecvPackets? then n.receivePacketsTotal
    else if item.XmitPackets? then n.transmitPacketsTotal
    else 0
  }

  function NetOptional(n: NetworkMetrics, item: NetItem): Option<nat>
  {
    if item.RecvErrs? then n.receiveErrorsTotal
    else if item.XmitErrs? then n.transmitErrorsTotal
    else if item.RecvDrop? then n.receivePacketsDroppedTotal
    else if item.XmitDrop? then n.transmitPacketsDroppedTotal
    else None
  }

  lemma NetStepCounter(patterns: seq<string>, st: NetState, s: MetricSample, item: NetItem)
    requires IsNetCounter(item)
    ensures NetCounter(NetStep(patterns, st, s).totals, item) ==
      NetCounter(st.totals, item) + if Counts(NetCount(patterns, item), s) then AsU64(s.value) else 0
  {
  }

  lemma NetStepOptional(patterns: seq<string>, st: NetState, s: MetricSample, item: NetItem)
    requires IsNetOptional(item)
    ensures NetOptional(NetStep(patterns, st, s).totals, item) ==
      if Counts(NetCount(patterns, item), s) then AddTo(NetOptional(st.totals, item), AsU64(s.value)) else NetOptional(st.totals, item)
  {
  }

  /** Each byte and packet total is the sum of its item's samples on accepted interfaces. */
  lemma {:induction false} NetCounterSum(patterns: seq<string>, samples: seq<MetricSample>, item: NetItem)
    requires IsNetCounter(item)
    ensures NetCounter(NetFold(patterns, samples).totals, item) == Sum(NetCount(patterns, item), samples)
    decreases |samples|
  {
    if |samples| != 0 {
      var n := |samples| - 1;
      NetCounterSum(patterns, samples[..n], item);
      NetStepCounter(patterns, NetFold(patterns, samples[..n]), samples[n], item);
    }
  }

  /**
   * Each error and drop total is absent when no sample of its item came from
   * an accepted interface, and otherwise the sum of those samples.
   */
  lemma {:induction false} NetOptionalSum(patterns: seq<string>, samples: seq<MetricSample>, item: NetItem)
    requires IsNetOptional(item)
    ensures NetOptional(NetFold(patterns, samples).totals, item) ==
      if AnyCounted(NetCount(patterns, item), samples) then Some(Sum(NetCount(patterns, item), samples)) else None
    decreases |samples|
  {
    if |samples| != 0 {
      var n := |samples| - 1;
      NetOptionalSum(patterns, samples[..n], item);
      NetStepOptional(patterns, NetFold(patterns, samples[..n]), samples[n], item);
      AnyCountedStep(NetCount(patterns, item), samples);
      if !AnyCounted(NetCount(patterns, item), samples[..n]) {
        SumNone(NetCount(patterns, item), samples[..n]);
      }
    }
  }

  /** Every interface record seen so far is named after its key. */
  predicate NamedAfterKeys(interfaces: map<string, InterfaceMetrics>)
  {
    forall k :: k in interfaces ==> interfaces[k].name == k
  }

  lemma NetStepInterfaces(patterns: seq<string>, st: NetState, s: MetricSample)
    requires NamedAfterKeys(st.interfaces)
    ensures NamedAfterKeys(NetStep(patterns, st, s).interfaces)
    ensures forall k :: k in NetStep(patterns, st, s).interfaces <==>
      k in st.interfaces || AcceptedInterface(patterns, s) == Some(k)
  {
  }

  /**
   * Exactly the interfaces the patterns accept and some sample names get a
   * record, each named after the interface.
   */
  lemma {:induction false} NetInterfaces(patterns: seq<string>, samples: seq<MetricSample>, name: string)
    ensures NamedAfterKeys(NetFold(patterns, samples).interfaces)
    ensures name in NetFold(patterns, samples).interfaces <==>
      exists i :: 0 <= i < |samples| && AcceptedInterface(patterns, samples[i]) == Some(name)
    decreases |samples|
  {
    if |samples| != 0 {
      var n := |samples| - 1;
      NetInterfaces(patterns, samples[..n], name);
      NetStepInterfaces(patterns, NetFold(patterns, samples[..n]), samples[n]);
      assert forall i :: 0 <= i < n ==> samples[..n][i] == samples[i];
    }
  }

  // ---- disk ----

  /** What the disk conversion has accumulated: the totals and the devices seen so far. */
  datatype DiskState = DiskState(totals: DiskMetrics, devices: map<string, DeviceMetrics>)

  /** `DeviceMetrics::default()`. */
  const NoDevice := DeviceMetrics("", "", "", 0, 0, 0, 0, 0.0, 0.0)

  /** `DiskMetrics::default()`. */
  const NoDisk := DiskMetrics(0, 0, 0, 0, 0.0, 0.0, None, None, map[], DefaultLabels)

  /** The size of a disk sector in bytes. */
  const SectorSize: nat := 512

  /** Milliseconds to seconds. */
  function Seconds(millis: real): real
  {
    millis / 1000.0
  }

  /** `Some(total.unwrap_or(0.0) + v)`. */
  function AddSeconds(total: Option<real>, v: real): Option<real>
  {
    Some((if total.Some? then total.value else 0.0) + v)
  }

  /**
   * One disk sample: a sample with a `disk` label gets the device's record
   * (created on first sight, named after it), sets the item's field there
   * and adds to the item's total; sectors count 512 bytes each.
   */
  function DiskStep(st: DiskState, s: MetricSample): DiskState
  {
    if "disk" !in s.labels then st
    else
      var name := s.labels["disk"];
      var dev := (if name in st.devices then st.devices[name] else NoDevice).(device := name);
      var d, v, t := st.totals, AsU64(s.value), Seconds(ToReal(s.value));
      match DiskItemOf(Label(s, "item"))
      case Reads => DiskState(d.(readsTotal := d.readsTotal + v), st.devices[name := dev.(readCount := v)])
      case Writes => DiskState(d.(writesTotal := d.writesTotal + v), st.devices[name := dev.(writeCount := v)])
      case SectorsRead =>
        DiskState(d.(readsBytesTotal := d.readsBytesTotal + v * SectorSize), st.devices[name := dev.(readsBytes := v * SectorSize)])
      case SectorsWritten =>
        DiskState(d.(writesBytesTotal := d.writesBytesTotal + v * SectorSize), st.devices[name := dev.(writesBytes := v * SectorSize)])
      case TimeReading =>
        DiskState(d.(readSecondsTotal := d.readSecondsTotal + t), st.devices[name := dev.(readTimeSeconds := t)])
      case TimeWriting =>
        DiskState(d.(writeSecondsTotal := d.writeSecondsTotal + t), st.devices[name := dev.(writeTimeSeconds := t)])
      case TimeInProgress =>
        DiskState(d.(ioTimeSecondsTotal := AddSeconds(d.ioTimeSecondsTotal, t)), st.devices[name := dev])
      case WeightedTimeInProgress =>
        DiskState(d.(ioTimeWeightedSecondsTotal := AddSeconds(d.ioTimeWeightedSecondsTotal, t)), st.devices[name := dev])
      case OtherDiskItem => DiskState(d, st.devices[name := dev])
  }

  /** The disk samples folded in order from no totals and no devices. */
  function DiskFold(samples: seq<MetricSample>): (r: DiskState)
    ensures r.totals.perDevice == map[]
    decreases |samples|
  {
    if |samples| == 0 then DiskState(NoDisk, map[])
    else
      var n := |samples| - 1;
      DiskStep(DiskFold(samples[..n]), samples[n])
  }

  lemma DiskFoldSnoc(a: seq<MetricSample>, x: MetricSample)
    ensures DiskFold(a + [x]) == DiskStep(DiskFold(a), x)
  {
    assert (a + [x])[..|a|] == a;
  }

  /** The disk figures: the totals, the devices only when asked for, and the labels. */
  function DiskFrom(st: DiskState, includePerDevice: bool, labels: StandardLabels): DiskMetrics
  {
    st.totals.(perDevice := if includePerDevice then st.devices else map[], labels := labels)
  }

  /** The operation and sector items, whose totals are integers. */
  predicate IsDiskCounter(item: DiskItem)
  {
    item.Reads? || item.Writes? || item.SectorsRead? || item.SectorsWritten?
  }

  /** How many units of the total one counted unit of the item is: bytes per sector, or one. */
  function DiskUnit(item: DiskItem): nat
  {
    if item.SectorsRead? || item.SectorsWritten? then SectorSize else 1
  }

  function DiskCounter(d: DiskMetrics, item: DiskItem): nat
  {
    if item.Reads? then d.readsTotal
    else if item.Writes? then d.writesTotal
    else if item.SectorsRead? then d.readsBytesTotal
    else if item.SectorsWritten? then d.writesBytesTotal
    else 0
  }

  lemma DiskStepCounter(st: DiskState, s: MetricSample, item: DiskItem)
    requires IsDiskCounter(item)
    ensures DiskCounter(DiskStep(st, s).totals, item) ==
      DiskCounter(st.totals, item) + if Counts(DiskCount(item), s) then AsU64(s.value) * DiskUnit(item) else 0
  {
  }

  /**
   * The read and write totals are the sums of the `reads` and `writes`
   * samples, and the byte totals are 512 times the sums of the sector
   * samples.
   */
  lemma {:induction false} DiskCounterSum(samples: seq<MetricSample>, item: DiskItem)
    requires IsDiskCounter(item)
    ensures DiskCounter(DiskFold(samples).totals, item) == Sum(DiskCount(item), samples) * DiskUnit(item)
    decreases |samples|
  {
    if |samples| != 0 {
      var n := |samples| - 1;
      var s := samples[n];
      DiskCounterSum(samples[..n], item);
      DiskStepCounter(DiskFold(samples[..n]), s, item);
      var prior := Sum(DiskCount(item), samples[..n]);
      var v := if Counts(DiskCount(item), s) then AsU64(s.value) else 0;
      assert prior * DiskUnit(item) + v * DiskUnit(item) == (prior + v) * DiskUnit(item);
    }
  }

  /** The reading and writing time items, whose totals start at zero. */
  predicate IsDiskTimer(item: DiskItem)
  {
    item.TimeReading? || item.TimeWriting?
  }

  /** The time-in-progress items, whose totals are absent until a sample comes. */
  predicate IsDiskOptionalTimer(item: DiskItem)
  {
    item.TimeInProgress? || item.WeightedTimeInProgress?
  }

  function DiskSeconds(d: DiskMetrics, item: DiskItem): real
  {
    if item.TimeReading? then d.readSecondsTotal
    else if item.TimeWriting? then d.writeSecondsTotal
    else 0.0
  }

  function DiskOptionalSeconds(d: DiskMetrics, item: DiskItem): Option<real>
  {
    if item.TimeInProgress? then d.ioTimeSecondsTotal
    else if item.WeightedTimeInProgress? then d.ioTimeWeightedSecondsTotal
    else None
  }

  lemma DiskStepSeconds(st: DiskState, s: MetricSample, item: DiskItem)
    requires IsDiskTimer(item)
    ensures DiskSeconds(DiskStep(st, s).totals, item) ==
      DiskSeconds(st.totals, item) + if Counts(DiskCount(item), s) then Seconds(ToReal(s.value)) else 0.0
  {
  }

  lemma DiskStepOptionalSeconds(st: DiskState, s: MetricSample, item: DiskItem)
    requires IsDiskOptionalTimer(item)
    ensures DiskOptionalSeconds(DiskStep(st, s).totals, item) ==
      if Counts(DiskCount(item), s) then AddSeconds(DiskOptionalSeconds(st.totals, item), Seconds(ToReal(s.value)))
      else DiskOptionalSeconds(st.totals, item)
  {
  }

  /**
   * The read and write time totals are the sums of the `time_reading` and
   * `time_writing` samples, read as milliseconds, in seconds.
   */
  lemma {:induction false} DiskSecondsSum(samples: seq<MetricSample>, item: DiskItem)
    requires IsDiskTimer(item)
    ensures DiskSeconds(DiskFold(samples).totals, item) == Seconds(RealSum(DiskCount(item), samples))
    decreases |samples|
  {
    if |samples| != 0 {
      var n := |samples| - 1;
      DiskSecondsSum(samples[..n], item);
      DiskStepSeconds(DiskFold(samples[..n]), samples[n], item);
    }
  }

  /**
   * The time-in-progress totals are absent when no sample of the item has a
   * `disk` label, and otherwise the sum of those samples in seconds.
   */
  lemma {:induction false} DiskOptionalSecondsSum(samples: seq<MetricSample>, item: DiskItem)
    requires IsDiskOptionalTimer(item)
    ensures DiskOptionalSeconds(DiskFold(samples).totals, item) ==
      if AnyCounted(DiskCount(item), samples) then Some(Seconds(RealSum(DiskCount(item), samples))) else None
    decreases |samples|
  {
    if |samples| != 0 {
      var n := |samples| - 1;
      DiskOptionalSecondsSum(samples[..n], item);
      DiskStepOptionalSeconds(DiskFold(samples[..n]), samples[n], item);
      AnyCountedStep(DiskCount(item), samples);
      if !AnyCounted(DiskCount(item), samples[..n]) {
        RealSumNone(DiskCount(item), samples[..n]);
      }
    }
  }

  /** Every device record seen so far is named after its key. */
  predicate DevicesNamedAfterKeys(devices: map<string, DeviceMetrics>)
  {
    forall k :: k in devices ==> devices[k].device == k
  }

  lemma DiskStepDevices(st: DiskState, s: MetricSample)
    requires DevicesNamedAfterKeys(st.devices)
    ensures DevicesNamedAfterKeys(DiskStep(st, s).devices)
    ensures forall k :: k in DiskStep(st, s).devices <==> k in st.devices || Label(s, "disk") == Some(k)
  {
    if "disk" in s.labels {
      var name := s.labels["disk"];
      var dev := DiskStep(st, s).devices[name];
      assert dev.device == name;
      assert DiskStep(st, s).devices == st.devices[name := dev];
    }
  }

  /** Exactly the devices some sample names get a record, each named after the device. */
  lemma {:induction false} DiskDevices(samples: seq<MetricSample>, name: string)
    ensures DevicesNamedAfterKeys(DiskFold(samples).devices)
    ensures name in DiskFold(samples).devices <==> exists i :: 0 <= i < |samples| && Label(samples[i], "disk") == Some(name)
    decreases |samples|
  {
    if |samples| != 0 {
      var n := |samples| - 1;
      DiskDevices(samples[..n], name);
      DiskStepDevices(DiskFold(samples[..n]), samples[n]);
      assert forall i :: 0 <= i < n ==> samples[..n][i] == samples[i];
    }
  }
}

/**
 * The Cloud Hypervisor converter: it reads the guest metrics of one
 * sandbox, parsed into metric families, and builds the cAdvisor-style CPU,
 * memory, network, disk and process figures, each stamped with the
 * sandbox's standard labels.
 *
 * Every conversion walks the families of the parsed hash map (`families`,
 * in the map's iteration order), skips those whose name does not select
 * them, and folds the samples of the rest. Each method is proved to compute
 * the function of the selected samples that `HypervisorFolds` defines.
 */
module CloudHypervisor {
  import opened Wrappers
  import opened Seqs
  import opened Text
  import opened Float
  import opened PrometheusParser
  import opened Registry
  import opened ConverterConfig
  import opened CadvisorLabels
  import opened CadvisorFormat
  import opened CadvisorNetwork
  import opened CadvisorDisk
  import opened CadvisorProcess
  import opened HypervisorSamples
  import opened HypervisorFolds

  /** The name prefixes of the guest metric families each conversion reads. */
  const CpuTimePrefix := "kata_guest_cpu_time"
  const MeminfoPrefix := "kata_guest_meminfo"
  const NetdevPrefix := "kata_guest_netdev_stat"
  const DiskstatPrefix := "kata_guest_diskstat"
  const TasksPrefix := "kata_guest_tasks"
  const LoadPrefix := "kata_guest_load"

  /** The suffixes of the per-component thread and descriptor gauges. */
  const ThreadsSuffix := "_threads"
  const FdsSuffix := "_fds"

  /** `CpuMetrics::default()`. */
  const NoCpu := CpuMetrics(0.0, 0.0, 0.0, None, DefaultLabels)

  /** `MemoryMetrics::default()`. */
  const NoMemory := MemoryMetrics(0, None, None, None, None, None, map[], DefaultLabels)

  /** `ProcessMetrics::default()`. */
  const NoProcess := ProcessMetrics(0, 0, None, 0, map[], DefaultLabels)

  class CloudHypervisorConverter {
    const config: ConversionConfig
    const enricher: Option<CriLabelEnricher>
    const sandboxId: Option<string>

    constructor WithEnricher(config: ConversionConfig, enricher: CriLabelEnricher, sandboxId: string)
      ensures this.config == config && this.enricher == Some(enricher) && this.sandboxId == Some(sandboxId)
    {
      this.config := config;
      this.enricher := Some(enricher);
      this.sandboxId := Some(sandboxId);
    }

    /** The registry answers for this converter's sandbox: it has both parts, the lookup is not contended and finds the sandbox. */
    predicate Registered(contended: bool)
      reads if enricher.Some? then {enricher.value.cache} else {}
    {
      enricher.Some? && sandboxId.Some? && !contended && sandboxId.value in enricher.value.cache.sandboxes
    }

    /**
     * The standard labels of every figure: container `kata` and image
     * `unknown`; the pod uid as id, the pod name as name and pod, and the
     * namespace, as the registry holds them for this sandbox, or all empty
     * when the registry does not answer.
     */
    function Labels(contended: bool): (l: StandardLabels)
      reads if enricher.Some? then {enricher.value.cache} else {}
      ensures l.container == "kata" && l.image == "unknown" && l.pod == l.name
      ensures Registered(contended) ==>
        var meta := enricher.value.cache.sandboxes[sandboxId.value];
        l.id == meta.uid && l.name == meta.name && l.namespace == meta.namespace
      ensures !Registered(contended) ==> l.id == "" && l.name == "" && l.namespace == ""
    {
      if enricher.Some? && sandboxId.Some? then
        var e := enricher.value.Enrichment(sandboxId.value, contended);
        NewStandardLabels(e.podUid, e.podName, e.podNamespace)
      else
        NewStandardLabels("", "", "")
    }

    method CreateStandardLabels(contended: bool) returns (l: StandardLabels)
      ensures l == Labels(contended)
    {
      if enricher.Some? && sandboxId.Some? {
        var enriched := enricher.value.Enrich(sandboxId.value, contended);
        l := NewStandardLabels(enriched.podUid, enriched.podName, enriched.podNamespace);
      } else {
        l := NewStandardLabels("", "", "");
      }
    }

    /**
     * CPU: the jiffies of the `user`, `system`, `guest` and `nice` items of
     * the `cpu="total"` samples over the conversion factor, the user and
     * system seconds likewise, and the load average.
     */
    method ConvertCpu(families: seq<PrometheusMetric>, contended: bool) returns (cpu: CpuMetrics)
      ensures cpu == CpuFrom(Selected(families, Prefix(CpuTimePrefix)), Selected(families, Prefix(LoadPrefix)),
        config.cpuJiffyConversionFactor, Labels(contended))
    {
      cpu := NoCpu;
      var factor := config.cpuJiffyConversionFactor;
      var totalJiffies := TotalJiffies(families);
      cpu := cpu.(usageSecondsTotal := totalJiffies as real / factor);
      var user, system := CpuSeconds(families, factor);
      cpu := cpu.(userSecondsTotal := user, systemSecondsTotal := system);
      var load := ExtractLoadAverage(families);
      if load.Some? {
        cpu := cpu.(loadAverage := load);
      }
      var labels := CreateStandardLabels(contended);
      cpu := cpu.(labels := labels);
    }

    /** The load average from the last `load1`, `load5` and `load15` samples; none without any load item. */
    method ExtractLoadAverage(families: seq<PrometheusMetric>) returns (load: Option<LoadAverage>)
      ensures load == LoadAverageFrom(ItemMap(Selected(families, Prefix(LoadPrefix))))
    {
      var loads := CollectItems(families, LoadPrefix);
      if loads == map[] {
        return None;
      }
      load := Some(LoadAverage(
        if "load1" in loads then ToReal(loads["load1"]) else 0.0,
        if "load5" in loads then ToReal(loads["load5"]) else 0.0,
        if "load15" in loads then ToReal(loads["load15"]) else 0.0));
    }

    /**
     * Memory: the meminfo items cast to `u64`, the last sample of each item
     * winning, turned into the memory figures.
     */
    method ConvertMemory(families: seq<PrometheusMetric>, contended: bool) returns (memory: MemoryMetrics)
      ensures memory == MemoryFromInfo(Casts(ItemMap(Selected(families, Prefix(MeminfoPrefix)))), Labels(contended))
    {
      var meminfo := CollectCounts(families, MeminfoPrefix);
      memory := MemoryFigures(meminfo);
      var labels := CreateStandardLabels(contended);
      memory := memory.(labels := labels);
    }

    /**
     * Network: the samples of accepted interfaces, folded into totals and
     * per-interface records; the records are kept only when asked for.
     */
    method ConvertNetwork(families: seq<PrometheusMetric>, contended: bool) returns (network: NetworkMetrics)
      ensures network == NetworkFrom(NetFold(config.networkInterfacePatterns, Selected(families, Prefix(NetdevPrefix))),
        config.includePerInterface, Labels(contended))
    {
      network := NoNetwork;
      var interfaces: map<string, InterfaceMetrics> := map[];
      ghost var sel := Prefix(NetdevPrefix);
      ghost var patterns := config.networkInterfacePatterns;
      for i := 0 to |families|
        invariant NetState(network, interfaces) == NetFold(patterns, Selected(families[..i], sel))
      {
        SelectedStep(families, i, sel);
        ghost var done := Selected(families[..i], sel);
        var metric := families[i];
        if StartsWith(metric.name, NetdevPrefix) {
          assert done + metric.samples[..0] == done;
          for j := 0 to |metric.samples|
            invariant NetState(network, interfaces) == NetFold(patterns, done + metric.samples[..j])
          {
            var sample := metric.samples[j];
            AppendPrefixStep(done, metric.samples, j);
            NetFoldSnoc(patterns, done + metric.samples[..j], sample);
            network, interfaces := NetworkSample(network, interfaces, sample);
          }
          assert metric.samples[..|metric.samples|] == metric.samples;
        } else {
          assert done + [] == done;
        }
      }
      assert families[..|families|] == families;

      if config.includePerInterface {
        network := network.(perInterface := interfaces);
      }
      var labels := CreateStandardLabels(contended);
      network := network.(labels := labels);
    }

    /** The body of the network loop for one sample. */
    method NetworkSample(network: NetworkMetrics, interfaces: map<string, InterfaceMetrics>, sample: MetricSample)
      returns (network': NetworkMetrics, interfaces': map<string, InterfaceMetrics>)
      ensures NetState(network', interfaces') == NetStep(config.networkInterfacePatterns, NetState(network, interfaces), sample)
    {
      network', interfaces' := network, interfaces;
      if "interface" !in sample.labels {
        return;
      }
      var name := sample.labels["interface"];
      if !MatchesNetworkInterface(config.networkInterfacePatterns, name) {
        return;
      }
      var item := Label(sample, "item");
      var value := AsU64(sample.value);
      var iface := if name in interfaces then interfaces[name] else NoInterface;
      iface := iface.(name := name);
      if item == Some("recv_bytes") {
        iface := iface.(receiveBytes := value);
        network' := network'.(receiveBytesTotal := network'.receiveBytesTotal + value);
      } else if item == Some("xmit_bytes") {
        iface := iface.(transmitBytes := value);
        network' := network'.(transmitBytesTotal := network'.transmitBytesTotal + value);
      } else if item == Some("recv_packets") {
        iface := iface.(receivePackets := value);
        network' := network'.(receivePacketsTotal := network'.receivePacketsTotal + value);
      } else if item == Some("xmit_packets") {
        iface := iface.(transmitPackets := value);
        network' := network'.(transmitPacketsTotal := network'.transmitPacketsTotal + value);
      } else if item == Some("recv_errs") {
        iface := iface.(receiveErrors := Some(value));
        network' := network'.(receiveErrorsTotal := Some(network'.receiveErrorsTotal.UnwrapOr(0) + value));
      } else if item == Some("xmit_errs") {
        iface := iface.(transmitErrors := Some(value));
        network' := network'.(transmitErrorsTotal := Some(network'.transmitErrorsTotal.UnwrapOr(0) + value));
      } else if item == Some("recv_drop") {
        iface := iface.(receiveDropped := Some(value));
        network' := network'.(receivePacketsDroppedTotal := Some(network'.receivePacketsDroppedTotal.UnwrapOr(0) + value));
      } else if item == Some("xmit_drop") {
        iface := iface.(transmitDropped := Some(value));
        network' := network'.(transmitPacketsDroppedTotal := Some(network'.transmitPacketsDroppedTotal.UnwrapOr(0) + value));
      }
      interfaces' := interfaces[name := iface];
    }

    /**
     * Disk: the samples with a `disk` label, folded into totals and
     * per-device records; the records are kept only when asked for.
     */
    method ConvertDisk(families: seq<PrometheusMetric>, contended: bool) returns (disk: DiskMetrics)
      ensures disk == DiskFrom(DiskFold(Selected(families, Prefix(DiskstatPrefix))), config.includePerDevice, Labels(contended))
    {
      disk := NoDisk;
      var devices: map<string, DeviceMetrics> := map[];
      ghost var sel := Prefix(DiskstatPrefix);
      for i := 0 to |families|
        invariant DiskState(disk, devices) == DiskFold(Selected(families[..i], sel))
      {
        SelectedStep(families, i, sel);
        ghost var done := Selected(families[..i], sel);
        var metric := families[i];
        if StartsWith(metric.name, DiskstatPrefix) {
          assert done + metric.samples[..0] == done;
          for j := 0 to |metric.samples|
            invariant DiskState(disk, devices) == DiskFold(done + metric.samples[..j])
          {
            var sample := metric.samples[j];
            AppendPrefixStep(done, metric.samples, j);
            DiskFoldSnoc(done + metric.samples[..j], sample);
            disk, devices := DiskSample(disk, devices, sample);
          }
          assert metric.samples[..|metric.samples|] == metric.samples;
        } else {
          assert done + [] == done;
        }
      }
      assert families[..|families|] == families;

      if config.includePerDevice {
        disk := disk.(perDevice := devices);
      }
      var labels := CreateStandardLabels(contended);
      disk := disk.(labels := labels);
    }

    /** The body of the disk loop for one sample. */
    method DiskSample(disk: DiskMetrics, devices: map<string, DeviceMetrics>, sample: MetricSample)
      returns (disk': DiskMetrics, devices': map<string, DeviceMetrics>)
      ensures DiskState(disk', devices') == DiskStep(DiskState(disk, devices), sample)
    {
      disk', devices' := disk, devices;
      if "disk" !in sample.labels {
        return;
      }
      var name := sample.labels["disk"];
      var item := Label(sample, "item");
      var value := sample.value;
      var count := AsU64(value);
      var device := if name in devices then devices[name] else NoDevice;
      device := device.(device := name);
      if item == Some("reads") {
        device := device.(readCount := count);
        disk' := disk'.(readsTotal := disk'.readsTotal + count);
      } else if item == Some("writes") {
        device := device.(writeCount := count);
        disk' := disk'.(writesTotal := disk'.writesTotal + count);
      } else if item == Some("sectors_read") {
        var bytes := count * 512;
        device := device.(readsBytes := bytes);
        disk' := disk'.(readsBytesTotal := disk'.readsBytesTotal + bytes);
      } else if item == Some("sectors_written") {
        var bytes := count * 512;
        device := device.(writesBytes := bytes);
        disk' := disk'.(writesBytesTotal := disk'.writesBytesTotal + bytes);
      } else if item == Some("time_reading") {
        var seconds := ToReal(value) / 1000.0;
        device := device.(readTimeSeconds := seconds);
        disk' := disk'.(readSecondsTotal := disk'.readSecondsTotal + seconds);
      } else if item == Some("time_writing") {
        var seconds := ToReal(value) / 1000.0;
        device := device.(writeTimeSeconds := seconds);
        disk' := disk'.(writeSecondsTotal := disk'.writeSecondsTotal + seconds);
      } else if item == Some("time_in_progress") {
        var seconds := ToReal(value) / 1000.0;
        disk' := disk'.(ioTimeSecondsTotal := Some(disk'.ioTimeSecondsTotal.UnwrapOr(0.0) + seconds));
      } else if item == Some("weighted_time_in_progress") {
        var seconds := ToReal(value) / 1000.0;
        disk' := disk'.(ioTimeWeightedSecondsTotal := Some(disk'.ioTimeWeightedSecondsTotal.UnwrapOr(0.0) + seconds));
      }
      devices' := devices[name := device];
    }

    /**
     * Processes: the last `cur` and `max` task samples give the process
     * count and the thread limit; the thread and descriptor counts add up
     * every sample of the components' `_threads` and `_fds` gauges.
     */
    method ConvertProcess(families: seq<PrometheusMetric>, contended: bool) returns (process: ProcessMetrics)
      ensures process == ProcessFrom(Casts(ItemMap(Selected(families, Prefix(TasksPrefix)))),
        Sum(Every, Selected(families, ComponentSuffix(ThreadsSuffix))),
        Sum(Every, Selected(families, ComponentSuffix(FdsSuffix))),
        Labels(contended))
    {
      process := TaskCounts(families);
      var threads := ComponentTotal(families, ThreadsSuffix);
      process := process.(threadCount := process.threadCount + threads);
      var fds := ComponentTotal(families, FdsSuffix);
      process := process.(fileDescriptors := process.fileDescriptors + fds);
      var labels := CreateStandardLabels(contended);
      process := process.(labels := labels);
    }
  }

  /** The memory figures the meminfo items give, computed one figure at a time. */
  method MemoryFigures(meminfo: map<string, nat>) returns (memory: MemoryMetrics)
    ensures memory == MemoryFromInfo(meminfo, DefaultLabels)
  {
    memory := NoMemory;
    if "memtotal" in meminfo && "memfree" in meminfo {
      memory := memory.(usageBytes := SaturatingSub(meminfo["memtotal"], meminfo["memfree"]));
    }
    if "active" in meminfo && "inactive_file" in meminfo {
      memory := memory.(workingSetBytes := Some(meminfo["active"] + meminfo["inactive_file"]));
    }
    if "cached" in meminfo && "buffers" in meminfo {
      memory := memory.(cacheBytes := Some(meminfo["cached"] + meminfo["buffers"]));
    }
    if "anon_pages" in meminfo {
      memory := memory.(rssBytes := Some(meminfo["anon_pages"]));
    }
    if "swaptotal" in meminfo && "swapfree" in meminfo {
      memory := memory.(swapBytes := Some(SaturatingSub(meminfo["swaptotal"], meminfo["swapfree"])));
    }
    if "mapped" in meminfo {
      memory := memory.(mappedFileBytes := Some(meminfo["mapped"]));
    }
  }

  /** The sum of the `cpu="total"` jiffies of the user, system, guest and nice items. */
  method TotalJiffies(families: seq<PrometheusMetric>) returns (totalJiffies: nat)
    ensures totalJiffies == Sum(Jiffies, Selected(families, Prefix(CpuTimePrefix)))
  {
    ghost var sel := Prefix(CpuTimePrefix);
    totalJiffies := 0;
    for i := 0 to |families|
      invariant totalJiffies == Sum(Jiffies, Selected(families[..i], sel))
    {
      SelectedStep(families, i, sel);
      ghost var done := Selected(families[..i], sel);
      var metric := families[i];
      if StartsWith(metric.name, CpuTimePrefix) {
        assert done + metric.samples[..0] == done;
        for j := 0 to |metric.samples|
          invariant totalJiffies == Sum(Jiffies, done + metric.samples[..j])
        {
          var sample := metric.samples[j];
          AppendPrefixStep(done, metric.samples, j);
          SumSnoc(Jiffies, done + metric.samples[..j], sample);
          var cpu := Label(sample, "cpu");
          var item := Label(sample, "item");
          if cpu == Some("total") {
            if item == Some("user") || item == Some("system") || item == Some("guest") || item == Some("nice") {
              totalJiffies := totalJiffies + AsU64(sample.value);
            }
          }
        }
        assert metric.samples[..|metric.samples|] == metric.samples;
      } else {
        assert done + [] == done;
      }
    }
    assert families[..|families|] == families;
  }

  /** The `cpu="total"` user and system jiffies, each sample divided by the factor as it is added. */
  method CpuSeconds(families: seq<PrometheusMetric>, factor: real) returns (user: real, system: real)
    requires factor > 0.0
    ensures user == RealSum(CpuItem("user"), Selected(families, Prefix(CpuTimePrefix))) / factor
    ensures system == RealSum(CpuItem("system"), Selected(families, Prefix(CpuTimePrefix))) / factor
  {
    ghost var sel := Prefix(CpuTimePrefix);
    user, system := 0.0, 0.0;
    for i := 0 to |families|
      invariant user == RealSum(CpuItem("user"), Selected(families[..i], sel)) / factor
      invariant system == RealSum(CpuItem("system"), Selected(families[..i], sel)) / factor
    {
      SelectedStep(families, i, sel);
      ghost var done := Selected(families[..i], sel);
      var metric := families[i];
      if StartsWith(metric.name, CpuTimePrefix) {
        assert done + metric.samples[..0] == done;
        for j := 0 to |metric.samples|
          invariant user == RealSum(CpuItem("user"), done + metric.samples[..j]) / factor
          invariant system == RealSum(CpuItem("system"), done + metric.samples[..j]) / factor
        {
          var sample := metric.samples[j];
          AppendPrefixStep(done, metric.samples, j);
          SecondsStep(CpuItem("user"), done + metric.samples[..j], sample, factor);
          SecondsStep(CpuItem("system"), done + metric.samples[..j], sample, factor);
          var cpu := Label(sample, "cpu");
          var item := Label(sample, "item");
          assert Counts(CpuItem("user"), sample) <==> cpu == Some("total") && item == Some("user");
          assert Counts(CpuItem("system"), sample) <==> cpu == Some("total") && item == Some("system");
          assert item == Some("user") ==> item != Some("system") by {
            assert "user"[0] != "system"[0];
          }
          if cpu == Some("total") {
            if item == Some("user") {
              user := user + ToReal(sample.value) / factor;
            } else if item == Some("system") {
              system := system + ToReal(sample.value) / factor;
            }
          }
        }
        assert metric.samples[..|metric.samples|] == metric.samples;
      } else {
        assert done + [] == done;
      }
    }
    assert families[..|families|] == families;
  }

  /** Adding a counted sample's value divided by the factor keeps the running seconds equal to the divided sum. */
  lemma SecondsStep(w: Weight, done: seq<MetricSample>, sample: MetricSample, factor: real)
    requires factor > 0.0
    ensures RealSum(w, done + [sample]) / factor ==
      if Counts(w, sample) then RealSum(w, done) / factor + ToReal(sample.value) / factor
      else RealSum(w, done) / factor
  {
    RealSumSnoc(w, done, sample);
    DivideSum(RealSum(w, done), ToReal(sample.value), factor);
  }

  /** The `item` values of the families named with `prefix`, a later sample of an item replacing an earlier one. */
  method CollectItems(families: seq<PrometheusMetric>, prefix: string) returns (items: map<string, F64>)
    ensures items == ItemMap(Selected(families, Prefix(prefix)))
  {
    ghost var sel := Prefix(prefix);
    items := map[];
    for i := 0 to |families|
      invariant items == ItemMap(Selected(families[..i], sel))
    {
      SelectedStep(families, i, sel);
      ghost var done := Selected(families[..i], sel);
      var metric := families[i];
      if StartsWith(metric.name, prefix) {
        assert done + metric.samples[..0] == done;
        for j := 0 to |metric.samples|
          invariant items == ItemMap(done + metric.samples[..j])
        {
          var sample := metric.samples[j];
          AppendPrefixStep(done, metric.samples, j);
          ItemMapSnoc(done + metric.samples[..j], sample);
          if "item" in sample.labels {
            items := items[sample.labels["item"] := sample.value];
          }
        }
        assert metric.samples[..|metric.samples|] == metric.samples;
      } else {
        assert done + [] == done;
      }
    }
    assert families[..|families|] == families;
  }

  /** The `item` values of the families named with `prefix` cast to `u64`, a later sample of an item replacing an earlier one. */
  method CollectCounts(families: seq<PrometheusMetric>, prefix: string) returns (items: map<string, nat>)
    ensures items == Casts(ItemMap(Selected(families, Prefix(prefix))))
  {
    ghost var sel := Prefix(prefix);
    items := map[];
    for i := 0 to |families|
      invariant items == Casts(ItemMap(Selected(families[..i], sel)))
    {
      SelectedStep(families, i, sel);
      ghost var done := Selected(families[..i], sel);
      var metric := families[i];
      if StartsWith(metric.name, prefix) {
        assert done + metric.samples[..0] == done;
        for j := 0 to |metric.samples|
          invariant items == Casts(ItemMap(done + metric.samples[..j]))
        {
          var sample := metric.samples[j];
          AppendPrefixStep(done, metric.samples, j);
          ItemMapSnoc(done + metric.samples[..j], sample);
          if "item" in sample.labels {
            CastsUpdate(ItemMap(done + metric.samples[..j]), sample.labels["item"], sample.value);
            items := items[sample.labels["item"] := AsU64(sample.value)];
          }
        }
        assert metric.samples[..|metric.samples|] == metric.samples;
      } else {
        assert done + [] == done;
      }
    }
    assert families[..|families|] == families;
  }

  /** The loop over the `tasks` samples: the last `cur` sample sets the count, the last `max` sample the thread limit. */
  method TaskCounts(families: seq<PrometheusMetric>) returns (process: ProcessMetrics)
    ensures process == ProcessFrom(Casts(ItemMap(Selected(families, Prefix(TasksPrefix)))), 0, 0, DefaultLabels)
  {
    process := NoProcess;
    ghost var sel := Prefix(TasksPrefix);
    for i := 0 to |families|
      invariant process == ProcessFrom(Casts(ItemMap(Selected(families[..i], sel))), 0, 0, DefaultLabels)
    {
      SelectedStep(families, i, sel);
      ghost var done := Selected(families[..i], sel);
      var metric := families[i];
      if StartsWith(metric.name, TasksPrefix) {
        assert done + metric.samples[..0] == done;
        for j := 0 to |metric.samples|
          invariant process == ProcessFrom(Casts(ItemMap(done + metric.samples[..j])), 0, 0, DefaultLabels)
        {
          var sample := metric.samples[j];
          AppendPrefixStep(done, metric.samples, j);
          TaskStep(done + metric.samples[..j], sample);
          var item := Label(sample, "item");
          if item == Some("cur") {
            process := process.(count := AsU64(sample.value));
          } else if item == Some("max") {
            process := process.(threadCountMax := Some(AsU64(sample.value)));
          }
        }
        assert metric.samples[..|metric.samples|] == metric.samples;
      } else {
        assert done + [] == done;
      }
    }
    assert families[..|families|] == families;
  }

  /** One task sample sets the count when it is `cur`, the thread limit when it is `max`, and nothing else. */
  lemma TaskStep(done: seq<MetricSample>, sample: MetricSample)
    ensures ProcessFrom(Casts(ItemMap(done + [sample])), 0, 0, DefaultLabels) ==
      var process := ProcessFrom(Casts(ItemMap(done)), 0, 0, DefaultLabels);
      if Label(sample, "item") == Some("cur") then process.(count := AsU64(sample.value))
      else if Label(sample, "item") == Some("max") then process.(threadCountMax := Some(AsU64(sample.value)))
      else process
  {
    ItemMapSnoc(done, sample);
    if "item" in sample.labels {
      CastsUpdate(ItemMap(done), sample.labels["item"], sample.value);
    }
  }

  /** The sum of every sample of the component gauges whose name ends with `suffix`. */
  method ComponentTotal(families: seq<PrometheusMetric>, suffix: string) returns (total: nat)
    ensures total == Sum(Every, Selected(families, ComponentSuffix(suffix)))
  {
    ghost var sel := ComponentSuffix(suffix);
    total := 0;
    for i := 0 to |families|
      invariant total == Sum(Every, Selected(families[..i], sel))
    {
      SelectedStep(families, i, sel);
      ghost var done := Selected(families[..i], sel);
      var metric := families[i];
      var shouldCount := EndsWith(metric.name, suffix)
        && (Contains(metric.name, "shim") || Contains(metric.name, "hypervisor")
            || Contains(metric.name, "agent") || Contains(metric.name, "virtiofsd"));
      if shouldCount {
        assert done + metric.samples[..0] == done;
        for j := 0 to |metric.samples|
          invariant total == Sum(Every, done + metric.samples[..j])
        {
          var sample := metric.samples[j];
          AppendPrefixStep(done, metric.samples, j);
          SumSnoc(Every, done + metric.samples[..j], sample);
          total := total + AsU64(sample.value);
        }
        assert metric.samples[..|metric.samples|] == metric.samples;
      } else {
        assert done + [] == done;
      }
    }
    assert families[..|families|] == families;
  }

  // ---- properties of the conversions ----

  /**
   * The hash map hands the families out in no fixed order. Given the same
   * load samples, the CPU figures are the same in any order of the
   * families.
   */
  lemma CpuIgnoresFamilyOrder(fs: seq<PrometheusMetric>, gs: seq<PrometheusMetric>, loads: seq<MetricSample>,
      factor: real, labels: StandardLabels)
    requires factor > 0.0 && multiset(fs) == multiset(gs)
    ensures CpuFrom(Selected(fs, Prefix(CpuTimePrefix)), loads, factor, labels) ==
      CpuFrom(Selected(gs, Prefix(CpuTimePrefix)), loads, factor, labels)
  {
    TotalIgnoresOrder(Jiffies, Prefix(CpuTimePrefix), fs, gs);
    RealTotalIgnoresOrder(CpuItem("user"), Prefix(CpuTimePrefix), fs, gs);
    RealTotalIgnoresOrder(CpuItem("system"), Prefix(CpuTimePrefix), fs, gs);
  }

  /** The thread and descriptor counts are the same in any order of the families. */
  lemma ProcessIgnoresFamilyOrder(fs: seq<PrometheusMetric>, gs: seq<PrometheusMetric>, tasks: map<string, nat>,
      labels: StandardLabels)
    requires multiset(fs) == multiset(gs)
    ensures ProcessFrom(tasks, Sum(Every, Selected(fs, ComponentSuffix(ThreadsSuffix))),
        Sum(Every, Selected(fs, ComponentSuffix(FdsSuffix))), labels) ==
      ProcessFrom(tasks, Sum(Every, Selected(gs, ComponentSuffix(ThreadsSuffix))),
        Sum(Every, Selected(gs, ComponentSuffix(FdsSuffix))), labels)
  {
    TotalIgnoresOrder(Every, ComponentSuffix(ThreadsSuffix), fs, gs);
    TotalIgnoresOrder(Every, ComponentSuffix(FdsSuffix), fs, gs);
  }

  /** The network byte and packet totals are the same in any order of the families. */
  lemma NetworkIgnoresFamilyOrder(fs: seq<PrometheusMetric>, gs: seq<PrometheusMetric>, patterns: seq<string>, item: NetItem)
    requires multiset(fs) == multiset(gs) && IsNetCounter(item)
    ensures NetCounter(NetFold(patterns, Selected(fs, Prefix(NetdevPrefix))).totals, item) ==
      NetCounter(NetFold(patterns, Selected(gs, Prefix(NetdevPrefix))).totals, item)
  {
    NetCounterSum(patterns, Selected(fs, Prefix(NetdevPrefix)), item);
    NetCounterSum(patterns, Selected(gs, Prefix(NetdevPrefix)), item);
    TotalIgnoresOrder(NetCount(patterns, item), Prefix(NetdevPrefix), fs, gs);
  }

  /** The disk operation and byte totals are the same in any order of the families. */
  lemma DiskIgnoresFamilyOrder(fs: seq<PrometheusMetric>, gs: seq<PrometheusMetric>, item: DiskItem)
    requires multiset(fs) == multiset(gs) && IsDiskCounter(item)
    ensures DiskCounter(DiskFold(Selected(fs, Prefix(DiskstatPrefix))).totals, item) ==
      DiskCounter(DiskFold(Selected(gs, Prefix(DiskstatPrefix))).totals, item)
  {
    DiskCounterSum(Selected(fs, Prefix(DiskstatPrefix)), item);
    DiskCounterSum(Selected(gs, Prefix(DiskstatPrefix)), item);
    TotalIgnoresOrder(DiskCount(item), Prefix(DiskstatPrefix), fs, gs);
  }

  /** A `kata_guest_cpu_time` sample of the aggregated CPU. */
  function CpuTotalSample(item: string, value: nat): MetricSample
  {
    MetricSample(CpuTimePrefix, map["cpu" := "total", "item" := item], Whole(value), None)
  }

  /** A `kata_guest_meminfo` sample. */
  function MeminfoSample(item: string, value: nat): MetricSample
  {
    MetricSample(MeminfoPrefix, map["item" := item], Whole(value), None)
  }

  /** A single family contributes its samples exactly when it is selected. */
  lemma SelectedSingle(f: PrometheusMetric, sel: Selector)
    ensures Selected([f], sel) == Own(f, sel)
  {
    SelectedStep([f], 0, sel);
    assert [f][..1] == [f] && [f][..0] == [];
  }

  /** The sums over two samples. */
  lemma SumPair(w: Weight, a: MetricSample, b: MetricSample)
    ensures Sum(w, [a, b]) == (if Counts(w, a) then AsU64(a.value) else 0) + (if Counts(w, b) then AsU64(b.value) else 0)
    ensures RealSum(w, [a, b]) == (if Counts(w, a) then ToReal(a.value) else 0.0) + (if Counts(w, b) then ToReal(b.value) else 0.0)
  {
    SumSnoc(w, [], a);
    SumSnoc(w, [a], b);
    RealSumSnoc(w, [], a);
    RealSumSnoc(w, [a], b);
    assert [] + [a] == [a] && [a] + [b] == [a, b];
  }

  /**
   * The case of `test_cpu_conversion`: 56160 user and 82060 system jiffies
   * at 100 jiffies a second are 561.6 and 820.6 seconds, 1382.2 in all, and
   * there is no load average.
   */
  lemma CpuConversionExample(labels: StandardLabels)
    ensures var fs := [PrometheusMetric(CpuTimePrefix, Some("gauge"), None,
        [CpuTotalSample("user", 56160), CpuTotalSample("system", 82060)])];
      var cpu := CpuFrom(Selected(fs, Prefix(CpuTimePrefix)), Selected(fs, Prefix(LoadPrefix)), 100.0, labels);
      cpu.usageSecondsTotal == 1382.2 && cpu.userSecondsTotal == 561.6 && cpu.systemSecondsTotal == 820.6
      && cpu.loadAverage == None
  {
    var user, system := CpuTotalSample("user", 56160), CpuTotalSample("system", 82060);
    var f := PrometheusMetric(CpuTimePrefix, Some("gauge"), None, [user, system]);
    SelectedSingle(f, Prefix(CpuTimePrefix));
    SelectedSingle(f, Prefix(LoadPrefix));
    assert CpuTimePrefix[11] != LoadPrefix[11];
    SumPair(Jiffies, user, system);
    SumPair(CpuItem("user"), user, system);
    SumPair(CpuItem("system"), user, system);
  }

  /** The case of `test_memory_conversion`: a total of 1000 and 400 free give a usage of 600. */
  lemma MemoryConversionExample(labels: StandardLabels)
    ensures var fs := [PrometheusMetric(MeminfoPrefix, Some("gauge"), None,
        [MeminfoSample("memtotal", 1000), MeminfoSample("memfree", 400)])];
      MemoryFromInfo(Casts(ItemMap(Selected(fs, Prefix(MeminfoPrefix)))), labels).usageBytes == 600
  {
    var total, free := MeminfoSample("memtotal", 1000), MeminfoSample("memfree", 400);
    var f := PrometheusMetric(MeminfoPrefix, Some("gauge"), None, [total, free]);
    SelectedSingle(f, Prefix(MeminfoPrefix));
    ItemMapSnoc([], total);
    ItemMapSnoc([total], free);
    assert [] + [total] == [total] && [total] + [free] == [total, free];
  }
}

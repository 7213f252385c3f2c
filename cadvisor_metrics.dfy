/**
 * The whole cAdvisor-style output of one sandbox: the CPU, memory,
 * network, disk and process parts, written one after the other.
 */
module CadvisorMetrics {
  import opened Seqs
  import opened CadvisorLabels
  import opened CadvisorFormat
  import opened CadvisorNetwork
  import opened CadvisorDisk
  import opened CadvisorProcess

  datatype CadvisorMetrics = CadvisorMetrics(
    cpu: CpuMetrics,
    memory: MemoryMetrics,
    network: NetworkMetrics,
    disk: DiskMetrics,
    process: ProcessMetrics)

  /** The orders in which the four hash maps of one sandbox's metrics are walked. */
  datatype Orders = Orders(failures: seq<string>, interfaces: seq<string>, devices: seq<string>, states: seq<string>)

  /** Whether every order lists only keys of its own map. */
  predicate Walks(m: CadvisorMetrics, o: Orders)
  {
    (forall k :: k in o.failures ==> k in m.memory.failures)
    && (forall k :: k in o.interfaces ==> k in m.network.perInterface)
    && (forall k :: k in o.devices ==> k in m.disk.perDevice)
    && (forall k :: k in o.states ==> k in m.process.tasksByState)
  }

  /** Whether every order is an enumeration of its own map's keys. */
  ghost predicate Enumerates(m: CadvisorMetrics, o: Orders)
  {
    IsEnumeration(o.failures, m.memory.failures.Keys)
    && IsEnumeration(o.interfaces, m.network.perInterface.Keys)
    && IsEnumeration(o.devices, m.disk.perDevice.Keys)
    && IsEnumeration(o.states, m.process.tasksByState.Keys)
  }

  /** The entries of all five parts, in the order they are written. */
  function AllEntries(m: CadvisorMetrics, o: Orders): seq<Entry>
    requires Walks(m, o)
  {
    CpuEntries(m.cpu)
    + MemoryEntries(m.memory, o.failures)
    + NetworkEntries(m.network, o.interfaces)
    + DiskEntries(m.disk, o.devices)
    + ProcessEntries(m.process, o.states)
  }

  /** Each part is rendered with its own labels, and the five texts are joined. */
  method FormatAll(m: CadvisorMetrics, show: real -> string) returns (output: string, ghost o: Orders)
    ensures Enumerates(m, o) && Walks(m, o)
    ensures output ==
      Render(m.cpu.labels, show, CpuEntries(m.cpu))
      + Render(m.memory.labels, show, MemoryEntries(m.memory, o.failures))
      + Render(m.network.labels, show, NetworkEntries(m.network, o.interfaces))
      + Render(m.disk.labels, show, DiskEntries(m.disk, o.devices))
      + Render(m.process.labels, show, ProcessEntries(m.process, o.states))
  {
    output := FormatCpu(m.cpu, show);
    var memory, failures := FormatMemory(m.memory, show);
    output := output + memory;
    var network, interfaces := FormatNetwork(m.network, show);
    output := output + network;
    var disk, devices := FormatDisk(m.disk, show);
    output := output + disk;
    var process, states := FormatProcess(m.process, show);
    output := output + process;
    o := Orders(failures, interfaces, devices, states);
  }

  /**
   * When every part carries the same labels, the whole output is the
   * rendering of all the parts' entries in order.
   */
  lemma SharedLabels(m: CadvisorMetrics, o: Orders, l: StandardLabels, show: real -> string)
    requires Walks(m, o)
    requires m.cpu.labels == l && m.memory.labels == l && m.network.labels == l
    requires m.disk.labels == l && m.process.labels == l
    ensures Render(l, show, AllEntries(m, o)) ==
      Render(m.cpu.labels, show, CpuEntries(m.cpu))
      + Render(m.memory.labels, show, MemoryEntries(m.memory, o.failures))
      + Render(m.network.labels, show, NetworkEntries(m.network, o.interfaces))
      + Render(m.disk.labels, show, DiskEntries(m.disk, o.devices))
      + Render(m.process.labels, show, ProcessEntries(m.process, o.states))
  {
    var c, mem, n, d, p := CpuEntries(m.cpu), MemoryEntries(m.memory, o.failures),
      NetworkEntries(m.network, o.interfaces), DiskEntries(m.disk, o.devices), ProcessEntries(m.process, o.states);
    RenderAppend(l, show, c + mem + n + d, p);
    RenderAppend(l, show, c + mem + n, d);
    RenderAppend(l, show, c + mem, n);
    RenderAppend(l, show, c, mem);
  }

  /**
   * The samples and `# TYPE` lines of any family in the whole output are
   * those of the five parts, in order.
   */
  lemma AllParts(m: CadvisorMetrics, o: Orders, f: Family)
    requires Walks(m, o)
    ensures SamplesOf(AllEntries(m, o), f) ==
      SamplesOf(CpuEntries(m.cpu), f) + SamplesOf(MemoryEntries(m.memory, o.failures), f)
      + SamplesOf(NetworkEntries(m.network, o.interfaces), f) + SamplesOf(DiskEntries(m.disk, o.devices), f)
      + SamplesOf(ProcessEntries(m.process, o.states), f)
    ensures TypeLines(AllEntries(m, o), f) ==
      TypeLines(CpuEntries(m.cpu), f) + TypeLines(MemoryEntries(m.memory, o.failures), f)
      + TypeLines(NetworkEntries(m.network, o.interfaces), f) + TypeLines(DiskEntries(m.disk, o.devices), f)
      + TypeLines(ProcessEntries(m.process, o.states), f)
  {
    Split5(CpuEntries(m.cpu), MemoryEntries(m.memory, o.failures), NetworkEntries(m.network, o.interfaces),
      DiskEntries(m.disk, o.devices), ProcessEntries(m.process, o.states), f);
  }
}

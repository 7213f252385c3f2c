/**
 * The cAdvisor-style exposition text of one sandbox's converted metrics.
 * Every formatter appends `# HELP`/`# TYPE`/sample lines to an output
 * string, each group only under its own condition. What a formatter writes
 * is modelled first as a sequence of entries (a whole help/type/sample
 * block, a help/type header, or a lone sample line), so that which samples
 * and type lines appear can be stated and proved; `Render` writes the
 * entries out, and each formatter method builds exactly that text.
 * Floating-point values are rendered by a `show` parameter standing for
 * Rust's `f64` display; integer values are written in decimal.
 */
module CadvisorFormat {
  import opened Wrappers
  import opened Seqs
  import opened Text
  import opened CadvisorLabels

  datatype Kind = Counter | Gauge

  /** The metric families the formatters write. */
  datatype Family =
    | CpuUsage | CpuUser | CpuSystem | Load1m | Load5m | Load15m
    | MemoryUsage | MemoryWorkingSet | MemoryCache | MemoryRss | MemorySwap | MemoryFailures
    | NetRxBytes | NetTxBytes | NetRxPackets | NetTxPackets | NetRxErrors | NetTxErrors
    | DiskReads | DiskWrites | DiskReadBytes | DiskWriteBytes | DiskReadSeconds | DiskWriteSeconds
    | BlkioDeviceUsage
    | Processes | Threads | ThreadsMax | FileDescriptors | TasksState

  function FamilyName(f: Family): string
  {
    match f
    case CpuUsage => "container_cpu_usage_seconds_total"
    case CpuUser => "container_cpu_user_seconds_total"
    case CpuSystem => "container_cpu_system_seconds_total"
    case Load1m => "container_load_average_1m"
    case Load5m => "container_load_average_5m"
    case Load15m => "container_load_average_15m"
    case MemoryUsage => "container_memory_usage_bytes"
    case MemoryWorkingSet => "container_memory_working_set_bytes"
    case MemoryCache => "container_memory_cache_bytes"
    case MemoryRss => "container_memory_rss_bytes"
    case MemorySwap => "container_memory_swap_bytes"
    case MemoryFailures => "container_memory_failures_total"
    case NetRxBytes => "container_network_receive_bytes_total"
    case NetTxBytes => "container_network_transmit_bytes_total"
    case NetRxPackets => "container_network_receive_packets_total"
    case NetTxPackets => "container_network_transmit_packets_total"
    case NetRxErrors => "container_network_receive_errors_total"
    case NetTxErrors => "container_network_transmit_errors_total"
    case DiskReads => "container_disk_io_reads_total"
    case DiskWrites => "container_disk_io_writes_total"
    case DiskReadBytes => "container_disk_io_read_bytes_total"
    case DiskWriteBytes => "container_disk_io_write_bytes_total"
    case DiskReadSeconds => "container_disk_io_read_seconds_total"
    case DiskWriteSeconds => "container_disk_io_write_seconds_total"
    case BlkioDeviceUsage => "container_blkio_device_usage_total"
    case Processes => "container_processes_count"
    case Threads => "container_threads_count"
    case ThreadsMax => "container_threads_max_count"
    case FileDescriptors => "container_file_descriptors"
    case TasksState => "container_tasks_state"
  }

  function FamilyKind(f: Family): Kind
  {
    match f
    case Load1m | Load5m | Load15m => Gauge
    case MemoryUsage | MemoryWorkingSet | MemoryCache | MemoryRss | MemorySwap => Gauge
    case Processes | Threads | ThreadsMax | FileDescriptors | TasksState => Gauge
    case _ => Counter
  }

  function KindName(k: Kind): string
  {
    match k
    case Counter => "counter"
    case Gauge => "gauge"
  }

  /** The help text of a family's `# HELP` line. The block-I/O family is written without one. */
  function HelpText(f: Family): string
  {
    match f
    case CpuUsage => "Total CPU time used in seconds"
    case CpuUser => "CPU time spent in user mode"
    case CpuSystem => "CPU time spent in system mode"
    case Load1m => "1-minute load average"
    case Load5m => "5-minute load average"
    case Load15m => "15-minute load average"
    case MemoryUsage => "Memory usage in bytes"
    case MemoryWorkingSet => "Working set size in bytes"
    case MemoryCache => "Memory cache in bytes"
    case MemoryRss => "Resident set size in bytes"
    case MemorySwap => "Swap usage in bytes"
    case MemoryFailures => "Memory failure count"
    case NetRxBytes => "Total bytes received"
    case NetTxBytes => "Total bytes transmitted"
    case NetRxPackets => "Total packets received"
    case NetTxPackets => "Total packets transmitted"
    case NetRxErrors => "Receive errors"
    case NetTxErrors => "Transmit errors"
    case DiskReads => "Total disk read operations"
    case DiskWrites => "Total disk write operations"
    case DiskReadBytes => "Total bytes read from disk"
    case DiskWriteBytes => "Total bytes written to disk"
    case DiskReadSeconds => "Total time spent reading"
    case DiskWriteSeconds => "Total time spent writing"
    case BlkioDeviceUsage => ""
    case Processes => "Number of running processes"
    case Threads => "Number of threads"
    case ThreadsMax => "Maximum number of threads allowed"
    case FileDescriptors => "Number of open file descriptors"
    case TasksState => "Number of tasks in each state"
  }


  /** A sample value: an integer count (`u64`) or a floating-point figure (`f64`). */
  datatype Value = Int(n: nat) | Float(r: real)

  /** Integers in decimal; floating-point values by `show`. */
  function ValueText(show: real -> string, v: Value): string
  {
    match v
    case Int(n) => NatToString(n)
    case Float(r) => show(r)
  }

  type Extras = seq<(string, string)>

  /**
   * One unit of output: a block of help, type and one sample line; the help
   * and type lines of a family whose samples follow (the help text may say
   * "per interface"); or one sample line with extra labels.
   */
  datatype Entry =
    | Block(family: Family, extras: Extras, value: Value)
    | Header(family: Family, perInterface: bool)
    | Sample(family: Family, extras: Extras, value: Value)

  function HelpLine(f: Family, perInterface: bool): string
  {
    "# HELP " + FamilyName(f) + " " + HelpText(f) + (if perInterface then " per interface" else "") + "\n"
  }

  function TypeLine(f: Family): string
  {
    "# TYPE " + FamilyName(f) + " " + KindName(FamilyKind(f)) + "\n"
  }

  /** A sample line carries the standard labels followed by the extras. */
  function SampleLine(l: StandardLabels, show: real -> string, f: Family, extras: Extras, v: Value): string
  {
    FamilyName(f) + LabelStringWithExtras(l, extras) + " " + ValueText(show, v) + "\n"
  }

  function EntryText(l: StandardLabels, show: real -> string, e: Entry): string
  {
    match e
    case Block(f, extras, v) => HelpLine(f, false) + TypeLine(f) + SampleLine(l, show, f, extras, v)
    case Header(f, perInterface) => HelpLine(f, perInterface) + TypeLine(f)
    case Sample(f, extras, v) => SampleLine(l, show, f, extras, v)
  }

  /** The entries' text, in order. */
  function Render(l: StandardLabels, show: real -> string, entries: seq<Entry>): string
    decreases |entries|
  {
    if |entries| == 0 then ""
    else
      var n := |entries| - 1;
      Render(l, show, entries[..n]) + EntryText(l, show, entries[n])
  }

  /** Appends each entry's lines to the output. */
  method RenderEntries(l: StandardLabels, show: real -> string, entries: seq<Entry>) returns (output: string)
    ensures output == Render(l, show, entries)
  {
    output := "";
    for i := 0 to |entries|
      invariant output == Render(l, show, entries[..i])
    {
      assert entries[..i + 1][..i] == entries[..i];
      output := output + EntryText(l, show, entries[i]);
    }
    assert entries[..|entries|] == entries;
  }

  /** Appending one entry appends its text. */
  lemma RenderSnoc(l: StandardLabels, show: real -> string, e: seq<Entry>, x: Entry)
    ensures Render(l, show, e + [x]) == Render(l, show, e) + EntryText(l, show, x)
  {
    assert (e + [x])[..|e|] == e;
  }

  /** Rendering distributes over concatenation: each entry's text depends on that entry alone. */
  lemma {:induction false} RenderAppend(l: StandardLabels, show: real -> string, a: seq<Entry>, b: seq<Entry>)
    ensures Render(l, show, a + b) == Render(l, show, a) + Render(l, show, b)
    decreases |b|
  {
    if |b| == 0 {
      assert a + b == a;
      assert Render(l, show, a) + "" == Render(l, show, a);
    } else {
      var n := |b| - 1;
      var init, x := b[..n], b[n];
      assert b == init + [x];
      assert a + b == (a + init) + [x];
      RenderSnoc(l, show, a + init, x);
      RenderSnoc(l, show, init, x);
      RenderAppend(l, show, a, init);
      var ra, ri, t := Render(l, show, a), Render(l, show, init), EntryText(l, show, x);
      AppendAssoc(ra, ri, t);
    }
  }

  /** The samples of family `f`, in output order, as (extra labels, value) pairs. */
  function SamplesOf(entries: seq<Entry>, f: Family): seq<(Extras, Value)>
    decreases |entries|
  {
    if |entries| == 0 then []
    else
      var n := |entries| - 1;
      var e := entries[n];
      SamplesOf(entries[..n], f) + if !e.Header? && e.family == f then [(e.extras, e.value)] else []
  }

  /** How many `# TYPE` lines family `f` gets. */
  function TypeLines(entries: seq<Entry>, f: Family): nat
    decreases |entries|
  {
    if |entries| == 0 then 0
    else
      var n := |entries| - 1;
      TypeLines(entries[..n], f) + if !entries[n].Sample? && entries[n].family == f then 1 else 0
  }

  lemma {:induction false} SamplesOfAppend(a: seq<Entry>, b: seq<Entry>, f: Family)
    ensures SamplesOf(a + b, f) == SamplesOf(a, f) + SamplesOf(b, f)
    decreases |b|
  {
    if |b| == 0 {
      assert a + b == a;
    } else {
      var n := |b| - 1;
      assert (a + b)[..|a + b| - 1] == a + b[..n];
      SamplesOfAppend(a, b[..n], f);
    }
  }

  lemma {:induction false} TypeLinesAppend(a: seq<Entry>, b: seq<Entry>, f: Family)
    ensures TypeLines(a + b, f) == TypeLines(a, f) + TypeLines(b, f)
    decreases |b|
  {
    if |b| == 0 {
      assert a + b == a;
    } else {
      var n := |b| - 1;
      assert (a + b)[..|a + b| - 1] == a + b[..n];
      TypeLinesAppend(a, b[..n], f);
    }
  }

  /** What one entry contributes: a block or a sample gives its sample, a block or a header its type line. */
  lemma Single(e: Entry, f: Family)
    ensures SamplesOf([e], f) == if !e.Header? && e.family == f then [(e.extras, e.value)] else []
    ensures TypeLines([e], f) == if !e.Sample? && e.family == f then 1 else 0
  {
    assert [e][..0] == [];
  }

  lemma Three(x: Entry, y: Entry, z: Entry, f: Family)
    ensures SamplesOf([x, y, z], f) == SamplesOf([x], f) + SamplesOf([y], f) + SamplesOf([z], f)
    ensures TypeLines([x, y, z], f) == TypeLines([x], f) + TypeLines([y], f) + TypeLines([z], f)
  {
    assert [x, y, z] == [x] + [y] + [z];
    Split3([x], [y], [z], f);
  }

  lemma Four(w: Entry, x: Entry, y: Entry, z: Entry, f: Family)
    ensures SamplesOf([w, x, y, z], f) == SamplesOf([w], f) + SamplesOf([x], f) + SamplesOf([y], f) + SamplesOf([z], f)
    ensures TypeLines([w, x, y, z], f) == TypeLines([w], f) + TypeLines([x], f) + TypeLines([y], f) + TypeLines([z], f)
  {
    assert [w, x, y, z] == [w] + [x] + [y] + [z];
    Split4([w], [x], [y], [z], f);
  }

  /** Four blocks of four distinct families with the same labels: each family finds its own sample only. */
  lemma FourBlocks(g1: Family, g2: Family, g3: Family, g4: Family, extras: Extras,
                   v1: Value, v2: Value, v3: Value, v4: Value, f: Family)
    requires g1 != g2 && g1 != g3 && g1 != g4 && g2 != g3 && g2 != g4 && g3 != g4
    ensures SamplesOf([Block(g1, extras, v1), Block(g2, extras, v2), Block(g3, extras, v3), Block(g4, extras, v4)], f) ==
      if f == g1 then [(extras, v1)] else if f == g2 then [(extras, v2)]
      else if f == g3 then [(extras, v3)] else if f == g4 then [(extras, v4)] else []
    ensures TypeLines([Block(g1, extras, v1), Block(g2, extras, v2), Block(g3, extras, v3), Block(g4, extras, v4)], f) ==
      if f in {g1, g2, g3, g4} then 1 else 0
  {
    var a, b, c, d := Block(g1, extras, v1), Block(g2, extras, v2), Block(g3, extras, v3), Block(g4, extras, v4);
    Four(a, b, c, d, f);
    Single(a, f);
    Single(b, f);
    Single(c, f);
    Single(d, f);
    if f == g1 {
      assert [(extras, v1)] + [] + [] + [] == [(extras, v1)];
    } else if f == g2 {
      assert [] + [(extras, v2)] + [] + [] == [(extras, v2)];
    } else if f == g3 {
      assert [] + [] + [(extras, v3)] + [] == [(extras, v3)];
    } else if f == g4 {
      assert [] + [] + [] + [(extras, v4)] == [(extras, v4)];
    } else {
      assert [] + [] + [] + [] == SamplesOf([], f);
    }
  }

  lemma Split3(a: seq<Entry>, b: seq<Entry>, c: seq<Entry>, f: Family)
    ensures SamplesOf(a + b + c, f) == SamplesOf(a, f) + SamplesOf(b, f) + SamplesOf(c, f)
    ensures TypeLines(a + b + c, f) == TypeLines(a, f) + TypeLines(b, f) + TypeLines(c, f)
  {
    SamplesOfAppend(a + b, c, f);
    SamplesOfAppend(a, b, f);
    TypeLinesAppend(a + b, c, f);
    TypeLinesAppend(a, b, f);
  }

  lemma Split4(a: seq<Entry>, b: seq<Entry>, c: seq<Entry>, d: seq<Entry>, f: Family)
    ensures SamplesOf(a + b + c + d, f) == SamplesOf(a, f) + SamplesOf(b, f) + SamplesOf(c, f) + SamplesOf(d, f)
    ensures TypeLines(a + b + c + d, f) == TypeLines(a, f) + TypeLines(b, f) + TypeLines(c, f) + TypeLines(d, f)
  {
    Split3(a, b, c, f);
    SamplesOfAppend(a + b + c, d, f);
    TypeLinesAppend(a + b + c, d, f);
  }

  lemma Split5(a: seq<Entry>, b: seq<Entry>, c: seq<Entry>, d: seq<Entry>, e: seq<Entry>, f: Family)
    ensures SamplesOf(a + b + c + d + e, f) ==
      SamplesOf(a, f) + SamplesOf(b, f) + SamplesOf(c, f) + SamplesOf(d, f) + SamplesOf(e, f)
    ensures TypeLines(a + b + c + d + e, f) ==
      TypeLines(a, f) + TypeLines(b, f) + TypeLines(c, f) + TypeLines(d, f) + TypeLines(e, f)
  {
    Split4(a, b, c, d, f);
    SamplesOfAppend(a + b + c + d, e, f);
    TypeLinesAppend(a + b + c + d, e, f);
  }

  /** Every entry is a lone sample of family `g`. */
  predicate AllSamplesOf(entries: seq<Entry>, g: Family)
  {
    forall i :: 0 <= i < |entries| ==> entries[i].Sample? && entries[i].family == g
  }

  /** Lone samples of `g` hold no type line and no sample of another family. */
  lemma {:induction false} OnlySamples(entries: seq<Entry>, g: Family, f: Family)
    requires AllSamplesOf(entries, g)
    ensures TypeLines(entries, f) == 0
    ensures f != g ==> SamplesOf(entries, f) == []
    decreases |entries|
  {
    if |entries| != 0 {
      OnlySamples(entries[..|entries| - 1], g, f);
    }
  }

  /** A header followed by lone samples of its own family. */
  lemma SectionContents(g: Family, perInterface: bool, body: seq<Entry>, f: Family)
    requires AllSamplesOf(body, g)
    ensures SamplesOf([Header(g, perInterface)] + body, f) == if f == g then SamplesOf(body, f) else []
    ensures TypeLines([Header(g, perInterface)] + body, f) == if f == g then 1 else 0
  {
    SamplesOfAppend([Header(g, perInterface)], body, f);
    TypeLinesAppend([Header(g, perInterface)], body, f);
    Single(Header(g, perInterface), f);
    OnlySamples(body, g, f);
  }

  /** A block with no extra labels, written only when the integer field is present. */
  function OptBlock(f: Family, o: Option<nat>): seq<Entry>
  {
    if o.Some? then [Block(f, [], Int(o.value))] else []
  }

  lemma OptBlockContents(g: Family, o: Option<nat>, f: Family)
    ensures SamplesOf(OptBlock(g, o), f) == if g == f && o.Some? then [([], Int(o.value))] else []
    ensures TypeLines(OptBlock(g, o), f) == if g == f && o.Some? then 1 else 0
  {
    if o.Some? {
      Single(Block(g, [], Int(o.value)), f);
    }
  }

  /** A count that is written only when positive. */
  function Positive(v: nat): (r: Option<nat>)
    ensures r.Some? <==> v > 0
    ensures r.Some? ==> r.value == v
  {
    if v > 0 then Some(v) else None
  }

  /** The samples an optional block holds of its own family. */
  function OptSamples(o: Option<nat>): seq<(Extras, Value)>
  {
    if o.Some? then [([], Int(o.value))] else []
  }

  /** An optional block holds its own samples for its family and nothing for any other. */
  lemma OptBlockOwn(g: Family, o: Option<nat>, f: Family)
    ensures SamplesOf(OptBlock(g, o), f) == if g == f then OptSamples(o) else []
    ensures g != f ==> TypeLines(OptBlock(g, o), f) == 0
  {
    OptBlockContents(g, o, f);
  }

  /** Four optional blocks of four distinct families: each family finds its own block's sample only. */
  lemma FourOptBlocks(g1: Family, g2: Family, g3: Family, g4: Family,
                      o1: Option<nat>, o2: Option<nat>, o3: Option<nat>, o4: Option<nat>, f: Family)
    requires g1 != g2 && g1 != g3 && g1 != g4 && g2 != g3 && g2 != g4 && g3 != g4
    ensures SamplesOf(OptBlock(g1, o1) + OptBlock(g2, o2) + OptBlock(g3, o3) + OptBlock(g4, o4), f) ==
      if f == g1 then OptSamples(o1) else if f == g2 then OptSamples(o2)
      else if f == g3 then OptSamples(o3) else if f == g4 then OptSamples(o4) else []
  {
    var b1, b2, b3, b4 := OptBlock(g1, o1), OptBlock(g2, o2), OptBlock(g3, o3), OptBlock(g4, o4);
    Split4(b1, b2, b3, b4, f);
    OptBlockOwn(g1, o1, f);
    OptBlockOwn(g2, o2, f);
    OptBlockOwn(g3, o3, f);
    OptBlockOwn(g4, o4, f);
    var s1, s2, s3, s4 := OptSamples(o1), OptSamples(o2), OptSamples(o3), OptSamples(o4);
    if f == g1 {
      assert s1 + [] + [] + [] == s1;
    } else if f == g2 {
      assert [] + s2 + [] + [] == s2;
    } else if f == g3 {
      assert [] + [] + s3 + [] == s3;
    } else if f == g4 {
      assert [] + [] + [] + s4 == s4;
    } else {
      assert [] + [] + [] + [] == SamplesOf([], f);
    }
  }

  /** Four optional blocks hold no type line of a fifth family. */
  lemma FourOptBlocksTypes(g1: Family, g2: Family, g3: Family, g4: Family,
                           o1: Option<nat>, o2: Option<nat>, o3: Option<nat>, o4: Option<nat>, f: Family)
    requires f != g1 && f != g2 && f != g3 && f != g4
    ensures TypeLines(OptBlock(g1, o1) + OptBlock(g2, o2) + OptBlock(g3, o3) + OptBlock(g4, o4), f) == 0
  {
    Split4(OptBlock(g1, o1), OptBlock(g2, o2), OptBlock(g3, o3), OptBlock(g4, o4), f);
    OptBlockOwn(g1, o1, f);
    OptBlockOwn(g2, o2, f);
    OptBlockOwn(g3, o3, f);
    OptBlockOwn(g4, o4, f);
  }

  /** A block of a floating-point figure, written only when the figure is positive. */
  function PositiveFloatBlock(f: Family, extras: Extras, r: real): seq<Entry>
  {
    if r > 0.0 then [Block(f, extras, Float(r))] else []
  }

  lemma PositiveFloatBlockContents(g: Family, extras: Extras, r: real, f: Family)
    ensures SamplesOf(PositiveFloatBlock(g, extras, r), f) == if g == f && r > 0.0 then [(extras, Float(r))] else []
    ensures TypeLines(PositiveFloatBlock(g, extras, r), f) == if g == f && r > 0.0 then 1 else 0
  {
    if r > 0.0 {
      Single(Block(g, extras, Float(r)), f);
    }
  }

  // ---------------------------------------------------------------- CPU

  datatype LoadAverage = LoadAverage(oneMinute: real, fiveMinute: real, fifteenMinute: real)

  /** CPU seconds and load average. The per-CPU breakdown is never filled or written, so it is not kept. */
  datatype CpuMetrics = CpuMetrics(
    usageSecondsTotal: real,
    userSecondsTotal: real,
    systemSecondsTotal: real,
    loadAverage: Option<LoadAverage>,
    labels: StandardLabels)

  const CpuTotal: Extras := [("cpu", "total")]

  function LoadEntries(c: CpuMetrics): seq<Entry>
  {
    if c.loadAverage.Some? then
      [Block(Load1m, CpuTotal, Float(c.loadAverage.value.oneMinute)),
       Block(Load5m, CpuTotal, Float(c.loadAverage.value.fiveMinute)),
       Block(Load15m, CpuTotal, Float(c.loadAverage.value.fifteenMinute))]
    else []
  }

  /** Usage always; user and system time only when positive; the three load windows only with a load average; all labelled `cpu="total"`. */
  function CpuEntries(c: CpuMetrics): seq<Entry>
  {
    [Block(CpuUsage, CpuTotal, Float(c.usageSecondsTotal))]
    + PositiveFloatBlock(CpuUser, CpuTotal, c.userSecondsTotal)
    + PositiveFloatBlock(CpuSystem, CpuTotal, c.systemSecondsTotal)
    + LoadEntries(c)
  }

  method FormatCpu(c: CpuMetrics, show: real -> string) returns (output: string)
    ensures output == Render(c.labels, show, CpuEntries(c))
  {
    var entries := [Block(CpuUsage, CpuTotal, Float(c.usageSecondsTotal))];
    if c.userSecondsTotal > 0.0 {
      entries := entries + [Block(CpuUser, CpuTotal, Float(c.userSecondsTotal))];
    }
    if c.systemSecondsTotal > 0.0 {
      entries := entries + [Block(CpuSystem, CpuTotal, Float(c.systemSecondsTotal))];
    }
    assert entries == [Block(CpuUsage, CpuTotal, Float(c.usageSecondsTotal))]
      + PositiveFloatBlock(CpuUser, CpuTotal, c.userSecondsTotal)
      + PositiveFloatBlock(CpuSystem, CpuTotal, c.systemSecondsTotal);
    if c.loadAverage.Some? {
      var load := c.loadAverage.value;
      entries := entries + [Block(Load1m, CpuTotal, Float(load.oneMinute)),
        Block(Load5m, CpuTotal, Float(load.fiveMinute)),
        Block(Load15m, CpuTotal, Float(load.fifteenMinute))];
    }
    assert entries == CpuEntries(c);
    output := RenderEntries(c.labels, show, entries);
  }

  lemma LoadContents(c: CpuMetrics, f: Family)
    ensures SamplesOf(LoadEntries(c), f) ==
      if c.loadAverage.Some? then
        (if f == Load1m then [(CpuTotal, Float(c.loadAverage.value.oneMinute))] else [])
        + (if f == Load5m then [(CpuTotal, Float(c.loadAverage.value.fiveMinute))] else [])
        + (if f == Load15m then [(CpuTotal, Float(c.loadAverage.value.fifteenMinute))] else [])
      else []
  {
    if c.loadAverage.Some? {
      var avg := c.loadAverage.value;
      var one := Block(Load1m, CpuTotal, Float(avg.oneMinute));
      var five := Block(Load5m, CpuTotal, Float(avg.fiveMinute));
      var fifteen := Block(Load15m, CpuTotal, Float(avg.fifteenMinute));
      Three(one, five, fifteen, f);
      Single(one, f);
      Single(five, f);
      Single(fifteen, f);
    }
  }

  lemma CpuSamples(c: CpuMetrics, f: Family)
    ensures SamplesOf(CpuEntries(c), f) ==
      (if f == CpuUsage then [(CpuTotal, Float(c.usageSecondsTotal))] else [])
      + (if f == CpuUser && c.userSecondsTotal > 0.0 then [(CpuTotal, Float(c.userSecondsTotal))] else [])
      + (if f == CpuSystem && c.systemSecondsTotal > 0.0 then [(CpuTotal, Float(c.systemSecondsTotal))] else [])
      + SamplesOf(LoadEntries(c), f)
  {
    var u := Block(CpuUsage, CpuTotal, Float(c.usageSecondsTotal));
    Split4([u], PositiveFloatBlock(CpuUser, CpuTotal, c.userSecondsTotal),
      PositiveFloatBlock(CpuSystem, CpuTotal, c.systemSecondsTotal), LoadEntries(c), f);
    Single(u, f);
    PositiveFloatBlockContents(CpuUser, CpuTotal, c.userSecondsTotal, f);
    PositiveFloatBlockContents(CpuSystem, CpuTotal, c.systemSecondsTotal, f);
  }

  /**
   * The CPU time samples: one usage sample, and one user and one system
   * sample exactly when that time is positive, all labelled `cpu="total"`.
   */
  lemma CpuTimeEmission(c: CpuMetrics)
    ensures SamplesOf(CpuEntries(c), CpuUsage) == [(CpuTotal, Float(c.usageSecondsTotal))]
    ensures SamplesOf(CpuEntries(c), CpuUser) ==
      if c.userSecondsTotal > 0.0 then [(CpuTotal, Float(c.userSecondsTotal))] else []
    ensures SamplesOf(CpuEntries(c), CpuSystem) ==
      if c.systemSecondsTotal > 0.0 then [(CpuTotal, Float(c.systemSecondsTotal))] else []
  {
    assert SamplesOf(CpuEntries(c), CpuUsage) == [(CpuTotal, Float(c.usageSecondsTotal))] by {
      CpuSamples(c, CpuUsage);
      LoadContents(c, CpuUsage);
    }
    assert SamplesOf(CpuEntries(c), CpuUser) ==
      if c.userSecondsTotal > 0.0 then [(CpuTotal, Float(c.userSecondsTotal))] else [] by {
      CpuSamples(c, CpuUser);
      LoadContents(c, CpuUser);
    }
    assert SamplesOf(CpuEntries(c), CpuSystem) ==
      if c.systemSecondsTotal > 0.0 then [(CpuTotal, Float(c.systemSecondsTotal))] else [] by {
      CpuSamples(c, CpuSystem);
      LoadContents(c, CpuSystem);
    }
  }

  /** One sample per load window, exactly when a load average is present. */
  lemma LoadEmission(c: CpuMetrics)
    ensures SamplesOf(CpuEntries(c), Load1m) ==
      if c.loadAverage.Some? then [(CpuTotal, Float(c.loadAverage.value.oneMinute))] else []
    ensures SamplesOf(CpuEntries(c), Load5m) ==
      if c.loadAverage.Some? then [(CpuTotal, Float(c.loadAverage.value.fiveMinute))] else []
    ensures SamplesOf(CpuEntries(c), Load15m) ==
      if c.loadAverage.Some? then [(CpuTotal, Float(c.loadAverage.value.fifteenMinute))] else []
  {
    CpuSamples(c, Load1m);
    CpuSamples(c, Load5m);
    CpuSamples(c, Load15m);
    LoadContents(c, Load1m);
    LoadContents(c, Load5m);
    LoadContents(c, Load15m);
  }

  /** No entry of `entries` belongs to family `f`. */
  predicate Avoids(entries: seq<Entry>, f: Family)
  {
    forall i :: 0 <= i < |entries| ==> entries[i].family != f
  }

  /** Entries that avoid `f` hold neither a type line nor a sample of `f`. */
  lemma {:induction false} AvoidsNothing(entries: seq<Entry>, f: Family)
    requires Avoids(entries, f)
    ensures SamplesOf(entries, f) == []
    ensures TypeLines(entries, f) == 0
    decreases |entries|
  {
    if |entries| != 0 {
      AvoidsNothing(entries[..|entries| - 1], f);
    }
  }

  // ---------------------------------------------------------------- memory

  /** Memory figures in bytes; `failures` is keyed by `failure_type:scope`. */
  datatype MemoryMetrics = MemoryMetrics(
    usageBytes: nat,
    workingSetBytes: Option<nat>,
    cacheBytes: Option<nat>,
    rssBytes: Option<nat>,
    swapBytes: Option<nat>,
    mappedFileBytes: Option<nat>,
    failures: map<string, nat>,
    labels: StandardLabels)

  /** The `failure_type` and `scope` labels of a key that splits on `:` into exactly two parts. */
  function FailureExtras(key: string): Option<Extras>
  {
    var parts := Split(key, ':');
    if |parts| == 2 then Some([("failure_type", parts[0]), ("scope", parts[1])]) else None
  }

  /** A key of the form `type:scope`, with no further colon, yields exactly those two labels. */
  lemma FailureKeyAccepted(failureType: string, scope: string)
    requires ':' !in failureType && ':' !in scope
    ensures FailureExtras(failureType + ":" + scope) == Some([("failure_type", failureType), ("scope", scope)])
  {
    var parts := [failureType, scope];
    assert parts[1..] == [scope];
    assert Join(parts, [':']) == failureType + ":" + scope;
    SplitJoin(parts, ':');
  }

  /** A key with labels is exactly `type:scope` with no colon in either part; any other key is dropped. */
  lemma FailureKeyShape(key: string)
    requires FailureExtras(key).Some?
    ensures var e := FailureExtras(key).value;
      ':' !in e[0].1 && ':' !in e[1].1 && key == e[0].1 + ":" + e[1].1
  {
    var parts := Split(key, ':');
    assert parts[1..] == [parts[1]];
    assert Join(parts, [':']) == parts[0] + [':'] + parts[1];
  }

  /** What the failure loop writes for one key. */
  function FailureSample(failures: map<string, nat>, key: string): seq<Entry>
    requires key in failures
  {
    match FailureExtras(key)
    case Some(extras) => [Sample(MemoryFailures, extras, Int(failures[key]))]
    case None => []
  }

  /** One sample per key with labels, in the order of `keys`. */
  function FailureSamples(failures: map<string, nat>, keys: seq<string>): (r: seq<Entry>)
    requires forall k :: k in keys ==> k in failures
    ensures AllSamplesOf(r, MemoryFailures)
    decreases |keys|
  {
    if |keys| == 0 then []
    else
      var n := |keys| - 1;
      FailureSamples(failures, keys[..n]) + FailureSample(failures, keys[n])
  }

  lemma FailureSampleContents(failures: map<string, nat>, key: string)
    requires key in failures
    ensures SamplesOf(FailureSample(failures, key), MemoryFailures) ==
      if FailureExtras(key).Some? then [(FailureExtras(key).value, Int(failures[key]))] else []
  {
    if FailureExtras(key).Some? {
      Single(FailureSample(failures, key)[0], MemoryFailures);
    }
  }

  /** A failure sample is written for a key exactly when the key has labels, with the key's count. */
  lemma {:induction false} FailureSamplesFrom(failures: map<string, nat>, keys: seq<string>, e: Extras, v: Value)
    requires forall k :: k in keys ==> k in failures
    ensures (e, v) in SamplesOf(FailureSamples(failures, keys), MemoryFailures) <==>
      exists k :: k in keys && FailureExtras(k) == Some(e) && v == Int(failures[k])
    decreases |keys|
  {
    if |keys| != 0 {
      var n := |keys| - 1;
      var key := keys[n];
      InInit(keys);
      FailureSamplesFrom(failures, keys[..n], e, v);
      SamplesOfAppend(FailureSamples(failures, keys[..n]), FailureSample(failures, key), MemoryFailures);
      FailureSampleContents(failures, key);
    }
  }

  /** The failure loop. */
  method FailureSampleEntries(failures: map<string, nat>, keys: seq<string>) returns (entries: seq<Entry>)
    requires forall k :: k in keys ==> k in failures
    ensures entries == FailureSamples(failures, keys)
  {
    entries := [];
    for i := 0 to |keys|
      invariant entries == FailureSamples(failures, keys[..i])
    {
      assert keys[..i + 1][..i] == keys[..i];
      var key := keys[i];
      var parts := Split(key, ':');
      if |parts| == 2 {
        entries := entries + [Sample(MemoryFailures, [("failure_type", parts[0]), ("scope", parts[1])], Int(failures[key]))];
      }
    }
    assert keys[..|keys|] == keys;
  }

  function MemoryHead(m: MemoryMetrics): seq<Entry>
  {
    [Block(MemoryUsage, [], Int(m.usageBytes))]
    + OptBlock(MemoryWorkingSet, m.workingSetBytes)
    + OptBlock(MemoryCache, m.cacheBytes)
    + OptBlock(MemoryRss, m.rssBytes)
    + OptBlock(MemorySwap, m.swapBytes)
  }

  function FailureEntries(m: MemoryMetrics, keys: seq<string>): seq<Entry>
    requires forall k :: k in keys ==> k in m.failures
  {
    if m.failures != map[] then [Header(MemoryFailures, false)] + FailureSamples(m.failures, keys) else []
  }

  /**
   * Usage always; working set, cache, rss and swap when present; the
   * failures header and one sample per well-formed key when there are
   * failures. The mapped-file figure is never written.
   */
  function MemoryEntries(m: MemoryMetrics, keys: seq<string>): seq<Entry>
    requires forall k :: k in keys ==> k in m.failures
  {
    MemoryHead(m) + FailureEntries(m, keys)
  }

  method FormatMemory(m: MemoryMetrics, show: real -> string) returns (output: string, ghost order: seq<string>)
    ensures IsEnumeration(order, m.failures.Keys)
    ensures output == Render(m.labels, show, MemoryEntries(m, order))
  {
    var entries := [Block(MemoryUsage, [], Int(m.usageBytes))];
    if m.workingSetBytes.Some? {
      entries := entries + [Block(MemoryWorkingSet, [], Int(m.workingSetBytes.value))];
    }
    if m.cacheBytes.Some? {
      entries := entries + [Block(MemoryCache, [], Int(m.cacheBytes.value))];
    }
    assert entries == [Block(MemoryUsage, [], Int(m.usageBytes))]
      + OptBlock(MemoryWorkingSet, m.workingSetBytes) + OptBlock(MemoryCache, m.cacheBytes);
    if m.rssBytes.Some? {
      entries := entries + [Block(MemoryRss, [], Int(m.rssBytes.value))];
    }
    if m.swapBytes.Some? {
      entries := entries + [Block(MemorySwap, [], Int(m.swapBytes.value))];
    }
    assert entries == MemoryHead(m);
    if m.failures != map[] {
      var keys := Enumerate(m.failures.Keys);
      order := keys;
      var samples := FailureSampleEntries(m.failures, keys);
      entries := entries + ([Header(MemoryFailures, false)] + samples);
    } else {
      order := [];
    }
    assert entries == MemoryEntries(m, order);
    output := RenderEntries(m.labels, show, entries);
  }

  lemma MemoryParts(m: MemoryMetrics, keys: seq<string>, f: Family)
    requires forall k :: k in keys ==> k in m.failures
    ensures SamplesOf(MemoryEntries(m, keys), f) ==
      (if f == MemoryUsage then [([], Int(m.usageBytes))] else [])
      + SamplesOf(OptBlock(MemoryWorkingSet, m.workingSetBytes), f)
      + SamplesOf(OptBlock(MemoryCache, m.cacheBytes), f)
      + SamplesOf(OptBlock(MemoryRss, m.rssBytes), f)
      + SamplesOf(OptBlock(MemorySwap, m.swapBytes), f)
      + SamplesOf(FailureEntries(m, keys), f)
    ensures TypeLines(MemoryEntries(m, keys), f) ==
      (if f == MemoryUsage then 1 else 0)
      + TypeLines(OptBlock(MemoryWorkingSet, m.workingSetBytes), f)
      + TypeLines(OptBlock(MemoryCache, m.cacheBytes), f)
      + TypeLines(OptBlock(MemoryRss, m.rssBytes), f)
      + TypeLines(OptBlock(MemorySwap, m.swapBytes), f)
      + TypeLines(FailureEntries(m, keys), f)
  {
    var u := Block(MemoryUsage, [], Int(m.usageBytes));
    var head := MemoryHead(m);
    Split5([u], OptBlock(MemoryWorkingSet, m.workingSetBytes), OptBlock(MemoryCache, m.cacheBytes),
      OptBlock(MemoryRss, m.rssBytes), OptBlock(MemorySwap, m.swapBytes), f);
    SamplesOfAppend(head, FailureEntries(m, keys), f);
    TypeLinesAppend(head, FailureEntries(m, keys), f);
    Single(u, f);
  }

  lemma FailureEntriesContents(m: MemoryMetrics, keys: seq<string>, f: Family)
    requires forall k :: k in keys ==> k in m.failures
    ensures SamplesOf(FailureEntries(m, keys), f) ==
      if f == MemoryFailures && m.failures != map[] then SamplesOf(FailureSamples(m.failures, keys), f) else []
    ensures TypeLines(FailureEntries(m, keys), f) == if f == MemoryFailures && m.failures != map[] then 1 else 0
  {
    if m.failures != map[] {
      SectionContents(MemoryFailures, false, FailureSamples(m.failures, keys), f);
    }
  }

  lemma MemoryFamily(m: MemoryMetrics, keys: seq<string>, f: Family)
    requires forall k :: k in keys ==> k in m.failures
    requires f != MemoryFailures
    ensures SamplesOf(MemoryEntries(m, keys), f) ==
      (if f == MemoryUsage then [([], Int(m.usageBytes))] else [])
      + (if f == MemoryWorkingSet && m.workingSetBytes.Some? then [([], Int(m.workingSetBytes.value))] else [])
      + (if f == MemoryCache && m.cacheBytes.Some? then [([], Int(m.cacheBytes.value))] else [])
      + (if f == MemoryRss && m.rssBytes.Some? then [([], Int(m.rssBytes.value))] else [])
      + (if f == MemorySwap && m.swapBytes.Some? then [([], Int(m.swapBytes.value))] else [])
  {
    MemoryParts(m, keys, f);
    OptBlockContents(MemoryWorkingSet, m.workingSetBytes, f);
    OptBlockContents(MemoryCache, m.cacheBytes, f);
    OptBlockContents(MemoryRss, m.rssBytes, f);
    OptBlockContents(MemorySwap, m.swapBytes, f);
    FailureEntriesContents(m, keys, f);
  }

  /**
   * The memory samples: one usage sample always, one working-set, cache,
   * rss and swap sample exactly when that figure is present, and nothing
   * for the mapped-file figure.
   */
  lemma MemoryEmission(m: MemoryMetrics, keys: seq<string>)
    requires forall k :: k in keys ==> k in m.failures
    ensures SamplesOf(MemoryEntries(m, keys), MemoryUsage) == [([], Int(m.usageBytes))]
    ensures SamplesOf(MemoryEntries(m, keys), MemoryWorkingSet) ==
      if m.workingSetBytes.Some? then [([], Int(m.workingSetBytes.value))] else []
    ensures SamplesOf(MemoryEntries(m, keys), MemoryCache) ==
      if m.cacheBytes.Some? then [([], Int(m.cacheBytes.value))] else []
    ensures SamplesOf(MemoryEntries(m, keys), MemoryRss) ==
      if m.rssBytes.Some? then [([], Int(m.rssBytes.value))] else []
    ensures SamplesOf(MemoryEntries(m, keys), MemorySwap) ==
      if m.swapBytes.Some? then [([], Int(m.swapBytes.value))] else []
    ensures MemoryEntries(m.(mappedFileBytes := None), keys) == MemoryEntries(m, keys)
  {
    MemoryFamily(m, keys, MemoryUsage);
    MemoryFamily(m, keys, MemoryWorkingSet);
    MemoryFamily(m, keys, MemoryCache);
    MemoryFamily(m, keys, MemoryRss);
    MemoryFamily(m, keys, MemorySwap);
  }

  /**
   * Failure output: one `# TYPE` line exactly when there are failures, and
   * a sample labelled `failure_type`/`scope` for exactly the keys that split
   * on `:` into two parts, carrying that key's count.
   */
  lemma MemoryFailureEmission(m: MemoryMetrics, keys: seq<string>, e: Extras, v: Value)
    requires IsEnumeration(keys, m.failures.Keys)
    ensures TypeLines(MemoryEntries(m, keys), MemoryFailures) == if m.failures != map[] then 1 else 0
    ensures (e, v) in SamplesOf(MemoryEntries(m, keys), MemoryFailures) <==>
      exists k :: k in m.failures && FailureExtras(k) == Some(e) && v == Int(m.failures[k])
  {
    MemoryParts(m, keys, MemoryFailures);
    OptBlockContents(MemoryWorkingSet, m.workingSetBytes, MemoryFailures);
    OptBlockContents(MemoryCache, m.cacheBytes, MemoryFailures);
    OptBlockContents(MemoryRss, m.rssBytes, MemoryFailures);
    OptBlockContents(MemorySwap, m.swapBytes, MemoryFailures);
    FailureEntriesContents(m, keys, MemoryFailures);
    FailureSamplesFrom(m.failures, keys, e, v);
    assert keys != [] ==> keys[0] in m.failures.Keys;
  }
}

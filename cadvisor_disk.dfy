/**
 * The disk part of the cAdvisor-style output: the operation and byte
 * totals and the read and write times, written only when any operation
 * happened, then one block-I/O sample per device and direction. The
 * per-device map is a hash map; the order its values come out in is a ghost
 * enumeration of its keys.
 */
module CadvisorDisk {
  import opened Wrappers
  import opened Seqs
  import opened CadvisorLabels
  import opened CadvisorFormat

  /** One block device's counters; only the operation counts are ever written. */
  datatype DeviceMetrics = DeviceMetrics(
    device: string,
    major: string,
    minor: string,
    readCount: nat,
    writeCount: nat,
    readsBytes: nat,
    writesBytes: nat,
    readTimeSeconds: real,
    writeTimeSeconds: real)

  /** Disk totals, the I/O times, and the per-device map. */
  datatype DiskMetrics = DiskMetrics(
    readsTotal: nat,
    writesTotal: nat,
    readsBytesTotal: nat,
    writesBytesTotal: nat,
    readSecondsTotal: real,
    writeSecondsTotal: real,
    ioTimeSecondsTotal: Option<real>,
    ioTimeWeightedSecondsTotal: Option<real>,
    perDevice: map<string, DeviceMetrics>,
    labels: StandardLabels)

  /** The four operation and byte families. */
  predicate IsDiskCount(f: Family)
  {
    f == DiskReads || f == DiskWrites || f == DiskReadBytes || f == DiskWriteBytes
  }

  /** The total a count family reports. */
  function DiskCount(d: DiskMetrics, f: Family): nat
  {
    if f == DiskReads then d.readsTotal
    else if f == DiskWrites then d.writesTotal
    else if f == DiskReadBytes then d.readsBytesTotal
    else if f == DiskWriteBytes then d.writesBytesTotal
    else 0
  }

  /** Whether any read or write happened: the condition for writing every total. */
  predicate DiskActive(d: DiskMetrics)
  {
    d.readsTotal > 0 || d.writesTotal > 0
  }

  function DiskCounts(d: DiskMetrics): seq<Entry>
  {
    [Block(DiskReads, [], Int(d.readsTotal)),
     Block(DiskWrites, [], Int(d.writesTotal)),
     Block(DiskReadBytes, [], Int(d.readsBytesTotal)),
     Block(DiskWriteBytes, [], Int(d.writesBytesTotal))]
  }

  /** The four counts, then each time that is positive; nothing at all when no operation happened. */
  function DiskTotals(d: DiskMetrics): seq<Entry>
  {
    if DiskActive(d) then
      DiskCounts(d)
      + PositiveFloatBlock(DiskReadSeconds, [], d.readSecondsTotal)
      + PositiveFloatBlock(DiskWriteSeconds, [], d.writeSecondsTotal)
    else []
  }

  /** The labels of a device sample: the device, its numbers and the direction. */
  function DeviceExtras(dev: DeviceMetrics, operation: string): Extras
  {
    [("device", dev.device), ("major", dev.major), ("minor", dev.minor), ("operation", operation)]
  }

  /** A device's read sample when it read, then its write sample when it wrote. */
  function DeviceSample(dev: DeviceMetrics): seq<Entry>
  {
    (if dev.readCount > 0 then [Sample(BlkioDeviceUsage, DeviceExtras(dev, "Read"), Int(dev.readCount))] else [])
    + (if dev.writeCount > 0 then [Sample(BlkioDeviceUsage, DeviceExtras(dev, "Write"), Int(dev.writeCount))] else [])
  }

  /** The device samples in the order of `keys`; no help or type line precedes them. */
  function DeviceSamples(per: map<string, DeviceMetrics>, keys: seq<string>): (r: seq<Entry>)
    requires forall k :: k in keys ==> k in per
    ensures AllSamplesOf(r, BlkioDeviceUsage)
    decreases |keys|
  {
    if |keys| == 0 then []
    else
      var n := |keys| - 1;
      DeviceSamples(per, keys[..n]) + DeviceSample(per[keys[n]])
  }

  function DeviceEntries(d: DiskMetrics, keys: seq<string>): seq<Entry>
    requires forall k :: k in keys ==> k in d.perDevice
  {
    if d.perDevice != map[] then DeviceSamples(d.perDevice, keys) else []
  }

  /** The totals, then the device samples. The overall I/O times are never written. */
  function DiskEntries(d: DiskMetrics, keys: seq<string>): seq<Entry>
    requires forall k :: k in keys ==> k in d.perDevice
  {
    DiskTotals(d) + DeviceEntries(d, keys)
  }

  /** The loop over the devices. */
  method DeviceSampleEntries(per: map<string, DeviceMetrics>, keys: seq<string>) returns (entries: seq<Entry>)
    requires forall k :: k in keys ==> k in per
    ensures entries == DeviceSamples(per, keys)
  {
    entries := [];
    for i := 0 to |keys|
      invariant entries == DeviceSamples(per, keys[..i])
    {
      assert keys[..i + 1][..i] == keys[..i];
      var dev := per[keys[i]];
      var before := entries;
      if dev.readCount > 0 {
        entries := entries + [Sample(BlkioDeviceUsage, DeviceExtras(dev, "Read"), Int(dev.readCount))];
      }
      if dev.writeCount > 0 {
        entries := entries + [Sample(BlkioDeviceUsage, DeviceExtras(dev, "Write"), Int(dev.writeCount))];
      }
      assert entries == before + DeviceSample(dev);
    }
    assert keys[..|keys|] == keys;
  }

  method DiskTotalEntries(d: DiskMetrics) returns (entries: seq<Entry>)
    ensures entries == DiskTotals(d)
  {
    entries := [];
    if d.readsTotal > 0 || d.writesTotal > 0 {
      entries := [Block(DiskReads, [], Int(d.readsTotal)),
        Block(DiskWrites, [], Int(d.writesTotal)),
        Block(DiskReadBytes, [], Int(d.readsBytesTotal)),
        Block(DiskWriteBytes, [], Int(d.writesBytesTotal))];
      if d.readSecondsTotal > 0.0 {
        entries := entries + [Block(DiskReadSeconds, [], Float(d.readSecondsTotal))];
      }
      assert entries == DiskCounts(d) + PositiveFloatBlock(DiskReadSeconds, [], d.readSecondsTotal);
      if d.writeSecondsTotal > 0.0 {
        entries := entries + [Block(DiskWriteSeconds, [], Float(d.writeSecondsTotal))];
      }
    }
  }

  method FormatDisk(d: DiskMetrics, show: real -> string) returns (output: string, ghost order: seq<string>)
    ensures IsEnumeration(order, d.perDevice.Keys)
    ensures output == Render(d.labels, show, DiskEntries(d, order))
  {
    var entries := DiskTotalEntries(d);
    if d.perDevice != map[] {
      var keys := Enumerate(d.perDevice.Keys);
      order := keys;
      var samples := DeviceSampleEntries(d.perDevice, keys);
      entries := entries + samples;
    } else {
      order := [];
      assert entries + [] == entries;
    }
    assert entries == DiskEntries(d, order);
    output := RenderEntries(d.labels, show, entries);
  }

  lemma DiskCountsContents(d: DiskMetrics, f: Family)
    ensures SamplesOf(DiskCounts(d), f) == if IsDiskCount(f) then [([], Int(DiskCount(d, f)))] else []
    ensures TypeLines(DiskCounts(d), f) == if IsDiskCount(f) then 1 else 0
  {
    FourBlocks(DiskReads, DiskWrites, DiskReadBytes, DiskWriteBytes, [],
      Int(d.readsTotal), Int(d.writesTotal), Int(d.readsBytesTotal), Int(d.writesBytesTotal), f);
  }

  lemma DiskTotalsContents(d: DiskMetrics, f: Family)
    ensures SamplesOf(DiskTotals(d), f) ==
      if DiskActive(d) then
        SamplesOf(DiskCounts(d), f)
        + SamplesOf(PositiveFloatBlock(DiskReadSeconds, [], d.readSecondsTotal), f)
        + SamplesOf(PositiveFloatBlock(DiskWriteSeconds, [], d.writeSecondsTotal), f)
      else []
    ensures TypeLines(DiskTotals(d), f) ==
      if DiskActive(d) then
        TypeLines(DiskCounts(d), f)
        + TypeLines(PositiveFloatBlock(DiskReadSeconds, [], d.readSecondsTotal), f)
        + TypeLines(PositiveFloatBlock(DiskWriteSeconds, [], d.writeSecondsTotal), f)
      else 0
  {
    if DiskActive(d) {
      Split3(DiskCounts(d), PositiveFloatBlock(DiskReadSeconds, [], d.readSecondsTotal),
        PositiveFloatBlock(DiskWriteSeconds, [], d.writeSecondsTotal), f);
    }
  }

  lemma DeviceEntriesContents(d: DiskMetrics, keys: seq<string>, f: Family)
    requires forall k :: k in keys ==> k in d.perDevice
    ensures f != BlkioDeviceUsage ==> SamplesOf(DeviceEntries(d, keys), f) == []
    ensures TypeLines(DeviceEntries(d, keys), f) == 0
  {
    if d.perDevice != map[] {
      OnlySamples(DeviceSamples(d.perDevice, keys), BlkioDeviceUsage, f);
    }
  }

  lemma DiskParts(d: DiskMetrics, keys: seq<string>, f: Family)
    requires forall k :: k in keys ==> k in d.perDevice
    ensures SamplesOf(DiskEntries(d, keys), f) == SamplesOf(DiskTotals(d), f) + SamplesOf(DeviceEntries(d, keys), f)
    ensures TypeLines(DiskEntries(d, keys), f) == TypeLines(DiskTotals(d), f) + TypeLines(DeviceEntries(d, keys), f)
  {
    SamplesOfAppend(DiskTotals(d), DeviceEntries(d, keys), f);
    TypeLinesAppend(DiskTotals(d), DeviceEntries(d, keys), f);
  }

  /**
   * Each operation and byte total is written once, with no extra labels,
   * exactly when any read or write happened, even when it is zero itself.
   */
  lemma DiskCountEmission(d: DiskMetrics, keys: seq<string>, f: Family)
    requires forall k :: k in keys ==> k in d.perDevice
    requires IsDiskCount(f)
    ensures SamplesOf(DiskEntries(d, keys), f) == if DiskActive(d) then [([], Int(DiskCount(d, f)))] else []
    ensures TypeLines(DiskEntries(d, keys), f) == if DiskActive(d) then 1 else 0
  {
    DiskCountSamples(d, keys, f);
    DiskCountTypeLines(d, keys, f);
  }

  /** A whole made of the totals and the devices, where only the first block of the totals has anything. */
  lemma OnlyFirst<T>(all: seq<T>, totals: seq<T>, devices: seq<T>, first: seq<T>, second: seq<T>, third: seq<T>, active: bool)
    requires all == totals + devices && devices == []
    requires totals == if active then first + second + third else []
    requires second == [] && third == []
    ensures all == if active then first else []
  {
    assert first + [] + [] == first;
    assert totals + [] == totals;
  }

  lemma DiskCountSamples(d: DiskMetrics, keys: seq<string>, f: Family)
    requires forall k :: k in keys ==> k in d.perDevice
    requires IsDiskCount(f)
    ensures SamplesOf(DiskEntries(d, keys), f) == if DiskActive(d) then [([], Int(DiskCount(d, f)))] else []
  {
    DiskCountsContents(d, f);
    PositiveFloatBlockContents(DiskReadSeconds, [], d.readSecondsTotal, f);
    PositiveFloatBlockContents(DiskWriteSeconds, [], d.writeSecondsTotal, f);
    DeviceEntriesContents(d, keys, f);
    DiskTotalsContents(d, f);
    DiskParts(d, keys, f);
    OnlyFirst(SamplesOf(DiskEntries(d, keys), f), SamplesOf(DiskTotals(d), f), SamplesOf(DeviceEntries(d, keys), f),
      SamplesOf(DiskCounts(d), f),
      SamplesOf(PositiveFloatBlock(DiskReadSeconds, [], d.readSecondsTotal), f),
      SamplesOf(PositiveFloatBlock(DiskWriteSeconds, [], d.writeSecondsTotal), f), DiskActive(d));
  }

  lemma DiskCountTypeLines(d: DiskMetrics, keys: seq<string>, f: Family)
    requires forall k :: k in keys ==> k in d.perDevice
    requires IsDiskCount(f)
    ensures TypeLines(DiskEntries(d, keys), f) == if DiskActive(d) then 1 else 0
  {
    DiskCountsContents(d, f);
    PositiveFloatBlockContents(DiskReadSeconds, [], d.readSecondsTotal, f);
    PositiveFloatBlockContents(DiskWriteSeconds, [], d.writeSecondsTotal, f);
    DeviceEntriesContents(d, keys, f);
    DiskTotalsContents(d, f);
    DiskParts(d, keys, f);
  }

  /**
   * Each I/O time is written, with no extra labels, exactly when some
   * operation happened and that time is positive; the overall and weighted
   * I/O times are never written.
   */
  lemma DiskSecondsEmission(d: DiskMetrics, keys: seq<string>)
    requires forall k :: k in keys ==> k in d.perDevice
    ensures SamplesOf(DiskEntries(d, keys), DiskReadSeconds) ==
      if DiskActive(d) && d.readSecondsTotal > 0.0 then [([], Float(d.readSecondsTotal))] else []
    ensures SamplesOf(DiskEntries(d, keys), DiskWriteSeconds) ==
      if DiskActive(d) && d.writeSecondsTotal > 0.0 then [([], Float(d.writeSecondsTotal))] else []
    ensures DiskEntries(d.(ioTimeSecondsTotal := None, ioTimeWeightedSecondsTotal := None), keys) == DiskEntries(d, keys)
  {
    DiskSecondsFamily(d, keys, DiskReadSeconds);
    DiskSecondsFamily(d, keys, DiskWriteSeconds);
  }

  lemma DiskSecondsFamily(d: DiskMetrics, keys: seq<string>, f: Family)
    requires forall k :: k in keys ==> k in d.perDevice
    requires f == DiskReadSeconds || f == DiskWriteSeconds
    ensures SamplesOf(DiskEntries(d, keys), f) ==
      if DiskActive(d) then
        (if f == DiskReadSeconds && d.readSecondsTotal > 0.0 then [([], Float(d.readSecondsTotal))] else [])
        + (if f == DiskWriteSeconds && d.writeSecondsTotal > 0.0 then [([], Float(d.writeSecondsTotal))] else [])
      else []
  {
    DiskCountsContents(d, f);
    DiskParts(d, keys, f);
    DeviceEntriesContents(d, keys, f);
    DiskTotalsContents(d, f);
    PositiveFloatBlockContents(DiskReadSeconds, [], d.readSecondsTotal, f);
    PositiveFloatBlockContents(DiskWriteSeconds, [], d.writeSecondsTotal, f);
    assert SamplesOf(DiskTotals(d), f) + [] == SamplesOf(DiskTotals(d), f);
  }

  /** What a device contributes: its read count when it read, its write count when it wrote. */
  predicate DeviceReports(dev: DeviceMetrics, e: Extras, v: Value)
  {
    (dev.readCount > 0 && e == DeviceExtras(dev, "Read") && v == Int(dev.readCount))
    || (dev.writeCount > 0 && e == DeviceExtras(dev, "Write") && v == Int(dev.writeCount))
  }

  lemma DeviceSampleMembers(dev: DeviceMetrics, e: Extras, v: Value)
    ensures (e, v) in SamplesOf(DeviceSample(dev), BlkioDeviceUsage) <==> DeviceReports(dev, e, v)
  {
    var r: seq<(Extras, Value)> := if dev.readCount > 0 then [(DeviceExtras(dev, "Read"), Int(dev.readCount))] else [];
    var w: seq<(Extras, Value)> := if dev.writeCount > 0 then [(DeviceExtras(dev, "Write"), Int(dev.writeCount))] else [];
    DeviceSampleContents(dev);
    assert (e, v) in r + w <==> (e, v) in r || (e, v) in w;
  }

  lemma DeviceSampleContents(dev: DeviceMetrics)
    ensures SamplesOf(DeviceSample(dev), BlkioDeviceUsage) ==
      (if dev.readCount > 0 then [(DeviceExtras(dev, "Read"), Int(dev.readCount))] else [])
      + (if dev.writeCount > 0 then [(DeviceExtras(dev, "Write"), Int(dev.writeCount))] else [])
  {
    var r := if dev.readCount > 0 then [Sample(BlkioDeviceUsage, DeviceExtras(dev, "Read"), Int(dev.readCount))] else [];
    var w := if dev.writeCount > 0 then [Sample(BlkioDeviceUsage, DeviceExtras(dev, "Write"), Int(dev.writeCount))] else [];
    SamplesOfAppend(r, w, BlkioDeviceUsage);
    if dev.readCount > 0 {
      Single(r[0], BlkioDeviceUsage);
    }
    if dev.writeCount > 0 {
      Single(w[0], BlkioDeviceUsage);
    }
  }

  lemma {:induction false} DeviceSamplesFrom(per: map<string, DeviceMetrics>, keys: seq<string>, e: Extras, v: Value)
    requires forall k :: k in keys ==> k in per
    ensures (e, v) in SamplesOf(DeviceSamples(per, keys), BlkioDeviceUsage) <==>
      exists k :: k in keys && DeviceReports(per[k], e, v)
    decreases |keys|
  {
    if |keys| != 0 {
      var n := |keys| - 1;
      var key := keys[n];
      InInit(keys);
      DeviceSamplesFrom(per, keys[..n], e, v);
      SamplesOfAppend(DeviceSamples(per, keys[..n]), DeviceSample(per[key]), BlkioDeviceUsage);
      DeviceSampleMembers(per[key], e, v);
    }
  }

  /** The totals hold nothing of the block-I/O family. */
  lemma TotalsWithoutDevices(d: DiskMetrics)
    ensures SamplesOf(DiskTotals(d), BlkioDeviceUsage) == []
    ensures TypeLines(DiskTotals(d), BlkioDeviceUsage) == 0
  {
    if DiskActive(d) {
      var f := BlkioDeviceUsage;
      Split3(DiskCounts(d), PositiveFloatBlock(DiskReadSeconds, [], d.readSecondsTotal),
        PositiveFloatBlock(DiskWriteSeconds, [], d.writeSecondsTotal), f);
      DiskCountsContents(d, f);
      PositiveFloatBlockContents(DiskReadSeconds, [], d.readSecondsTotal, f);
      PositiveFloatBlockContents(DiskWriteSeconds, [], d.writeSecondsTotal, f);
    }
  }

  /** Over an enumeration of the devices, the device entries are the device samples. */
  lemma DeviceEntriesAreSamples(d: DiskMetrics, keys: seq<string>)
    requires IsEnumeration(keys, d.perDevice.Keys)
    ensures DeviceEntries(d, keys) == DeviceSamples(d.perDevice, keys)
  {
    assert keys != [] ==> keys[0] in d.perDevice.Keys;
  }

  /** The block-I/O samples are the device samples alone, and nothing holds their type line. */
  lemma DeviceSamplesOnly(d: DiskMetrics, keys: seq<string>)
    requires IsEnumeration(keys, d.perDevice.Keys)
    ensures SamplesOf(DiskEntries(d, keys), BlkioDeviceUsage) == SamplesOf(DeviceSamples(d.perDevice, keys), BlkioDeviceUsage)
    ensures TypeLines(DiskEntries(d, keys), BlkioDeviceUsage) == 0
  {
    var devices := SamplesOf(DeviceSamples(d.perDevice, keys), BlkioDeviceUsage);
    TotalsWithoutDevices(d);
    DeviceEntriesAreSamples(d, keys);
    DiskParts(d, keys, BlkioDeviceUsage);
    DeviceEntriesContents(d, keys, BlkioDeviceUsage);
    assert [] + devices == devices;
  }

  /**
   * Block-I/O samples: one labelled with the device, its major and minor
   * numbers and `operation="Read"` for each device that read, one with
   * `operation="Write"` for each device that wrote, and no help or type
   * line for them.
   */
  lemma DeviceEmission(d: DiskMetrics, keys: seq<string>, e: Extras, v: Value)
    requires IsEnumeration(keys, d.perDevice.Keys)
    ensures (e, v) in SamplesOf(DiskEntries(d, keys), BlkioDeviceUsage) <==>
      exists k :: k in d.perDevice && DeviceReports(d.perDevice[k], e, v)
    ensures TypeLines(DiskEntries(d, keys), BlkioDeviceUsage) == 0
  {
    DeviceSamplesOnly(d, keys);
    DeviceSamplesFrom(d.perDevice, keys, e, v);
  }
}

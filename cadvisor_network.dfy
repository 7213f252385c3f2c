/**
 * The network part of the cAdvisor-style output: the byte and packet
 * totals, the error totals, and a per-interface section for each of the
 * four traffic families. The per-interface map is a hash map; the order its
 * values come out in is a ghost enumeration of its keys.
 */
module CadvisorNetwork {
  import opened Wrappers
  import opened Seqs
  import opened CadvisorLabels
  import opened CadvisorFormat

  /** One interface's counters; only the byte and packet counters are ever written. */
  datatype InterfaceMetrics = InterfaceMetrics(
    name: string,
    receiveBytes: nat,
    transmitBytes: nat,
    receivePackets: nat,
    transmitPackets: nat,
    receiveErrors: Option<nat>,
    transmitErrors: Option<nat>,
    receiveDropped: Option<nat>,
    transmitDropped: Option<nat>)

  /** Network totals, the optional error and dropped totals, and the per-interface map. */
  datatype NetworkMetrics = NetworkMetrics(
    receiveBytesTotal: nat,
    transmitBytesTotal: nat,
    receivePacketsTotal: nat,
    transmitPacketsTotal: nat,
    receiveErrorsTotal: Option<nat>,
    transmitErrorsTotal: Option<nat>,
    receivePacketsDroppedTotal: Option<nat>,
    transmitPacketsDroppedTotal: Option<nat>,
    perInterface: map<string, InterfaceMetrics>,
    labels: StandardLabels)

  /** The four byte and packet families, written both as totals and per interface. */
  predicate IsTraffic(f: Family)
  {
    f == NetRxBytes || f == NetTxBytes || f == NetRxPackets || f == NetTxPackets
  }

  /** The total a traffic family reports. */
  function TrafficTotal(n: NetworkMetrics, f: Family): nat
  {
    if f == NetRxBytes then n.receiveBytesTotal
    else if f == NetTxBytes then n.transmitBytesTotal
    else if f == NetRxPackets then n.receivePacketsTotal
    else if f == NetTxPackets then n.transmitPacketsTotal
    else 0
  }

  /** The per-interface counter a traffic family reports. */
  function InterfaceCounter(iface: InterfaceMetrics, f: Family): nat
  {
    if f == NetRxBytes then iface.receiveBytes
    else if f == NetTxBytes then iface.transmitBytes
    else if f == NetRxPackets then iface.receivePackets
    else if f == NetTxPackets then iface.transmitPackets
    else 0
  }

  /** Whether any bytes moved in either direction: the condition for writing the totals. */
  predicate TrafficMoved(n: NetworkMetrics)
  {
    n.receiveBytesTotal > 0 || n.transmitBytesTotal > 0
  }

  /** The four totals, together, when any bytes moved. */
  function NetworkTotals(n: NetworkMetrics): seq<Entry>
  {
    if TrafficMoved(n) then
      [Block(NetRxBytes, [], Int(n.receiveBytesTotal)),
       Block(NetTxBytes, [], Int(n.transmitBytesTotal)),
       Block(NetRxPackets, [], Int(n.receivePacketsTotal)),
       Block(NetTxPackets, [], Int(n.transmitPacketsTotal))]
    else []
  }

  /** The error totals that are present. */
  function NetworkErrors(n: NetworkMetrics): seq<Entry>
  {
    OptBlock(NetRxErrors, n.receiveErrorsTotal) + OptBlock(NetTxErrors, n.transmitErrorsTotal)
  }

  /** One interface's sample of family `f`, labelled with the interface name, when its counter is positive. */
  function InterfaceSample(f: Family, iface: InterfaceMetrics): seq<Entry>
  {
    if InterfaceCounter(iface, f) > 0 then [Sample(f, [("interface", iface.name)], Int(InterfaceCounter(iface, f)))] else []
  }

  /** The samples of `f` over the interfaces, in the order of `keys`. */
  function InterfaceSamples(f: Family, per: map<string, InterfaceMetrics>, keys: seq<string>): (r: seq<Entry>)
    requires forall k :: k in keys ==> k in per
    ensures AllSamplesOf(r, f)
    decreases |keys|
  {
    if |keys| == 0 then []
    else
      var n := |keys| - 1;
      InterfaceSamples(f, per, keys[..n]) + InterfaceSample(f, per[keys[n]])
  }

  /** A per-interface header ("... per interface") followed by the interfaces' samples of `f`. */
  function InterfaceSection(f: Family, per: map<string, InterfaceMetrics>, keys: seq<string>): seq<Entry>
    requires forall k :: k in keys ==> k in per
  {
    [Header(f, true)] + InterfaceSamples(f, per, keys)
  }

  /** When there are interfaces, a section for each traffic family. */
  function PerInterfaceEntries(n: NetworkMetrics, keys: seq<string>): seq<Entry>
    requires forall k :: k in keys ==> k in n.perInterface
  {
    if n.perInterface != map[] then
      InterfaceSection(NetRxBytes, n.perInterface, keys)
      + InterfaceSection(NetTxBytes, n.perInterface, keys)
      + InterfaceSection(NetRxPackets, n.perInterface, keys)
      + InterfaceSection(NetTxPackets, n.perInterface, keys)
    else []
  }

  /**
   * The totals when any bytes moved, the error totals that are present,
   * then the per-interface sections. The dropped totals and the
   * per-interface error and dropped counts are never written.
   */
  function NetworkEntries(n: NetworkMetrics, keys: seq<string>): seq<Entry>
    requires forall k :: k in keys ==> k in n.perInterface
  {
    NetworkTotals(n) + NetworkErrors(n) + PerInterfaceEntries(n, keys)
  }

  /** The loop over the interfaces for one family. */
  method InterfaceSampleEntries(f: Family, per: map<string, InterfaceMetrics>, keys: seq<string>) returns (entries: seq<Entry>)
    requires forall k :: k in keys ==> k in per
    ensures entries == InterfaceSamples(f, per, keys)
  {
    entries := [];
    for i := 0 to |keys|
      invariant entries == InterfaceSamples(f, per, keys[..i])
    {
      assert keys[..i + 1][..i] == keys[..i];
      var iface := per[keys[i]];
      var count := InterfaceCounter(iface, f);
      if count > 0 {
        entries := entries + [Sample(f, [("interface", iface.name)], Int(count))];
      }
    }
    assert keys[..|keys|] == keys;
  }

  /** The totals and the error totals. */
  method NetworkTotalEntries(n: NetworkMetrics) returns (entries: seq<Entry>)
    ensures entries == NetworkTotals(n) + NetworkErrors(n)
  {
    entries := [];
    if n.receiveBytesTotal > 0 || n.transmitBytesTotal > 0 {
      entries := [Block(NetRxBytes, [], Int(n.receiveBytesTotal)),
        Block(NetTxBytes, [], Int(n.transmitBytesTotal)),
        Block(NetRxPackets, [], Int(n.receivePacketsTotal)),
        Block(NetTxPackets, [], Int(n.transmitPacketsTotal))];
    }
    var totals := entries;
    if n.receiveErrorsTotal.Some? {
      entries := entries + [Block(NetRxErrors, [], Int(n.receiveErrorsTotal.value))];
    }
    assert entries == totals + OptBlock(NetRxErrors, n.receiveErrorsTotal);
    if n.transmitErrorsTotal.Some? {
      entries := entries + [Block(NetTxErrors, [], Int(n.transmitErrorsTotal.value))];
    }
  }

  method FormatNetwork(n: NetworkMetrics, show: real -> string) returns (output: string, ghost order: seq<string>)
    ensures IsEnumeration(order, n.perInterface.Keys)
    ensures output == Render(n.labels, show, NetworkEntries(n, order))
  {
    var entries := NetworkTotalEntries(n);
    if n.perInterface != map[] {
      var keys := Enumerate(n.perInterface.Keys);
      order := keys;
      var rxBytes := InterfaceSampleEntries(NetRxBytes, n.perInterface, keys);
      var txBytes := InterfaceSampleEntries(NetTxBytes, n.perInterface, keys);
      var rxPackets := InterfaceSampleEntries(NetRxPackets, n.perInterface, keys);
      var txPackets := InterfaceSampleEntries(NetTxPackets, n.perInterface, keys);
      var sections := ([Header(NetRxBytes, true)] + rxBytes) + ([Header(NetTxBytes, true)] + txBytes)
        + ([Header(NetRxPackets, true)] + rxPackets) + ([Header(NetTxPackets, true)] + txPackets);
      assert sections == PerInterfaceEntries(n, keys);
      entries := entries + sections;
    } else {
      order := [];
    }
    assert entries == NetworkEntries(n, order);
    output := RenderEntries(n.labels, show, entries);
  }

  lemma NetworkTotalsContents(n: NetworkMetrics, f: Family)
    ensures SamplesOf(NetworkTotals(n), f) ==
      if TrafficMoved(n) && IsTraffic(f) then [([], Int(TrafficTotal(n, f)))] else []
    ensures TypeLines(NetworkTotals(n), f) == if TrafficMoved(n) && IsTraffic(f) then 1 else 0
  {
    if TrafficMoved(n) {
      FourBlocks(NetRxBytes, NetTxBytes, NetRxPackets, NetTxPackets, [],
        Int(n.receiveBytesTotal), Int(n.transmitBytesTotal), Int(n.receivePacketsTotal), Int(n.transmitPacketsTotal), f);
    }
  }

  lemma NetworkErrorsContents(n: NetworkMetrics, f: Family)
    ensures SamplesOf(NetworkErrors(n), f) ==
      (if f == NetRxErrors && n.receiveErrorsTotal.Some? then [([], Int(n.receiveErrorsTotal.value))] else [])
      + (if f == NetTxErrors && n.transmitErrorsTotal.Some? then [([], Int(n.transmitErrorsTotal.value))] else [])
    ensures TypeLines(NetworkErrors(n), f) ==
      (if f == NetRxErrors && n.receiveErrorsTotal.Some? then 1 else 0)
      + (if f == NetTxErrors && n.transmitErrorsTotal.Some? then 1 else 0)
  {
    var a := OptBlock(NetRxErrors, n.receiveErrorsTotal);
    var b := OptBlock(NetTxErrors, n.transmitErrorsTotal);
    SamplesOfAppend(a, b, f);
    TypeLinesAppend(a, b, f);
    OptBlockContents(NetRxErrors, n.receiveErrorsTotal, f);
    OptBlockContents(NetTxErrors, n.transmitErrorsTotal, f);
  }

  /** Of four parts that are empty unless `f` is their own family, at most one is left. */
  lemma PickSection<T>(f: Family, g1: Family, g2: Family, g3: Family, g4: Family,
                       x1: seq<T>, x2: seq<T>, x3: seq<T>, x4: seq<T>, y1: seq<T>, y2: seq<T>, y3: seq<T>, y4: seq<T>)
    requires g1 != g2 && g1 != g3 && g1 != g4 && g2 != g3 && g2 != g4 && g3 != g4
    requires x1 == (if f == g1 then y1 else []) && x2 == (if f == g2 then y2 else [])
    requires x3 == (if f == g3 then y3 else []) && x4 == (if f == g4 then y4 else [])
    ensures x1 + x2 + x3 + x4 ==
      if f == g1 then y1 else if f == g2 then y2 else if f == g3 then y3 else if f == g4 then y4 else []
  {
    if f == g1 {
      assert x1 + x2 + x3 + x4 == y1 + [] + [] + [];
    } else if f == g2 {
      assert x1 + x2 + x3 + x4 == [] + y2 + [] + [];
    } else if f == g3 {
      assert x1 + x2 + x3 + x4 == [] + [] + y3 + [];
    } else if f == g4 {
      assert x1 + x2 + x3 + x4 == [] + [] + [] + y4;
    }
  }

  /** Four header-led sections of four distinct families: family `f` finds its samples in its own section only. */
  lemma FourSections(g1: Family, g2: Family, g3: Family, g4: Family,
                     b1: seq<Entry>, b2: seq<Entry>, b3: seq<Entry>, b4: seq<Entry>, f: Family)
    requires g1 != g2 && g1 != g3 && g1 != g4 && g2 != g3 && g2 != g4 && g3 != g4
    requires AllSamplesOf(b1, g1) && AllSamplesOf(b2, g2) && AllSamplesOf(b3, g3) && AllSamplesOf(b4, g4)
    ensures SamplesOf(([Header(g1, true)] + b1) + ([Header(g2, true)] + b2) + ([Header(g3, true)] + b3)
      + ([Header(g4, true)] + b4), f) ==
      if f == g1 then SamplesOf(b1, f) else if f == g2 then SamplesOf(b2, f)
      else if f == g3 then SamplesOf(b3, f) else if f == g4 then SamplesOf(b4, f) else []
    ensures TypeLines(([Header(g1, true)] + b1) + ([Header(g2, true)] + b2) + ([Header(g3, true)] + b3)
      + ([Header(g4, true)] + b4), f) == if f in {g1, g2, g3, g4} then 1 else 0
  {
    var s1, s2, s3, s4 := [Header(g1, true)] + b1, [Header(g2, true)] + b2, [Header(g3, true)] + b3, [Header(g4, true)] + b4;
    Split4(s1, s2, s3, s4, f);
    SectionContents(g1, true, b1, f);
    SectionContents(g2, true, b2, f);
    SectionContents(g3, true, b3, f);
    SectionContents(g4, true, b4, f);
    PickSection(f, g1, g2, g3, g4, SamplesOf(s1, f), SamplesOf(s2, f), SamplesOf(s3, f), SamplesOf(s4, f),
      SamplesOf(b1, f), SamplesOf(b2, f), SamplesOf(b3, f), SamplesOf(b4, f));
  }

  lemma PerInterfaceContents(n: NetworkMetrics, keys: seq<string>, f: Family)
    requires forall k :: k in keys ==> k in n.perInterface
    ensures SamplesOf(PerInterfaceEntries(n, keys), f) ==
      if n.perInterface != map[] && IsTraffic(f) then SamplesOf(InterfaceSamples(f, n.perInterface, keys), f) else []
    ensures TypeLines(PerInterfaceEntries(n, keys), f) == if n.perInterface != map[] && IsTraffic(f) then 1 else 0
  {
    if n.perInterface != map[] {
      var per := n.perInterface;
      FourSections(NetRxBytes, NetTxBytes, NetRxPackets, NetTxPackets,
        InterfaceSamples(NetRxBytes, per, keys), InterfaceSamples(NetTxBytes, per, keys),
        InterfaceSamples(NetRxPackets, per, keys), InterfaceSamples(NetTxPackets, per, keys), f);
    }
  }

  lemma NetworkParts(n: NetworkMetrics, keys: seq<string>, f: Family)
    requires forall k :: k in keys ==> k in n.perInterface
    ensures SamplesOf(NetworkEntries(n, keys), f) ==
      SamplesOf(NetworkTotals(n), f) + SamplesOf(NetworkErrors(n), f) + SamplesOf(PerInterfaceEntries(n, keys), f)
    ensures TypeLines(NetworkEntries(n, keys), f) ==
      TypeLines(NetworkTotals(n), f) + TypeLines(NetworkErrors(n), f) + TypeLines(PerInterfaceEntries(n, keys), f)
  {
    Split3(NetworkTotals(n), NetworkErrors(n), PerInterfaceEntries(n, keys), f);
  }

  lemma InterfaceSampleContents(f: Family, iface: InterfaceMetrics)
    ensures SamplesOf(InterfaceSample(f, iface), f) ==
      if InterfaceCounter(iface, f) > 0 then [([("interface", iface.name)], Int(InterfaceCounter(iface, f)))] else []
  {
    if InterfaceCounter(iface, f) > 0 {
      Single(InterfaceSample(f, iface)[0], f);
    }
  }

  /**
   * A per-interface sample of `f` is written for exactly the interfaces
   * whose counter is positive, labelled `interface` with the interface name.
   */
  lemma {:induction false} InterfaceSamplesFrom(f: Family, per: map<string, InterfaceMetrics>, keys: seq<string>,
                                                 e: Extras, v: Value)
    requires forall k :: k in keys ==> k in per
    ensures (e, v) in SamplesOf(InterfaceSamples(f, per, keys), f) <==>
      exists k :: k in keys && InterfaceCounter(per[k], f) > 0 &&
        e == [("interface", per[k].name)] && v == Int(InterfaceCounter(per[k], f))
    decreases |keys|
  {
    if |keys| != 0 {
      var n := |keys| - 1;
      var key := keys[n];
      InInit(keys);
      InterfaceSamplesFrom(f, per, keys[..n], e, v);
      SamplesOfAppend(InterfaceSamples(f, per, keys[..n]), InterfaceSample(f, per[key]), f);
      InterfaceSampleContents(f, per[key]);
    }
  }

  /**
   * Each traffic family gets its total, with no extra labels, when any
   * bytes moved, followed by the per-interface samples.
   */
  lemma TrafficEmission(n: NetworkMetrics, keys: seq<string>, f: Family)
    requires IsEnumeration(keys, n.perInterface.Keys)
    requires IsTraffic(f)
    ensures SamplesOf(NetworkEntries(n, keys), f) ==
      (if TrafficMoved(n) then [([], Int(TrafficTotal(n, f)))] else [])
      + SamplesOf(InterfaceSamples(f, n.perInterface, keys), f)
  {
    var totals := SamplesOf(NetworkTotals(n), f);
    var perInterface := SamplesOf(InterfaceSamples(f, n.perInterface, keys), f);
    assert totals == if TrafficMoved(n) then [([], Int(TrafficTotal(n, f)))] else [] by {
      NetworkTotalsContents(n, f);
    }
    var errors := SamplesOf(NetworkErrors(n), f);
    assert errors == [] by {
      NetworkErrorsContents(n, f);
    }
    assert SamplesOf(PerInterfaceEntries(n, keys), f) == perInterface by {
      PerInterfaceTraffic(n, keys, f);
    }
    assert SamplesOf(NetworkEntries(n, keys), f) ==
      totals + errors + SamplesOf(PerInterfaceEntries(n, keys), f) by {
      NetworkParts(n, keys, f);
    }
    EmptyMiddle(totals, errors, perInterface);
  }

  lemma EmptyMiddle<T>(before: seq<T>, middle: seq<T>, after: seq<T>)
    requires middle == []
    ensures before + middle + after == before + after
  {
  }

  /** The per-interface sections hold a traffic family's samples of every interface, none if there is none. */
  lemma PerInterfaceTraffic(n: NetworkMetrics, keys: seq<string>, f: Family)
    requires IsEnumeration(keys, n.perInterface.Keys)
    requires IsTraffic(f)
    ensures SamplesOf(PerInterfaceEntries(n, keys), f) == SamplesOf(InterfaceSamples(f, n.perInterface, keys), f)
  {
    PerInterfaceContents(n, keys, f);
    assert keys != [] ==> keys[0] in n.perInterface.Keys;
  }

  /**
   * A per-interface sample of a traffic family is written for exactly the
   * interfaces whose counter is positive, labelled `interface` with the
   * interface name and carrying that counter.
   */
  lemma InterfaceEmission(n: NetworkMetrics, keys: seq<string>, f: Family, e: Extras, v: Value)
    requires IsEnumeration(keys, n.perInterface.Keys)
    ensures (e, v) in SamplesOf(InterfaceSamples(f, n.perInterface, keys), f) <==>
      exists k :: k in n.perInterface && InterfaceCounter(n.perInterface[k], f) > 0 &&
        e == [("interface", n.perInterface[k].name)] && v == Int(InterfaceCounter(n.perInterface[k], f))
  {
    InterfaceSamplesFrom(f, n.perInterface, keys, e, v);
  }

  /**
   * A traffic family's `# TYPE` line appears once for the totals and once
   * more for its per-interface section: twice when bytes moved and there
   * are interfaces.
   */
  lemma TrafficTypeLines(n: NetworkMetrics, keys: seq<string>, f: Family)
    requires forall k :: k in keys ==> k in n.perInterface
    requires IsTraffic(f)
    ensures TypeLines(NetworkEntries(n, keys), f) ==
      (if TrafficMoved(n) then 1 else 0) + (if n.perInterface != map[] then 1 else 0)
  {
    NetworkParts(n, keys, f);
    NetworkTotalsContents(n, f);
    NetworkErrorsContents(n, f);
    PerInterfaceContents(n, keys, f);
  }

  /** Each error total is written once, with no extra labels, exactly when present. */
  lemma NetworkErrorFamily(n: NetworkMetrics, keys: seq<string>, f: Family)
    requires forall k :: k in keys ==> k in n.perInterface
    requires f == NetRxErrors || f == NetTxErrors
    ensures SamplesOf(NetworkEntries(n, keys), f) ==
      (if f == NetRxErrors && n.receiveErrorsTotal.Some? then [([], Int(n.receiveErrorsTotal.value))] else [])
      + (if f == NetTxErrors && n.transmitErrorsTotal.Some? then [([], Int(n.transmitErrorsTotal.value))] else [])
  {
    var totals, errors, perInterface :=
      SamplesOf(NetworkTotals(n), f), SamplesOf(NetworkErrors(n), f), SamplesOf(PerInterfaceEntries(n, keys), f);
    assert totals == [] && perInterface == [] by {
      OtherThanTraffic(n, keys, f);
    }
    assert SamplesOf(NetworkEntries(n, keys), f) == totals + errors + perInterface by {
      NetworkParts(n, keys, f);
    }
    OnlyMiddle(totals, errors, perInterface);
    NetworkErrorsContents(n, f);
  }

  /** A family that is not a traffic counter has no samples among the totals or the per-interface sections. */
  lemma OtherThanTraffic(n: NetworkMetrics, keys: seq<string>, f: Family)
    requires forall k :: k in keys ==> k in n.perInterface
    requires !IsTraffic(f)
    ensures SamplesOf(NetworkTotals(n), f) == [] && SamplesOf(PerInterfaceEntries(n, keys), f) == []
  {
    NetworkTotalsContents(n, f);
    PerInterfaceContents(n, keys, f);
  }

  lemma OnlyMiddle<T>(before: seq<T>, middle: seq<T>, after: seq<T>)
    requires before == [] && after == []
    ensures before + middle + after == middle
  {
  }

  /**
   * The receive and transmit error totals are written exactly when
   * present; the dropped totals are never written.
   */
  lemma NetworkErrorEmission(n: NetworkMetrics, keys: seq<string>)
    requires forall k :: k in keys ==> k in n.perInterface
    ensures SamplesOf(NetworkEntries(n, keys), NetRxErrors) ==
      if n.receiveErrorsTotal.Some? then [([], Int(n.receiveErrorsTotal.value))] else []
    ensures SamplesOf(NetworkEntries(n, keys), NetTxErrors) ==
      if n.transmitErrorsTotal.Some? then [([], Int(n.transmitErrorsTotal.value))] else []
    ensures NetworkEntries(n.(receivePacketsDroppedTotal := None, transmitPacketsDroppedTotal := None), keys) ==
      NetworkEntries(n, keys)
  {
    NetworkErrorFamily(n, keys, NetRxErrors);
    NetworkErrorFamily(n, keys, NetTxErrors);
  }
}

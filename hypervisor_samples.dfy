/**
 * The samples a Cloud Hypervisor conversion reads, and the two ways it
 * reduces them: a per-item map in which the last sample of an item wins,
 * and sums of selected sample values, either cast to `u64` counts or kept
 * as floating-point figures. The metric families come in the
 * iteration order of the parsed hash map, so the sums are proved not to
 * depend on that order.
 */
module HypervisorSamples {
  import opened Wrappers
  import opened Seqs
  import opened Text
  import opened Float
  import opened PrometheusParser
  import opened ConverterConfig

  /** `labels.get(key)`. */
  function Label(s: MetricSample, key: string): (r: Option<string>)
    ensures r.Some? <==> key in s.labels
    ensures r.Some? ==> r.value == s.labels[key]
  {
    if key in s.labels then Some(s.labels[key]) else None
  }

  /** The component processes whose thread and descriptor gauges are added up. */
  predicate IsComponent(name: string)
  {
    Contains(name, "shim") || Contains(name, "hypervisor") || Contains(name, "agent") || Contains(name, "virtiofsd")
  }

  /** How a conversion picks the metric families it reads: by name prefix, or by suffix on a component's metric. */
  datatype Selector = Prefix(prefix: string) | ComponentSuffix(suffix: string)

  predicate Selects(sel: Selector, name: string)
  {
    match sel
    case Prefix(p) => StartsWith(name, p)
    case ComponentSuffix(suffix) => EndsWith(name, suffix) && IsComponent(name)
  }

  /** The samples of one family when it is selected. */
  function Own(f: PrometheusMetric, sel: Selector): seq<MetricSample>
  {
    if Selects(sel, f.name) then f.samples else []
  }

  /** The samples of the selected families, family after family. */
  function Selected(families: seq<PrometheusMetric>, sel: Selector): seq<MetricSample>
    decreases |families|
  {
    if |families| == 0 then []
    else
      var n := |families| - 1;
      Selected(families[..n], sel) + Own(families[n], sel)
  }

  /** One more family extends the selection by its own samples. */
  lemma SelectedStep(families: seq<PrometheusMetric>, i: nat, sel: Selector)
    requires i < |families|
    ensures Selected(families[..i + 1], sel) == Selected(families[..i], sel) + Own(families[i], sel)
  {
    assert families[..i + 1][..i] == families[..i];
  }

  lemma {:induction false} SelectedAppend(a: seq<PrometheusMetric>, b: seq<PrometheusMetric>, sel: Selector)
    ensures Selected(a + b, sel) == Selected(a, sel) + Selected(b, sel)
    decreases |b|
  {
    if |b| == 0 {
      assert a + b == a;
      assert Selected(a, sel) + [] == Selected(a, sel);
    } else {
      var n := |b| - 1;
      assert (a + b)[..|a + b| - 1] == a + b[..n];
      assert (a + b)[|a + b| - 1] == b[n];
      SelectedAppend(a, b[..n], sel);
      var x, y, z := Selected(a, sel), Selected(b[..n], sel), Own(b[n], sel);
      assert (x + y) + z == x + (y + z);
    }
  }

  /** A sample is read exactly when it belongs to a selected family. */
  lemma {:induction false} SelectedMembers(families: seq<PrometheusMetric>, sel: Selector, s: MetricSample)
    ensures s in Selected(families, sel) <==>
      exists i :: 0 <= i < |families| && Selects(sel, families[i].name) && s in families[i].samples
    decreases |families|
  {
    if |families| != 0 {
      var n := |families| - 1;
      SelectedMembers(families[..n], sel, s);
      assert forall i :: 0 <= i < n ==> families[..n][i] == families[i];
      if s in Own(families[n], sel) {
        assert Selects(sel, families[n].name) && s in families[n].samples;
      }
    }
  }

  /** Taking one family out of the list takes its own samples out of the selection. */
  lemma SelectedWithout(gs: seq<PrometheusMetric>, k: nat, sel: Selector)
    requires k < |gs|
    ensures multiset(Selected(gs, sel)) == multiset(Selected(RemoveAt(gs, k), sel)) + multiset(Own(gs[k], sel))
  {
    var f, pre, post := gs[k], gs[..k], gs[k + 1..];
    assert gs == (pre + [f]) + post;
    assert RemoveAt(gs, k) == pre + post;
    var a, b, c := Selected(pre, sel), Own(f, sel), Selected(post, sel);
    assert Selected([f], sel) == b by {
      assert [f][..0] == [];
    }
    assert Selected(pre + [f], sel) == a + b by {
      SelectedAppend(pre, [f], sel);
    }
    assert Selected(gs, sel) == (a + b) + c by {
      SelectedAppend(pre + [f], post, sel);
    }
    assert Selected(RemoveAt(gs, k), sel) == a + c by {
      SelectedAppend(pre, post, sel);
    }
    assert multiset((a + b) + c) == multiset(a + c) + multiset(b);
  }

  /** The selection's samples depend only on which families there are, not on their order. */
  lemma {:induction false} SelectedPermutation(fs: seq<PrometheusMetric>, gs: seq<PrometheusMetric>, sel: Selector)
    requires multiset(fs) == multiset(gs)
    ensures multiset(Selected(fs, sel)) == multiset(Selected(gs, sel))
    decreases |fs|
  {
    if |fs| == 0 {
      assert |gs| == 0;
    } else {
      var n := |fs| - 1;
      var f := fs[n];
      assert f in multiset(gs);
      var k :| 0 <= k < |gs| && gs[k] == f;
      PermutationRest(fs, gs, k);
      SelectedPermutation(fs[..n], RemoveAt(gs, k), sel);
      SelectedWithout(gs, k, sel);
    }
  }

  // ---- the per-item map ----

  /** The map `item` label → value built by inserting every sample that has an `item` label, in order. */
  function ItemMap(samples: seq<MetricSample>): map<string, F64>
    decreases |samples|
  {
    if |samples| == 0 then map[]
    else
      var n := |samples| - 1;
      var s := samples[n];
      if "item" in s.labels then ItemMap(samples[..n])[s.labels["item"] := s.value] else ItemMap(samples[..n])
  }

  /** The item map with every value cast to `u64`, as the meminfo and task loops store them. */
  function Casts(items: map<string, F64>): (r: map<string, nat>)
    ensures r.Keys == items.Keys
    ensures forall k :: k in items ==> r[k] == AsU64(items[k])
  {
    map k | k in items :: AsU64(items[k])
  }

  /** Casting after an insert is inserting the cast value. */
  lemma CastsUpdate(items: map<string, F64>, k: string, v: F64)
    ensures Casts(items[k := v]) == Casts(items)[k := AsU64(v)]
  {
  }

  /** An item is in the map exactly when some sample carries it. */
  lemma {:induction false} ItemMapKeys(samples: seq<MetricSample>, item: string)
    ensures item in ItemMap(samples) <==> exists i :: 0 <= i < |samples| && Label(samples[i], "item") == Some(item)
    decreases |samples|
  {
    if |samples| != 0 {
      var n := |samples| - 1;
      ItemMapKeys(samples[..n], item);
      assert forall i :: 0 <= i < n ==> samples[..n][i] == samples[i];
    }
  }

  /** For a repeated item the last sample wins. */
  lemma {:induction false} ItemMapLast(samples: seq<MetricSample>, item: string, i: nat)
    requires i < |samples| && Label(samples[i], "item") == Some(item)
    requires forall j :: i < j < |samples| ==> Label(samples[j], "item") != Some(item)
    ensures item in ItemMap(samples) && ItemMap(samples)[item] == samples[i].value
    decreases |samples|
  {
    var n := |samples| - 1;
    if i < n {
      ItemMapLast(samples[..n], item, i);
    }
  }

  // ---- sums ----

  /** The items of `kata_guest_netdev_stat` a conversion knows. */
  datatype NetItem = RecvBytes | XmitBytes | RecvPackets | XmitPackets | RecvErrs | XmitErrs | RecvDrop | XmitDrop | OtherNetItem

  function NetItemOf(item: Option<string>): NetItem
  {
    if item == Some("recv_bytes") then RecvBytes
    else if item == Some("xmit_bytes") then XmitBytes
    else if item == Some("recv_packets") then RecvPackets
    else if item == Some("xmit_packets") then XmitPackets
    else if item == Some("recv_errs") then RecvErrs
    else if item == Some("xmit_errs") then XmitErrs
    else if item == Some("recv_drop") then RecvDrop
    else if item == Some("xmit_drop") then XmitDrop
    else OtherNetItem
  }

  /** The items of `kata_guest_diskstat` a conversion knows. */
  datatype DiskItem = Reads | Writes | SectorsRead | SectorsWritten
    | TimeReading | TimeWriting | TimeInProgress | WeightedTimeInProgress | OtherDiskItem

  function DiskItemOf(item: Option<string>): DiskItem
  {
    if item == Some("reads") then Reads
    else if item == Some("writes") then Writes
    else if item == Some("sectors_read") then SectorsRead
    else if item == Some("sectors_written") then SectorsWritten
    else if item == Some("time_reading") then TimeReading
    else if item == Some("time_writing") then TimeWriting
    else if item == Some("time_in_progress") then TimeInProgress
    else if item == Some("weighted_time_in_progress") then WeightedTimeInProgress
    else OtherDiskItem
  }

  /** The interface a network sample counts for: labelled, and accepted by the patterns. */
  function AcceptedInterface(patterns: seq<string>, s: MetricSample): (r: Option<string>)
    ensures r.Some? <==> "interface" in s.labels && MatchesNetworkInterface(patterns, s.labels["interface"])
    ensures r.Some? ==> r.value == s.labels["interface"]
  {
    if "interface" in s.labels && MatchesNetworkInterface(patterns, s.labels["interface"]) then Some(s.labels["interface"])
    else None
  }

  /** Which samples a sum counts. */
  datatype Weight =
    | Jiffies                              // cpu="total" and item user, system, guest or nice
    | CpuItem(item: string)                // cpu="total" and the given item
    | NetCount(patterns: seq<string>, net: NetItem)   // an accepted interface and the given item
    | DiskCount(disk: DiskItem)            // a `disk` label and the given item
    | Every                                // every sample

  predicate Counts(w: Weight, s: MetricSample)
  {
    match w
    case Jiffies =>
      Label(s, "cpu") == Some("total")
      && (Label(s, "item") == Some("user") || Label(s, "item") == Some("system")
          || Label(s, "item") == Some("guest") || Label(s, "item") == Some("nice"))
    case CpuItem(item) => Label(s, "cpu") == Some("total") && Label(s, "item") == Some(item)
    case NetCount(patterns, net) => AcceptedInterface(patterns, s).Some? && NetItemOf(Label(s, "item")) == net
    case DiskCount(disk) => "disk" in s.labels && DiskItemOf(Label(s, "item")) == disk
    case Every => true
  }

  /** The sum of the values of the counted samples, each cast to `u64` as it is added. */
  function Sum(w: Weight, samples: seq<MetricSample>): nat
    decreases |samples|
  {
    if |samples| == 0 then 0
    else
      var n := |samples| - 1;
      Sum(w, samples[..n]) + if Counts(w, samples[n]) then AsU64(samples[n].value) else 0
  }

  /** Whether any sample is counted. */
  predicate AnyCounted(w: Weight, samples: seq<MetricSample>)
  {
    exists i :: 0 <= i < |samples| && Counts(w, samples[i])
  }

  lemma {:induction false} SumAppend(w: Weight, a: seq<MetricSample>, b: seq<MetricSample>)
    ensures Sum(w, a + b) == Sum(w, a) + Sum(w, b)
    decreases |b|
  {
    if |b| == 0 {
      assert a + b == a;
    } else {
      var n := |b| - 1;
      assert (a + b)[..|a + b| - 1] == a + b[..n];
      assert (a + b)[|a + b| - 1] == b[n];
      SumAppend(w, a, b[..n]);
    }
  }

  /** Taking one sample out of the list takes its value out of the sum when it counts. */
  lemma SumWithout(w: Weight, b: seq<MetricSample>, k: nat)
    requires k < |b|
    ensures Sum(w, b) == Sum(w, RemoveAt(b, k)) + if Counts(w, b[k]) then AsU64(b[k].value) else 0
  {
    var x := b[k];
    assert b == (b[..k] + [x]) + b[k + 1..];
    SumAppend(w, b[..k] + [x], b[k + 1..]);
    SumAppend(w, b[..k], [x]);
    SumAppend(w, b[..k], b[k + 1..]);
    assert [x][..0] == [];
  }

  /** A sum depends only on which samples there are, not on their order. */
  lemma {:induction false} SumPermutation(w: Weight, a: seq<MetricSample>, b: seq<MetricSample>)
    requires multiset(a) == multiset(b)
    ensures Sum(w, a) == Sum(w, b)
    decreases |a|
  {
    if |a| == 0 {
      assert |b| == 0;
    } else {
      var n := |a| - 1;
      var x := a[n];
      assert x in multiset(b);
      var k :| 0 <= k < |b| && b[k] == x;
      PermutationRest(a, b, k);
      SumPermutation(w, a[..n], RemoveAt(b, k));
      SumWithout(w, b, k);
    }
  }

  /**
   * A total over the selected families is the same whichever order the
   * hash map hands the families out in.
   */
  lemma TotalIgnoresOrder(w: Weight, sel: Selector, fs: seq<PrometheusMetric>, gs: seq<PrometheusMetric>)
    requires multiset(fs) == multiset(gs)
    ensures Sum(w, Selected(fs, sel)) == Sum(w, Selected(gs, sel))
  {
    SelectedPermutation(fs, gs, sel);
    SumPermutation(w, Selected(fs, sel), Selected(gs, sel));
  }

  /** The jiffy total is the sum of its four items' totals. */
  lemma {:induction false} JiffiesByItem(samples: seq<MetricSample>)
    ensures Sum(Jiffies, samples) ==
      Sum(CpuItem("user"), samples) + Sum(CpuItem("system"), samples)
      + Sum(CpuItem("guest"), samples) + Sum(CpuItem("nice"), samples)
    decreases |samples|
  {
    if |samples| != 0 {
      JiffiesByItem(samples[..|samples| - 1]);
    }
  }

  /** Nothing counted sums to zero. */
  lemma {:induction false} SumNone(w: Weight, samples: seq<MetricSample>)
    requires !AnyCounted(w, samples)
    ensures Sum(w, samples) == 0
    decreases |samples|
  {
    if |samples| != 0 {
      var n := |samples| - 1;
      assert !Counts(w, samples[n]);
      assert forall i :: 0 <= i < n ==> samples[..n][i] == samples[i];
      SumNone(w, samples[..n]);
    }
  }

  /** Whether the counted samples are non-empty, step by step. */
  lemma AnyCountedStep(w: Weight, samples: seq<MetricSample>)
    requires samples != []
    ensures AnyCounted(w, samples) <==>
      AnyCounted(w, samples[..|samples| - 1]) || Counts(w, samples[|samples| - 1])
  {
    var n := |samples| - 1;
    if AnyCounted(w, samples) && !Counts(w, samples[n]) {
      var i :| 0 <= i < |samples| && Counts(w, samples[i]);
      assert samples[..n][i] == samples[i];
    }
    if AnyCounted(w, samples[..n]) {
      var i :| 0 <= i < n && Counts(w, samples[..n][i]);
      assert samples[i] == samples[..n][i];
    }
  }

  /** One more sample adds its value when it counts. */
  lemma SumSnoc(w: Weight, a: seq<MetricSample>, x: MetricSample)
    ensures Sum(w, a + [x]) == Sum(w, a) + if Counts(w, x) then AsU64(x.value) else 0
  {
    assert (a + [x])[..|a|] == a;
  }

  /** One more sample with an item sets that item. */
  lemma ItemMapSnoc(a: seq<MetricSample>, x: MetricSample)
    ensures ItemMap(a + [x]) == if "item" in x.labels then ItemMap(a)[x.labels["item"] := x.value] else ItemMap(a)
  {
    assert (a + [x])[..|a|] == a;
  }

  // ---- sums of floating-point figures ----

  /** The sum of the values of the counted samples, kept as floating-point figures. */
  function RealSum(w: Weight, samples: seq<MetricSample>): real
    decreases |samples|
  {
    if |samples| == 0 then 0.0
    else
      var n := |samples| - 1;
      RealSum(w, samples[..n]) + if Counts(w, samples[n]) then ToReal(samples[n].value) else 0.0
  }

  lemma {:induction false} RealSumAppend(w: Weight, a: seq<MetricSample>, b: seq<MetricSample>)
    ensures RealSum(w, a + b) == RealSum(w, a) + RealSum(w, b)
    decreases |b|
  {
    if |b| == 0 {
      assert a + b == a;
    } else {
      var n := |b| - 1;
      assert (a + b)[..|a + b| - 1] == a + b[..n];
      assert (a + b)[|a + b| - 1] == b[n];
      RealSumAppend(w, a, b[..n]);
    }
  }

  lemma RealSumWithout(w: Weight, b: seq<MetricSample>, k: nat)
    requires k < |b|
    ensures RealSum(w, b) == RealSum(w, RemoveAt(b, k)) + if Counts(w, b[k]) then ToReal(b[k].value) else 0.0
  {
    var x := b[k];
    assert b == (b[..k] + [x]) + b[k + 1..];
    RealSumAppend(w, b[..k] + [x], b[k + 1..]);
    RealSumAppend(w, b[..k], [x]);
    RealSumAppend(w, b[..k], b[k + 1..]);
    assert [x][..0] == [];
  }

  /** A sum of figures depends only on which samples there are, not on their order. */
  lemma {:induction false} RealSumPermutation(w: Weight, a: seq<MetricSample>, b: seq<MetricSample>)
    requires multiset(a) == multiset(b)
    ensures RealSum(w, a) == RealSum(w, b)
    decreases |a|
  {
    if |a| == 0 {
      assert |b| == 0;
    } else {
      var n := |a| - 1;
      var x := a[n];
      assert x in multiset(b);
      var k :| 0 <= k < |b| && b[k] == x;
      PermutationRest(a, b, k);
      RealSumPermutation(w, a[..n], RemoveAt(b, k));
      RealSumWithout(w, b, k);
    }
  }

  /** A total of figures over the selected families is the same in any order of the families. */
  lemma RealTotalIgnoresOrder(w: Weight, sel: Selector, fs: seq<PrometheusMetric>, gs: seq<PrometheusMetric>)
    requires multiset(fs) == multiset(gs)
    ensures RealSum(w, Selected(fs, sel)) == RealSum(w, Selected(gs, sel))
  {
    SelectedPermutation(fs, gs, sel);
    RealSumPermutation(w, Selected(fs, sel), Selected(gs, sel));
  }

  lemma RealSumSnoc(w: Weight, a: seq<MetricSample>, x: MetricSample)
    ensures RealSum(w, a + [x]) == RealSum(w, a) + if Counts(w, x) then ToReal(x.value) else 0.0
  {
    assert (a + [x])[..|a|] == a;
  }

  /** Nothing counted sums to zero. */
  lemma {:induction false} RealSumNone(w: Weight, samples: seq<MetricSample>)
    requires !AnyCounted(w, samples)
    ensures RealSum(w, samples) == 0.0
    decreases |samples|
  {
    if |samples| != 0 {
      var n := |samples| - 1;
      assert !Counts(w, samples[n]);
      assert forall i :: 0 <= i < n ==> samples[..n][i] == samples[i];
      RealSumNone(w, samples[..n]);
    }
  }

  /**
   * When every value is a whole number within `u64`, the cast changes
   * nothing and the two sums agree.
   */
  lemma {:induction false} RealSumOfWholeCounts(w: Weight, samples: seq<MetricSample>)
    requires forall i :: 0 <= i < |samples| ==> IsWholeCount(samples[i].value)
    ensures RealSum(w, samples) == Sum(w, samples) as real
    decreases |samples|
  {
    if |samples| != 0 {
      var n := |samples| - 1;
      assert forall i :: 0 <= i < n ==> samples[..n][i] == samples[i];
      RealSumOfWholeCounts(w, samples[..n]);
      WholeCountCast(samples[n].value);
    }
  }
}

/**
 * Writing parsed metric families back out in the Prometheus text format.
 * The families and each sample's labels live in hash maps, so the order in
 * which they are written is not specified; the formatter reports the order
 * it used as a ghost layout.
 */
module PrometheusFormat {
  import opened Wrappers
  import opened Seqs
  import opened Text
  import opened Float
  import opened PrometheusParser

  /** The escaped form of one character of a label value. */
  function EscapeChar(c: char): string
  {
    if c == '\\' then "\\\\"
    else if c == '"' then "\\\""
    else if c == '\n' then "\\n"
    else [c]
  }

  /** A label value with backslash, double quote and newline escaped and every other character kept. */
  function Escaped(v: string): (r: string)
    ensures |r| >= |v|
    ensures '\n' !in r
    decreases |v|
  {
    if v == [] then [] else Escaped(v[..|v| - 1]) + EscapeChar(v[|v| - 1])
  }

  /** Text free of the three escaped characters is written as it is. */
  lemma {:induction false} EscapedUnchanged(v: string)
    requires '\\' !in v && '"' !in v && '\n' !in v
    ensures Escaped(v) == v
    decreases |v|
  {
    if v != [] {
      var init, last := v[..|v| - 1], v[|v| - 1];
      assert v == init + [last];
      assert last in v;
      assert '\\' !in init && '"' !in init && '\n' !in init;
      EscapedUnchanged(init);
      assert EscapeChar(last) == [last];
    }
  }

  /** Copies the value character by character, escaping as it goes. */
  method EscapeLabelValue(v: string) returns (r: string)
    ensures r == Escaped(v)
  {
    r := [];
    for i := 0 to |v|
      invariant r == Escaped(v[..i])
    {
      assert v[..i + 1][..i] == v[..i];
      var c := v[i];
      if c == '\\' {
        r := r + "\\\\";
      } else if c == '"' {
        r := r + "\\\"";
      } else if c == '\n' {
        r := r + "\\n";
      } else {
        r := r + [c];
      }
    }
    assert v[..|v|] == v;
  }

  /** `key="text"`, the text written as it is. */
  function QuotedPair(key: string, text: string): string
  {
    key + "=\"" + text + "\""
  }

  /** `key="value"` with the value escaped. */
  function LabelPair(key: string, value: string): string
  {
    QuotedPair(key, Escaped(value))
  }

  /** The pairs of `labels`, in the order `keys` lists them. */
  function LabelPairs(labels: map<string, string>, keys: seq<string>): (r: seq<string>)
    requires forall k :: k in keys ==> k in labels
    ensures |r| == |keys|
    ensures forall i :: 0 <= i < |keys| ==> r[i] == LabelPair(keys[i], labels[keys[i]])
  {
    if keys == [] then [] else [LabelPair(keys[0], labels[keys[0]])] + LabelPairs(labels, keys[1..])
  }

  /** `{k1="v1",k2="v2"}` in the order `keys` gives, or nothing when there are no labels. */
  function LabelsText(labels: map<string, string>, keys: seq<string>): string
    requires forall k :: k in keys ==> k in labels
  {
    if labels == map[] then "" else "{" + Join(LabelPairs(labels, keys), ",") + "}"
  }

  /** A space and the timestamp, or nothing. */
  function TimestampText(timestamp: Option<int>): string
  {
    if timestamp.Some? then " " + IntToString(timestamp.value) else ""
  }

  /** One sample line, without its newline. */
  function SampleLine(sample: MetricSample, keys: seq<string>): string
    requires forall k :: k in keys ==> k in sample.labels
  {
    sample.name + LabelsText(sample.labels, keys) + " " + F64Text(sample.value) + TimestampText(sample.timestamp)
  }

  /** `orders[j]` lists the label keys of `samples[j]` once each. */
  ghost predicate OrdersFit(samples: seq<MetricSample>, orders: seq<seq<string>>)
  {
    |orders| == |samples| &&
    forall j :: 0 <= j < |samples| ==> IsEnumeration(orders[j], samples[j].labels.Keys)
  }

  /** The sample lines in order, `orders[j]` giving the label order of `samples[j]`. */
  function SampleLines(samples: seq<MetricSample>, orders: seq<seq<string>>): (r: seq<string>)
    requires OrdersFit(samples, orders)
    ensures |r| == |samples|
  {
    if samples == [] then []
    else
      var n := |samples| - 1;
      SampleLines(samples[..n], orders[..n]) + [SampleLine(samples[n], orders[n])]
  }

  /** `# HELP name text` or `# TYPE name text`. */
  function MetadataLine(prefix: string, name: string, text: string): string
  {
    prefix + name + " " + text
  }

  /** The `# HELP` and `# TYPE` lines of a family, each present only when set. */
  function HeaderLines(metric: PrometheusMetric): seq<string>
  {
    (if metric.help.Some? then [MetadataLine(HelpPrefix, metric.name, metric.help.value)] else [])
    + (if metric.metricType.Some? then [MetadataLine(TypePrefix, metric.name, metric.metricType.value)] else [])
  }

  /** A family: its header lines, then one line per sample in order. */
  function MetricLines(metric: PrometheusMetric, orders: seq<seq<string>>): seq<string>
    requires OrdersFit(metric.samples, orders)
  {
    HeaderLines(metric) + SampleLines(metric.samples, orders)
  }

  /** Where one family went in the output, and the label order of each of its samples. */
  datatype FamilyLayout = FamilyLayout(key: string, labelOrders: seq<seq<string>>)

  function LayoutKeys(layout: seq<FamilyLayout>): (r: seq<string>)
    ensures |r| == |layout|
    ensures forall i :: 0 <= i < |layout| ==> r[i] == layout[i].key
  {
    if layout == [] then [] else LayoutKeys(layout[..|layout| - 1]) + [layout[|layout| - 1].key]
  }

  /** Every entry names a family of `metrics` and fits its samples. */
  ghost predicate LayoutFits(metrics: PrometheusMetrics, layout: seq<FamilyLayout>)
  {
    forall i :: 0 <= i < |layout| ==>
      layout[i].key in metrics && OrdersFit(metrics[layout[i].key].samples, layout[i].labelOrders)
  }

  /** A layout that writes every family of `metrics` exactly once. */
  ghost predicate IsLayout(metrics: PrometheusMetrics, layout: seq<FamilyLayout>)
  {
    LayoutFits(metrics, layout) && IsEnumeration(LayoutKeys(layout), metrics.Keys)
  }

  /** The lines written for the families of `layout`, in its order. */
  function ExpositionLines(metrics: PrometheusMetrics, layout: seq<FamilyLayout>): seq<string>
    requires LayoutFits(metrics, layout)
  {
    if layout == [] then []
    else
      var last := layout[|layout| - 1];
      ExpositionLines(metrics, layout[..|layout| - 1]) + MetricLines(metrics[last.key], last.labelOrders)
  }

  lemma LabelPairsAppend(labels: map<string, string>, keys: seq<string>, k: string)
    requires forall x :: x in keys ==> x in labels
    requires k in labels
    ensures LabelPairs(labels, keys + [k]) == LabelPairs(labels, keys) + [LabelPair(k, labels[k])]
  {
    var r := LabelPairs(labels, keys + [k]);
    assert r == LabelPairs(labels, keys) + [LabelPair(k, labels[k])];
  }

  lemma JoinStep(parts: seq<string>, p: string, sep: string)
    ensures Join(parts + [p], sep) == if parts == [] then p else Join(parts, sep) + sep + p
  {
    if parts == [] {
      assert parts + [p] == [p];
    } else {
      JoinAppend(parts, p, sep);
    }
  }

  /** Appending the next pair to the text written so far. */
  lemma LabelTextStep(labels: map<string, string>, keys: seq<string>, i: nat, escaped: string)
    requires forall k :: k in keys ==> k in labels
    requires i < |keys| && escaped == Escaped(labels[keys[i]])
    ensures "{" + Join(LabelPairs(labels, keys[..i + 1]), ",") ==
      "{" + Join(LabelPairs(labels, keys[..i]), ",") + (if i == 0 then "" else ",") + QuotedPair(keys[i], escaped)
  {
    assert keys[..i + 1] == keys[..i] + [keys[i]];
    LabelPairsAppend(labels, keys[..i], keys[i]);
    JoinStep(LabelPairs(labels, keys[..i]), LabelPair(keys[i], labels[keys[i]]), ",");
  }

  /**
   * Writes `{k1="v1",k2="v2"}` with the values escaped, in the map's
   * iteration order, which is returned.
   */
  method FormatLabels(labels: map<string, string>) returns (text: string, ghost order: seq<string>)
    ensures IsEnumeration(order, labels.Keys)
    ensures text == "{" + Join(LabelPairs(labels, order), ",") + "}"
  {
    var keys := Enumerate(labels.Keys);
    order := keys;
    text := "{";
    var first := true;
    for i := 0 to |keys|
      invariant first <==> i == 0
      invariant text == "{" + Join(LabelPairs(labels, keys[..i]), ",")
    {
      var escaped := EscapeLabelValue(labels[keys[i]]);
      LabelTextStep(labels, keys, i, escaped);
      if !first {
        text := text + ",";
      }
      first := false;
      text := text + QuotedPair(keys[i], escaped);
    }
    assert keys[..|keys|] == keys;
    text := text + "}";
  }

  /** Writes one sample line and returns the label order it used. */
  method FormatSample(sample: MetricSample) returns (line: string, ghost order: seq<string>)
    ensures IsEnumeration(order, sample.labels.Keys)
    ensures line == SampleLine(sample, order)
  {
    line := sample.name;
    order := [];
    if sample.labels != map[] {
      var labelText;
      labelText, order := FormatLabels(sample.labels);
      line := line + labelText;
    }
    ghost var named := line;
    assert named == sample.name + LabelsText(sample.labels, order);
    line := line + " " + F64Text(sample.value);
    if sample.timestamp.Some? {
      line := line + " " + IntToString(sample.timestamp.value);
    }
    assert line == named + " " + F64Text(sample.value) + TimestampText(sample.timestamp);
  }

  /** Writes the `# HELP` and `# TYPE` lines of a family, each only when set. */
  method FormatHeader(metric: PrometheusMetric) returns (text: string)
    ensures text == JoinLines(HeaderLines(metric))
  {
    text := "";
    if metric.help.Some? {
      text := text + MetadataLine(HelpPrefix, metric.name, metric.help.value) + "\n";
    }
    if metric.metricType.Some? {
      text := text + MetadataLine(TypePrefix, metric.name, metric.metricType.value) + "\n";
    }
    HeaderJoin(metric);
  }

  /** Writes one family: its header lines, then its samples in order. */
  method FormatFamily(metric: PrometheusMetric) returns (text: string, ghost orders: seq<seq<string>>)
    ensures OrdersFit(metric.samples, orders)
    ensures text == JoinLines(MetricLines(metric, orders))
  {
    text := FormatHeader(metric);
    ghost var header := text;
    orders := [];
    for j := 0 to |metric.samples|
      invariant OrdersFit(metric.samples[..j], orders)
      invariant text == header + JoinLines(SampleLines(metric.samples[..j], orders))
    {
      var line, order := FormatSample(metric.samples[j]);
      SampleTextStep(header, metric.samples, j, orders, order);
      text := text + line + "\n";
      orders := orders + [order];
    }
    assert metric.samples[..|metric.samples|] == metric.samples;
    FamilyText(metric, orders);
  }

  lemma FamilyText(metric: PrometheusMetric, orders: seq<seq<string>>)
    requires OrdersFit(metric.samples, orders)
    ensures JoinLines(MetricLines(metric, orders)) ==
      JoinLines(HeaderLines(metric)) + JoinLines(SampleLines(metric.samples, orders))
  {
    JoinLinesAppend(HeaderLines(metric), SampleLines(metric.samples, orders));
  }

  /** Appending the next sample line to the text written so far. */
  lemma SampleTextStep(header: string, samples: seq<MetricSample>, j: nat, orders: seq<seq<string>>, order: seq<string>)
    requires j < |samples| && OrdersFit(samples[..j], orders)
    requires IsEnumeration(order, samples[j].labels.Keys)
    ensures OrdersFit(samples[..j + 1], orders + [order])
    ensures header + JoinLines(SampleLines(samples[..j + 1], orders + [order])) ==
      header + JoinLines(SampleLines(samples[..j], orders)) + SampleLine(samples[j], order) + "\n"
  {
    PrefixExtend(samples, j);
    SampleLinesAppend(samples[..j], orders, samples[j], order);
    JoinLinesSnoc(header, SampleLines(samples[..j], orders), SampleLine(samples[j], order));
  }

  lemma JoinLinesSnoc(header: string, before: seq<string>, line: string)
    ensures header + JoinLines(before + [line]) == header + JoinLines(before) + line + "\n"
  {
    JoinLinesAppend(before, [line]);
    assert JoinLines([line]) == line + "\n";
  }

  /**
   * Writes every family: its `# HELP` and `# TYPE` lines when set, then its
   * samples in order.
   */
  method ToPrometheusFormat(metrics: PrometheusMetrics) returns (output: string, ghost layout: seq<FamilyLayout>)
    ensures IsLayout(metrics, layout)
    ensures output == JoinLines(ExpositionLines(metrics, layout))
  {
    output := "";
    layout := [];
    var keys := Enumerate(metrics.Keys);
    for i := 0 to |keys|
      invariant LayoutFits(metrics, layout)
      invariant LayoutKeys(layout) == keys[..i]
      invariant output == JoinLines(ExpositionLines(metrics, layout))
    {
      var metric := metrics[keys[i]];
      var text, orders := FormatFamily(metric);
      LayoutStep(metrics, keys, i, layout, orders, output, text);
      output := output + text;
      layout := layout + [FamilyLayout(keys[i], orders)];
    }
    assert keys[..|keys|] == keys;
  }

  /** Appending the next family to the layout and to the text written so far. */
  lemma LayoutStep(metrics: PrometheusMetrics, keys: seq<string>, i: nat, layout: seq<FamilyLayout>,
                   orders: seq<seq<string>>, output: string, text: string)
    requires i < |keys| && keys[i] in metrics
    requires LayoutFits(metrics, layout) && LayoutKeys(layout) == keys[..i]
    requires OrdersFit(metrics[keys[i]].samples, orders)
    requires output == JoinLines(ExpositionLines(metrics, layout))
    requires text == JoinLines(MetricLines(metrics[keys[i]], orders))
    ensures LayoutFits(metrics, layout + [FamilyLayout(keys[i], orders)])
    ensures LayoutKeys(layout + [FamilyLayout(keys[i], orders)]) == keys[..i + 1]
    ensures output + text == JoinLines(ExpositionLines(metrics, layout + [FamilyLayout(keys[i], orders)]))
  {
    var next := layout + [FamilyLayout(keys[i], orders)];
    assert next[..|next| - 1] == layout;
    PrefixExtend(keys, i);
    JoinLinesAppend(ExpositionLines(metrics, layout), MetricLines(metrics[keys[i]], orders));
  }

  lemma HeaderJoin(metric: PrometheusMetric)
    ensures JoinLines(HeaderLines(metric)) ==
      (if metric.help.Some? then MetadataLine(HelpPrefix, metric.name, metric.help.value) + "\n" else "")
      + (if metric.metricType.Some? then MetadataLine(TypePrefix, metric.name, metric.metricType.value) + "\n" else "")
  {
    var h := if metric.help.Some? then [MetadataLine(HelpPrefix, metric.name, metric.help.value)] else [];
    var t := if metric.metricType.Some? then [MetadataLine(TypePrefix, metric.name, metric.metricType.value)] else [];
    JoinLinesAppend(h, t);
    if h != [] { assert h[1..] == []; }
    if t != [] { assert t[1..] == []; }
  }

  lemma SampleLinesAppend(samples: seq<MetricSample>, orders: seq<seq<string>>, s: MetricSample, order: seq<string>)
    requires OrdersFit(samples, orders) && IsEnumeration(order, s.labels.Keys)
    ensures OrdersFit(samples + [s], orders + [order])
    ensures SampleLines(samples + [s], orders + [order]) == SampleLines(samples, orders) + [SampleLine(s, order)]
  {
    assert (samples + [s])[..|samples|] == samples;
    assert (orders + [order])[..|samples|] == orders;
  }
}

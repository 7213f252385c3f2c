/**
 * Parsing of the Prometheus text exposition format, as the monitor reads the
 * metrics each sandbox's shim serves: samples are grouped into metric
 * families keyed by their base name (the sample name without a histogram or
 * counter suffix), and `# HELP` / `# TYPE` lines annotate those families.
 */
module PrometheusParser {
  import opened Wrappers
  import opened Seqs
  import opened Text
  import opened Float

  /** One sample line: a name, its labels, its value and an optional timestamp. */
  datatype MetricSample = MetricSample(
    name: string,
    labels: map<string, string>,
    value: F64,
    timestamp: Option<int>)

  /** A metric family: every sample sharing a base name, with its annotations. */
  datatype PrometheusMetric = PrometheusMetric(
    name: string,
    metricType: Option<string>,
    help: Option<string>,
    samples: seq<MetricSample>)

  /** The parsed exposition, keyed by base metric name. */
  type PrometheusMetrics = map<string, PrometheusMetric>

  const HelpPrefix: string := "# HELP "
  const TypePrefix: string := "# TYPE "

  /** Suffixes removed from sample names to find their family, tried in this order. */
  const MetricSuffixes: seq<string> := ["_total", "_count", "_sum", "_bucket", "_info", "_created"]

  /** Every family is stored under its own name. */
  ghost predicate KeyedByName(metrics: PrometheusMetrics)
  {
    forall k :: k in metrics ==> metrics[k].name == k
  }

  /** The family stored under `base`, or a fresh empty one named `base`. */
  function GetOrCreateMetric(metrics: PrometheusMetrics, base: string): (m: PrometheusMetric)
    ensures base in metrics ==> m == metrics[base]
    ensures KeyedByName(metrics) ==> m.name == base
    ensures base !in metrics ==> m.samples == [] && m.help.None? && m.metricType.None?
  {
    if base in metrics then metrics[base] else PrometheusMetric(base, None, None, [])
  }

  /** Removes the first suffix of `suffixes` that `name` ends with, if any. */
  function StripFirstSuffix(name: string, suffixes: seq<string>): (r: string)
    ensures (forall i :: 0 <= i < |suffixes| ==> !EndsWith(name, suffixes[i])) ==> r == name
    ensures forall i :: (0 <= i < |suffixes| && EndsWith(name, suffixes[i])
      && (forall j :: 0 <= j < i ==> !EndsWith(name, suffixes[j]))) ==> name == r + suffixes[i]
    decreases |suffixes|
  {
    if suffixes == [] then name
    else if EndsWith(name, suffixes[0]) then name[..|name| - |suffixes[0]|]
    else
      var r := StripFirstSuffix(name, suffixes[1..]);
      assert forall i :: 1 <= i < |suffixes| ==> suffixes[i] == suffixes[1..][i - 1];
      r
  }

  /** The family a sample belongs to: its name without the first matching suffix. */
  function ExtractBaseMetricName(name: string): string
  {
    StripFirstSuffix(name, MetricSuffixes)
  }

  /**
   * `prefix`, a name up to the first space, a space, then the text: the shape
   * of `# HELP` and `# TYPE` lines.
   */
  function ParseMetadataLine(line: string, prefix: string): (r: Option<(string, string)>)
    ensures r.Some? <==> StartsWith(line, prefix) && ' ' in line[|prefix|..]
    ensures r.Some? ==> line == prefix + r.value.0 + " " + r.value.1 && ' ' !in r.value.0
  {
    match StripPrefix(line, prefix)
    case None => None
    case Some(rest) =>
      assert rest == line[|prefix|..];
      SplitOnce(rest, ' ')
  }

  /**
   * The raw label value with its quotes stripped and the escapes replaced
   * one after another, in the source's order. Each replacement also rewrites
   * what the earlier ones produced, so this is not the inverse of the
   * escaping; the parser below uses `UnescapeLabelValue` instead.
   */
  function UnescapeLabelValueAsWritten(raw: string): string
  {
    Replace(Replace(Replace(Replace(TrimMatches(raw, '"'), "\\\"", "\""), "\\n", "\n"), "\\t", "\t"), "\\\\", "\\")
  }

  /** The character an escape `\c` stands for, for the four escapes the parser knows. */
  function EscapeMeaning(c: char): Option<char>
  {
    if c == 'n' then Some('\n')
    else if c == 't' then Some('\t')
    else if c == '"' || c == '\\' then Some(c)
    else None
  }

  /** Decodes the escapes in one pass from left to right; an unknown escape is kept as it is. */
  function Unescape(s: string): string
    decreases |s|
  {
    if s == [] then []
    else if |s| >= 2 && s[0] == '\\' && EscapeMeaning(s[1]).Some? then [EscapeMeaning(s[1]).value] + Unescape(s[2..])
    else [s[0]] + Unescape(s[1..])
  }

  /** The raw label value with its quotes stripped, its escapes decoded in one pass. */
  function UnescapeLabelValue(raw: string): string
  {
    Unescape(TrimMatches(raw, '"'))
  }

  /** The non-empty pieces, in order. */
  function NonEmptyPieces(pieces: seq<string>): (r: seq<string>)
    ensures forall i :: 0 <= i < |r| ==> r[i] != []
    ensures forall p :: p in r <==> p in pieces && p != []
  {
    if pieces == [] then []
    else if pieces[0] == [] then NonEmptyPieces(pieces[1..])
    else [pieces[0]] + NonEmptyPieces(pieces[1..])
  }

  /** Folds `key=value` pieces into `acc`; later keys overwrite earlier ones. */
  function ParsePairs(acc: map<string, string>, pieces: seq<string>): Result<map<string, string>, string>
    decreases |pieces|
  {
    if pieces == [] then Success(acc)
    else
      var pair := Trim(pieces[0]);
      match SplitOnce(pair, '=')
      case None => Failure("Invalid label pair: " + pair)
      case Some((key, value)) => ParsePairs(acc[Trim(key) := UnescapeLabelValue(value)], pieces[1..])
  }

  /** The text between a sample's braces, as a label map. */
  function ParseLabels(labelsStr: string): Result<map<string, string>, string>
  {
    ParsePairs(map[], NonEmptyPieces(Split(labelsStr, ',')))
  }

  /** What parsing one sample line does: yields a sample, rejects the line, or panics. */
  datatype SampleOutcome = Parsed(sample: MetricSample) | Rejected(reason: string) | Panics

  /** Value, optional timestamp and labels of a sample whose name is known. */
  function FinishSample(name: string, labelsStr: Option<string>, rest: string): (r: SampleOutcome)
    ensures r != Panics
    ensures r.Parsed? ==> r.sample.name == name && IsNormal(r.sample.value)
  {
    var parts := SplitWhitespace(rest);
    if parts == [] then Rejected("Missing value")
    else match ParseF64(parts[0])
      case None => Rejected("invalid float literal")
      case Some(value) =>
        var timestamp := if |parts| >= 2 then ParseI64(parts[1]) else None;
        match labelsStr
        case None => Parsed(MetricSample(name, map[], value, timestamp))
        case Some(text) =>
          match ParseLabels(text)
          case Failure(e) => Rejected(e)
          case Success(labels) => Parsed(MetricSample(name, labels, value, timestamp))
  }

  /** A sample line cut into its name, its label text and the untrimmed rest, or why it cannot be. */
  datatype LineCut =
    | Cut(name: string, labelsText: Option<string>, rest: string)
    | CutRejected(reason: string)
    | CutPanics

  /**
   * Cutting a sample line as the source code does. With a `{`, the label
   * text is sliced between the first `{` and the first `}`; when that `}`
   * comes first the slice bounds are reversed and the slice panics. Without
   * one, the name ends at the first space.
   */
  function CutSampleLine(line: string): LineCut
  {
    match IndexOf(line, '{')
    case Some(braceStart) =>
      (match IndexOf(line, '}')
       case None => CutRejected("Missing closing brace")
       case Some(braceEnd) =>
         if braceEnd < braceStart then CutPanics
         else Cut(line[..braceStart], Some(line[braceStart + 1..braceEnd]), line[braceEnd + 1..]))
    case None =>
      match SplitOnce(line, ' ')
      case None => CutRejected("Invalid metric line format")
      case Some((name, rest)) => Cut(name, None, rest)
  }

  /** One sample line as the source code handles it; the rest is trimmed on both paths. */
  function ParseMetricSampleAsWritten(line: string): SampleOutcome
  {
    match CutSampleLine(line)
    case Cut(name, labelsText, rest) => FinishSample(name, labelsText, Trim(rest))
    case CutRejected(reason) => Rejected(reason)
    case CutPanics => Panics
  }

  /**
   * One sample line, with the reversed-brace case rejected as malformed
   * instead of panicking.
   */
  function ParseMetricSample(line: string): Result<MetricSample, string>
  {
    match ParseMetricSampleAsWritten(line)
    case Parsed(s) => Success(s)
    case Rejected(e) => Failure(e)
    case Panics => Failure("Closing brace before opening brace")
  }

  /** How `parse` treats a line once it is trimmed. */
  datatype LineKind =
    | Skipped
    | Help(name: string, text: string)
    | Type(name: string, text: string)
    | Sample(sample: MetricSample)
    | Unreadable

  /**
   * Blank lines and comments other than `# HELP` / `# TYPE` are skipped; then
   * the line is tried as a HELP line, as a TYPE line, and as a sample.
   */
  function ClassifyLine(t: string): LineKind
  {
    if t == [] || (StartsWith(t, "#") && !StartsWith(t, HelpPrefix) && !StartsWith(t, TypePrefix)) then Skipped
    else match ParseMetadataLine(t, HelpPrefix)
      case Some(help) => Help(help.0, help.1)
      case None =>
        match ParseMetadataLine(t, TypePrefix)
        case Some(kind) => Type(kind.0, kind.1)
        case None =>
          match ParseMetricSample(t)
          case Success(sample) => Sample(sample)
          case Failure(_) => Unreadable
  }

  /** The effect of one classified line on the families parsed so far. */
  function ApplyLine(metrics: PrometheusMetrics, kind: LineKind): PrometheusMetrics
  {
    match kind
    case Skipped => metrics
    case Unreadable => metrics
    case Help(name, text) =>
      var base := ExtractBaseMetricName(name);
      metrics[base := GetOrCreateMetric(metrics, base).(help := Some(text))]
    case Type(name, text) =>
      var base := ExtractBaseMetricName(name);
      metrics[base := GetOrCreateMetric(metrics, base).(metricType := Some(text))]
    case Sample(sample) =>
      var base := ExtractBaseMetricName(sample.name);
      var m := GetOrCreateMetric(metrics, base);
      metrics[base := m.(samples := m.samples + [sample])]
  }

  /** The effect of one input line on the families parsed so far. */
  function ProcessLine(metrics: PrometheusMetrics, line: string): PrometheusMetrics
  {
    ApplyLine(metrics, ClassifyLine(Trim(line)))
  }

  /** The lines applied one after the other. */
  function ParseLines(metrics: PrometheusMetrics, lines: seq<string>): PrometheusMetrics
    decreases |lines|
  {
    if lines == [] then metrics else ParseLines(ProcessLine(metrics, lines[0]), lines[1..])
  }

  /** Applying a line keeps every family under its own name. */
  lemma ApplyLineKeyedByName(metrics: PrometheusMetrics, kind: LineKind)
    requires KeyedByName(metrics)
    ensures KeyedByName(ApplyLine(metrics, kind))
  {
  }

  /** Every family the parser builds is stored under its own name. */
  lemma {:induction false} ParseLinesKeyedByName(metrics: PrometheusMetrics, lines: seq<string>)
    requires KeyedByName(metrics)
    ensures KeyedByName(ParseLines(metrics, lines))
    decreases |lines|
  {
    if lines != [] {
      ApplyLineKeyedByName(metrics, ClassifyLine(Trim(lines[0])));
      ParseLinesKeyedByName(ProcessLine(metrics, lines[0]), lines[1..]);
    }
  }

  /** Blank lines and comments other than `# HELP` / `# TYPE` leave the families as they are. */
  lemma SkippedLineIgnored(metrics: PrometheusMetrics, line: string)
    requires Trim(line) == [] ||
      (StartsWith(Trim(line), "#") && !StartsWith(Trim(line), HelpPrefix) && !StartsWith(Trim(line), TypePrefix))
    ensures ProcessLine(metrics, line) == metrics
  {
  }

  /** A name that differs from `suffix` at one position of its tail does not end with it. */
  lemma DiffersAt(name: string, suffix: string, k: nat)
    requires k < |suffix| <= |name| && name[|name| - |suffix| + k] != suffix[k]
    ensures !EndsWith(name, suffix)
  {
    var tail := name[|name| - |suffix|..];
    assert tail[k] == name[|name| - |suffix| + k];
  }

  /** A name built from `base` and the `i`th suffix, ending with no earlier suffix, has `base` as its family. */
  lemma StripSuffixAt(base: string, i: nat)
    requires i < |MetricSuffixes|
    requires forall j :: 0 <= j < i ==> !EndsWith(base + MetricSuffixes[i], MetricSuffixes[j])
    ensures ExtractBaseMetricName(base + MetricSuffixes[i]) == base
  {
    var name := base + MetricSuffixes[i];
    assert name[|name| - |MetricSuffixes[i]|..] == MetricSuffixes[i];
    var r := ExtractBaseMetricName(name);
    assert name == r + MetricSuffixes[i];
    assert r == name[..|r|] && base == name[..|base|];
  }

  lemma SuffixLetters()
    ensures MetricSuffixes[0] == "_total" && MetricSuffixes[1] == "_count" && MetricSuffixes[2] == "_sum"
    ensures MetricSuffixes[3] == "_bucket" && MetricSuffixes[4] == "_info" && MetricSuffixes[5] == "_created"
  {
  }

  /** A histogram's bucket samples belong to the family named without the suffix. */
  lemma BucketBaseName(base: string)
    ensures ExtractBaseMetricName(base + "_bucket") == base
  {
    SuffixLetters();
    var name := base + "_bucket";
    DiffersAt(name, "_total", 5);
    DiffersAt(name, "_count", 0);
    DiffersAt(name, "_sum", 3);
    StripSuffixAt(base, 3);
  }

  /** A histogram's sum sample belongs to the family named without the suffix. */
  lemma SumBaseName(base: string)
    ensures ExtractBaseMetricName(base + "_sum") == base
  {
    SuffixLetters();
    var name := base + "_sum";
    LastDiffers(name, "_total");
    LastDiffers(name, "_count");
    StripSuffixAt(base, 2);
  }

  /** A histogram's count sample belongs to the family named without the suffix. */
  lemma CountBaseName(base: string)
    ensures ExtractBaseMetricName(base + "_count") == base
  {
    SuffixLetters();
    DiffersAt(base + "_count", "_total", 5);
    StripSuffixAt(base, 1);
  }

  /** A counter's `_total` sample belongs to the family named without the suffix. */
  lemma CounterBaseName(base: string)
    ensures ExtractBaseMetricName(base + "_total") == base
  {
    SuffixLetters();
    StripSuffixAt(base, 0);
  }

  /** A name that does not end with the last letter of `suffix` does not end with `suffix`. */
  lemma LastDiffers(name: string, suffix: string)
    requires suffix != [] && (name == [] || name[|name| - 1] != suffix[|suffix| - 1])
    ensures !EndsWith(name, suffix)
  {
    if |suffix| <= |name| {
      DiffersAt(name, suffix, |suffix| - 1);
    }
  }

  /** A name ending in none of the suffixes' last letters is its own family. */
  lemma NoSuffixKept(name: string)
    requires name != [] && name[|name| - 1] !in {'l', 't', 'm', 'o', 'd'}
    ensures ExtractBaseMetricName(name) == name
  {
    SuffixLetters();
    LastDiffers(name, "_total");
    LastDiffers(name, "_count");
    LastDiffers(name, "_sum");
    LastDiffers(name, "_bucket");
    LastDiffers(name, "_info");
    LastDiffers(name, "_created");
  }

  /** Only the first matching suffix is removed: a count of totals keeps `_total`. */
  lemma OneSuffixStripped(base: string)
    ensures ExtractBaseMetricName(base + "_total" + "_count") == base + "_total"
  {
    SuffixLetters();
    var name := base + "_total" + "_count";
    assert name == (base + "_total") + MetricSuffixes[1];
    DiffersAt(name, "_total", 5);
    StripSuffixAt(base + "_total", 1);
  }

  /** A sample whose base name is `base` is appended to the one family `base`. */
  lemma SampleJoinsFamily(metrics: PrometheusMetrics, base: string, samples: seq<MetricSample>, s: MetricSample)
    requires metrics == map[base := PrometheusMetric(base, None, None, samples)] || (metrics == map[] && samples == [])
    requires ExtractBaseMetricName(s.name) == base
    ensures ApplyLine(metrics, Sample(s)) == map[base := PrometheusMetric(base, None, None, samples + [s])]
  {
  }

  /** Samples whose names share a base name land in one family, in input order. */
  lemma SameFamilyGrouped(base: string, a: MetricSample, b: MetricSample, c: MetricSample, d: MetricSample)
    requires ExtractBaseMetricName(a.name) == base && ExtractBaseMetricName(b.name) == base
    requires ExtractBaseMetricName(c.name) == base && ExtractBaseMetricName(d.name) == base
    ensures var m := ApplyLine(ApplyLine(ApplyLine(ApplyLine(map[], Sample(a)), Sample(b)), Sample(c)), Sample(d));
      m.Keys == {base} && m[base].samples == [a, b, c, d]
  {
    var m0: PrometheusMetrics := map[];
    SampleJoinsFamily(m0, base, [], a);
    assert [] + [a] == [a];
    var m1 := ApplyLine(m0, Sample(a));
    SampleJoinsFamily(m1, base, [a], b);
    assert [a] + [b] == [a, b];
    var m2 := ApplyLine(m1, Sample(b));
    SampleJoinsFamily(m2, base, [a, b], c);
    assert [a, b] + [c] == [a, b, c];
    var m3 := ApplyLine(m2, Sample(c));
    SampleJoinsFamily(m3, base, [a, b, c], d);
    assert [a, b, c] + [d] == [a, b, c, d];
    var m4 := ApplyLine(m3, Sample(d));
    assert m4 == map[base := PrometheusMetric(base, None, None, [a, b, c, d])];
  }

  /**
   * The case of `test_parse_histogram`: the bucket, sum and count samples of
   * a histogram all land in one family, in input order.
   */
  lemma HistogramGrouped(base: string, a: MetricSample, b: MetricSample, c: MetricSample, d: MetricSample)
    requires a.name == base + "_bucket" && b.name == base + "_bucket"
    requires c.name == base + "_sum" && d.name == base + "_count"
    ensures var m := ApplyLine(ApplyLine(ApplyLine(ApplyLine(map[], Sample(a)), Sample(b)), Sample(c)), Sample(d));
      m.Keys == {base} && m[base].samples == [a, b, c, d]
  {
    BucketBaseName(base);
    SumBaseName(base);
    CountBaseName(base);
    SameFamilyGrouped(base, a, b, c, d);
  }

  /** Parses a whole exposition; lines it cannot read are skipped, so it never fails. */
  method Parse(content: string) returns (r: Result<PrometheusMetrics, string>)
    ensures r.Success?
    ensures r.value == ParseLines(map[], Lines(content))
    ensures KeyedByName(r.value)
  {
    var metrics: PrometheusMetrics := map[];
    var lines := Lines(content);
    for i := 0 to |lines|
      invariant ParseLines(metrics, lines[i..]) == ParseLines(map[], lines)
    {
      var line := lines[i];
      assert lines[i..][0] == line && lines[i..][1..] == lines[i + 1..];
      var kind := ClassifyLine(Trim(line));
      ghost var expected := ApplyLine(metrics, kind);
      assert ParseLines(metrics, lines[i..]) == ParseLines(expected, lines[i + 1..]);
      if kind.Help? {
        var base := ExtractBaseMetricName(kind.name);
        var metric := GetOrCreateMetric(metrics, base);
        metrics := metrics[base := metric.(help := Some(kind.text))];
        assert metrics == expected;
      } else if kind.Type? {
        var base := ExtractBaseMetricName(kind.name);
        var metric := GetOrCreateMetric(metrics, base);
        metrics := metrics[base := metric.(metricType := Some(kind.text))];
        assert metrics == expected;
      } else if kind.Sample? {
        var base := ExtractBaseMetricName(kind.sample.name);
        var metric := GetOrCreateMetric(metrics, base);
        metrics := metrics[base := metric.(samples := metric.samples + [kind.sample])];
        assert metrics == expected;
      } else {
        assert kind.Skipped? || kind.Unreadable?;
        assert metrics == expected;
      }
    }
    ParseLinesKeyedByName(map[], lines);
    return Success(metrics);
  }
}

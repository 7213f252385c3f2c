/**
 * The label block every cAdvisor-style line carries: six standard labels in
 * a fixed order, optionally followed by line-specific extras, each value
 * escaped. The escaper is the same character map the exposition formatter
 * uses, so both are `PrometheusFormat.Escaped`.
 */
module CadvisorLabels {
  import opened Seqs
  import opened Text
  import opened Wrappers
  import opened PrometheusParser
  import opened PrometheusFormat
  import opened PrometheusRoundTrip

  /** The labels cAdvisor puts on every container metric. */
  datatype StandardLabels = StandardLabels(
    container: string, id: string, image: string, name: string, namespace: string, pod: string)

  /** `StandardLabels::default()`: all six empty. */
  const DefaultLabels := StandardLabels("", "", "", "", "", "")

  /**
   * The labels of a sandbox-level metric: container `kata`, the pod uid as
   * id, image `unknown`, and the pod name as both name and pod.
   */
  function NewStandardLabels(podUid: string, podName: string, podNamespace: string): (r: StandardLabels)
    ensures r.container == "kata" && r.image == "unknown"
    ensures r.id == podUid && r.namespace == podNamespace
    ensures r.name == podName && r.pod == podName
  {
    StandardLabels("kata", podUid, "unknown", podName, podNamespace, podName)
  }

  /** The standard label names, in the order they are written. */
  const StandardKeys: seq<string> := ["container", "id", "image", "name", "namespace", "pod"]

  /** The standard labels as a label map. */
  function LabelMap(l: StandardLabels): map<string, string>
  {
    map["container" := l.container, "id" := l.id, "image" := l.image,
        "name" := l.name, "namespace" := l.namespace, "pod" := l.pod]
  }

  /** The six `key="escaped value"` pairs, in the fixed order. */
  function StandardPairs(l: StandardLabels): seq<string>
  {
    [LabelPair("container", l.container), LabelPair("id", l.id), LabelPair("image", l.image),
     LabelPair("name", l.name), LabelPair("namespace", l.namespace), LabelPair("pod", l.pod)]
  }

  /** `{container="…",id="…",image="…",name="…",namespace="…",pod="…"}`. */
  function ToLabelString(l: StandardLabels): string
  {
    "{" + Join(StandardPairs(l), ",") + "}"
  }

  /** The pairs of the extras, in the given order, values escaped and keys written as they are. */
  function ExtraPairs(extras: seq<(string, string)>): (r: seq<string>)
    ensures |r| == |extras|
    ensures forall i :: 0 <= i < |extras| ==> r[i] == LabelPair(extras[i].0, extras[i].1)
    decreases |extras|
  {
    if extras == [] then []
    else
      var n := |extras| - 1;
      ExtraPairs(extras[..n]) + [LabelPair(extras[n].0, extras[n].1)]
  }

  /** The standard pairs followed by the extras, in one brace block. */
  function LabelStringWithExtras(l: StandardLabels, extras: seq<(string, string)>): string
  {
    "{" + Join(StandardPairs(l) + ExtraPairs(extras), ",") + "}"
  }

  /** Pushes one escaped pair per extra after the six standard pairs, then joins. */
  method ToLabelStringWithExtras(l: StandardLabels, extras: seq<(string, string)>) returns (r: string)
    ensures r == LabelStringWithExtras(l, extras)
  {
    var pairs := StandardPairs(l);
    for i := 0 to |extras|
      invariant pairs == StandardPairs(l) + ExtraPairs(extras[..i])
    {
      assert extras[..i + 1][..i] == extras[..i];
      var (key, value) := extras[i];
      var escaped := EscapeLabelValue(value);
      pairs := pairs + [QuotedPair(key, escaped)];
    }
    assert extras[..|extras|] == extras;
    r := "{" + Join(pairs, ",") + "}";
  }

  /** With no extras the block is the plain standard block. */
  lemma NoExtras(l: StandardLabels)
    ensures LabelStringWithExtras(l, []) == ToLabelString(l)
  {
    assert StandardPairs(l) + ExtraPairs([]) == StandardPairs(l);
  }

  lemma {:induction false} JoinGrows(parts: seq<string>, more: seq<string>, sep: string)
    requires parts != [] && more != [] && sep != []
    ensures |Join(parts + more, sep)| > |Join(parts, sep)|
    decreases |more|
  {
    var n := |more| - 1;
    assert parts + more == (parts + more[..n]) + [more[n]];
    JoinAppend(parts + more[..n], more[n], sep);
    if n > 0 {
      JoinGrows(parts, more[..n], sep);
    } else {
      assert parts + more[..n] == parts;
    }
  }

  /** Extras make the block longer, so a line with extras never carries the plain block. */
  lemma ExtrasChangeBlock(l: StandardLabels, extras: seq<(string, string)>)
    requires extras != []
    ensures |LabelStringWithExtras(l, extras)| > |ToLabelString(l)|
    ensures LabelStringWithExtras(l, extras) != ToLabelString(l)
  {
    JoinGrows(StandardPairs(l), ExtraPairs(extras), ",");
  }

  /** The keys of the extras, in order. */
  function ExtraKeys(extras: seq<(string, string)>): (r: seq<string>)
    ensures |r| == |extras|
    ensures forall i :: 0 <= i < |extras| ==> r[i] == extras[i].0
  {
    seq(|extras|, i requires 0 <= i < |extras| => extras[i].0)
  }

  /** The extras as a label map; a later extra with the same key wins. */
  function ExtrasMap(extras: seq<(string, string)>): map<string, string>
    decreases |extras|
  {
    if extras == [] then map[]
    else
      var n := |extras| - 1;
      ExtrasMap(extras[..n])[extras[n].0 := extras[n].1]
  }

  lemma {:induction false} ExtrasMapKeys(extras: seq<(string, string)>)
    ensures forall k :: k in ExtrasMap(extras) <==> k in ExtraKeys(extras)
    decreases |extras|
  {
    if extras != [] {
      var n := |extras| - 1;
      ExtrasMapKeys(extras[..n]);
      assert ExtraKeys(extras) == ExtraKeys(extras[..n]) + [extras[n].0];
    }
  }

  lemma {:induction false} ExtrasMapValue(extras: seq<(string, string)>, j: nat)
    requires NoDuplicates(ExtraKeys(extras)) && j < |extras|
    ensures extras[j].0 in ExtrasMap(extras) && ExtrasMap(extras)[extras[j].0] == extras[j].1
    decreases |extras|
  {
    var n := |extras| - 1;
    var init := extras[..n];
    assert ExtraKeys(extras) == ExtraKeys(init) + [extras[n].0];
    NoDuplicatesInit(ExtraKeys(init), extras[n].0);
    if j < n {
      ExtrasMapValue(init, j);
      assert ExtraKeys(extras)[j] != ExtraKeys(extras)[n];
    }
  }

  /** The standard keys name the standard map once each, and its pairs are the standard pairs. */
  lemma StandardKeysFacts(l: StandardLabels)
    ensures IsEnumeration(StandardKeys, LabelMap(l).Keys)
    ensures forall k :: k in StandardKeys ==> IsName(k)
    ensures LabelPairs(LabelMap(l), StandardKeys) == StandardPairs(l)
  {
    StandardKeyNames();
    StandardKeysDistinct();
    StandardKeysCover(l);
    StandardPairsInOrder(l);
  }

  lemma StandardKeysCover(l: StandardLabels)
    ensures forall k :: k in StandardKeys <==> k in LabelMap(l)
  {
  }

  lemma StandardPairsInOrder(l: StandardLabels)
    ensures forall k :: k in StandardKeys ==> k in LabelMap(l)
    ensures LabelPairs(LabelMap(l), StandardKeys) == StandardPairs(l)
  {
    StandardKeysCover(l);
    var lhs := LabelPairs(LabelMap(l), StandardKeys);
    var rhs := StandardPairs(l);
    forall i | 0 <= i < 6
      ensures lhs[i] == rhs[i]
    {
      StandardPairAt(l, i);
    }
  }

  lemma StandardPairAt(l: StandardLabels, i: nat)
    requires i < 6
    ensures StandardKeys[i] in LabelMap(l)
    ensures LabelPair(StandardKeys[i], LabelMap(l)[StandardKeys[i]]) == StandardPairs(l)[i]
  {
    var m := LabelMap(l);
    if i == 0 {
      assert m["container"] == l.container;
    } else if i == 1 {
      assert m["id"] == l.id;
    } else if i == 2 {
      assert m["image"] == l.image;
    } else if i == 3 {
      assert m["name"] == l.name;
    } else if i == 4 {
      assert m["namespace"] == l.namespace;
    } else {
      assert m["pod"] == l.pod;
    }
  }

  lemma StandardKeyNames()
    ensures forall k :: k in StandardKeys ==> IsName(k)
  {
    assert IsName("container") && IsName("id") && IsName("image");
    assert IsName("name") && IsName("namespace") && IsName("pod");
  }

  lemma StandardKeysDistinct()
    ensures NoDuplicates(StandardKeys)
  {
  }

  /** A value the exposition parser reads back unchanged in every label. */
  predicate PlainLabels(l: StandardLabels)
  {
    IsPlainLabelValue(l.container) && IsPlainLabelValue(l.id) && IsPlainLabelValue(l.image)
    && IsPlainLabelValue(l.name) && IsPlainLabelValue(l.namespace) && IsPlainLabelValue(l.pod)
  }

  lemma PlainLabelMap(l: StandardLabels)
    requires PlainLabels(l)
    ensures forall k :: k in LabelMap(l) ==> IsPlainLabelValue(LabelMap(l)[k])
  {
  }

  /** Every extra's key is in the extras map, holding the value of some extra with that key. */
  lemma {:induction false} ExtrasMapSource(extras: seq<(string, string)>)
    ensures forall k :: k in ExtrasMap(extras) ==>
      exists i :: 0 <= i < |extras| && extras[i].0 == k && ExtrasMap(extras)[k] == extras[i].1
    decreases |extras|
  {
    if extras != [] {
      var n := |extras| - 1;
      var init := extras[..n];
      ExtrasMapSource(init);
      forall x | x in ExtrasMap(extras)
        ensures exists i :: 0 <= i < |extras| && extras[i].0 == x && ExtrasMap(extras)[x] == extras[i].1
      {
        if x != extras[n].0 {
          assert x in ExtrasMap(init);
          var i :| 0 <= i < |init| && init[i].0 == x && ExtrasMap(init)[x] == init[i].1;
          assert extras[i] == init[i];
        }
      }
    }
  }

  /** No extra key is among `keys` when the combined key list has no duplicates. */
  lemma FreshExtras(keys: seq<string>, extras: seq<(string, string)>)
    requires NoDuplicates(keys + ExtraKeys(extras))
    ensures NoDuplicates(ExtraKeys(extras))
    ensures forall k :: k in keys ==> k !in ExtrasMap(extras)
  {
    var all := keys + ExtraKeys(extras);
    assert forall j :: 0 <= j < |extras| ==> all[|keys| + j] == ExtraKeys(extras)[j];
    ExtrasMapKeys(extras);
    forall k | k in keys
      ensures k !in ExtraKeys(extras)
    {
      var s :| 0 <= s < |keys| && keys[s] == k;
      forall j | 0 <= j < |extras|
        ensures ExtraKeys(extras)[j] != k
      {
        assert all[|keys| + j] != all[s];
      }
    }
  }

  lemma MergedPairAt(base: map<string, string>, keys: seq<string>, extras: seq<(string, string)>, i: nat)
    requires forall k :: k in keys ==> k in base && k !in ExtrasMap(extras)
    requires NoDuplicates(ExtraKeys(extras))
    requires i < |keys| + |extras|
    ensures (keys + ExtraKeys(extras))[i] in base + ExtrasMap(extras)
    ensures var all := keys + ExtraKeys(extras);
      LabelPair(all[i], (base + ExtrasMap(extras))[all[i]]) == (LabelPairs(base, keys) + ExtraPairs(extras))[i]
  {
    var all := keys + ExtraKeys(extras);
    if i < |keys| {
      assert all[i] == keys[i];
    } else {
      ExtrasMapValue(extras, i - |keys|);
      assert all[i] == extras[i - |keys|].0;
    }
  }

  /** Extras with fresh keys extend a map and its key order without disturbing either. */
  lemma MergedLabels(base: map<string, string>, keys: seq<string>, extras: seq<(string, string)>)
    requires IsEnumeration(keys, base.Keys)
    requires NoDuplicates(keys + ExtraKeys(extras))
    ensures IsEnumeration(keys + ExtraKeys(extras), (base + ExtrasMap(extras)).Keys)
    ensures forall k :: k in keys + ExtraKeys(extras) ==> k in base + ExtrasMap(extras)
    ensures LabelPairs(base + ExtrasMap(extras), keys + ExtraKeys(extras)) == LabelPairs(base, keys) + ExtraPairs(extras)
  {
    MergedKeys(base, keys, extras);
    FreshExtras(keys, extras);
    MergedPairs(base, keys, extras);
  }

  lemma MergedKeys(base: map<string, string>, keys: seq<string>, extras: seq<(string, string)>)
    requires IsEnumeration(keys, base.Keys)
    requires NoDuplicates(keys + ExtraKeys(extras))
    ensures IsEnumeration(keys + ExtraKeys(extras), (base + ExtrasMap(extras)).Keys)
  {
    ExtrasMapKeys(extras);
  }

  lemma MergedPairs(base: map<string, string>, keys: seq<string>, extras: seq<(string, string)>)
    requires forall k :: k in keys ==> k in base && k !in ExtrasMap(extras)
    requires NoDuplicates(ExtraKeys(extras))
    requires forall k :: k in keys + ExtraKeys(extras) ==> k in base + ExtrasMap(extras)
    ensures LabelPairs(base + ExtrasMap(extras), keys + ExtraKeys(extras)) == LabelPairs(base, keys) + ExtraPairs(extras)
  {
    var all := keys + ExtraKeys(extras);
    var m := base + ExtrasMap(extras);
    var lhs := LabelPairs(m, all);
    var rhs := LabelPairs(base, keys) + ExtraPairs(extras);
    forall i | 0 <= i < |lhs|
      ensures lhs[i] == rhs[i]
    {
      MergedPairAt(base, keys, extras, i);
    }
  }

  /**
   * The block written for the standard labels and distinct, well-named
   * extras parses back, through the monitor's own label parser, to exactly
   * those labels.
   */
  lemma ExtrasParse(l: StandardLabels, extras: seq<(string, string)>)
    requires PlainLabels(l)
    requires NoDuplicates(StandardKeys + ExtraKeys(extras))
    requires forall i :: 0 <= i < |extras| ==> IsName(extras[i].0) && IsPlainLabelValue(extras[i].1)
    ensures var s := LabelStringWithExtras(l, extras);
      |s| >= 2 && s[0] == '{' && s[|s| - 1] == '}' &&
      ParseLabels(s[1..|s| - 1]) == Success(LabelMap(l) + ExtrasMap(extras))
  {
    var keys := StandardKeys + ExtraKeys(extras);
    var m := LabelMap(l) + ExtrasMap(extras);
    StandardKeysFacts(l);
    PlainLabelMap(l);
    MergedLabels(LabelMap(l), StandardKeys, extras);
    forall k | k in m
      ensures IsName(k) && IsPlainLabelValue(m[k])
    {
      assert k in keys;
      if k in ExtrasMap(extras) {
        ExtrasMapSource(extras);
        var i :| 0 <= i < |extras| && extras[i].0 == k && ExtrasMap(extras)[k] == extras[i].1;
      }
    }
    assert "pod" in m;
    LabelsRoundTrip(m, keys);
    var s := LabelStringWithExtras(l, extras);
    assert s[1..|s| - 1] == Join(StandardPairs(l) + ExtraPairs(extras), ",");
  }

  /** The plain block parses back to the six standard labels. */
  lemma LabelStringParses(l: StandardLabels)
    requires PlainLabels(l)
    ensures var s := ToLabelString(l);
      |s| >= 2 && s[0] == '{' && s[|s| - 1] == '}' && ParseLabels(s[1..|s| - 1]) == Success(LabelMap(l))
  {
    StandardKeysFacts(l);
    PlainLabelMap(l);
    assert "pod" in LabelMap(l);
    LabelsRoundTrip(LabelMap(l), StandardKeys);
    var s := ToLabelString(l);
    assert s[1..|s| - 1] == Join(StandardPairs(l), ",");
  }
}

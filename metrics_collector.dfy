/**
 * One collection cycle of the metrics collector: snapshot the registered
 * sandboxes, fetch and parse each one's metrics, stage the successes and
 * publish them together. The fetches are an input: `fetch(id)` is what the
 * shim of sandbox `id` answered, already decoded to text, or an error.
 */
module Collector {
  import opened Wrappers
  import opened Seqs
  import opened Text
  import opened PrometheusParser
  import opened Registry
  import opened MetricsStore

  /** What parsing a shim's answer yields. */
  function ParsedText(text: string): PrometheusMetrics
  {
    ParseLines(map[], Lines(text))
  }

  /** The (id, metrics) pairs the cycle stages, in the order of `ids`. */
  function Successes(ids: seq<string>, fetch: string -> Result<string, string>): seq<(string, PrometheusMetrics)>
    decreases |ids|
  {
    if ids == [] then []
    else
      var n := |ids| - 1;
      var answer := fetch(ids[n]);
      Successes(ids[..n], fetch) + if answer.Success? then [(ids[n], ParsedText(answer.value))] else []
  }

  lemma SuccessesStep(ids: seq<string>, i: nat, fetch: string -> Result<string, string>)
    requires i < |ids|
    ensures Successes(ids[..i + 1], fetch) ==
      Successes(ids[..i], fetch) + if fetch(ids[i]).Success? then [(ids[i], ParsedText(fetch(ids[i]).value))] else []
  {
    PrefixExtend(ids, i);
    assert ids[..i + 1][..i] == ids[..i];
  }

  lemma AddAllStep(b: Buffers, adds: seq<(string, PrometheusMetrics)>, id: string, metrics: PrometheusMetrics)
    ensures AddAll(b, adds + [(id, metrics)]) == Added(AddAll(b, adds), id, metrics)
  {
    assert (adds + [(id, metrics)])[..|adds|] == adds;
  }

  /** Every staged pair is a sandbox whose fetch succeeded, with its parsed answer. */
  lemma {:induction false} SuccessesSound(ids: seq<string>, fetch: string -> Result<string, string>)
    ensures var s := Successes(ids, fetch);
      |s| <= |ids| &&
      forall i :: 0 <= i < |s| ==> s[i].0 in ids && fetch(s[i].0).Success? && s[i].1 == ParsedText(fetch(s[i].0).value)
    decreases |ids|
  {
    if ids != [] {
      var n := |ids| - 1;
      SuccessesSound(ids[..n], fetch);
      var init := Successes(ids[..n], fetch);
      var s := Successes(ids, fetch);
      assert forall i :: 0 <= i < |init| ==> s[i] == init[i];
      assert forall k :: k in ids[..n] ==> k in ids;
    }
  }

  /** Every sandbox whose fetch succeeded is staged. */
  lemma {:induction false} SuccessesComplete(ids: seq<string>, fetch: string -> Result<string, string>, k: string)
    requires k in ids && fetch(k).Success?
    ensures exists i :: 0 <= i < |Successes(ids, fetch)| && Successes(ids, fetch)[i].0 == k
    decreases |ids|
  {
    var n := |ids| - 1;
    var init := Successes(ids[..n], fetch);
    var s := Successes(ids, fetch);
    if k == ids[n] {
      assert s[|init|].0 == k;
    } else {
      var j :| 0 <= j < |ids| && ids[j] == k;
      assert ids[..n][j] == k;
      SuccessesComplete(ids[..n], fetch, k);
      var i :| 0 <= i < |init| && init[i].0 == k;
      assert s[i] == init[i];
    }
  }

  /**
   * A cycle over a non-empty snapshot publishes exactly the sandboxes whose
   * fetch succeeded, each under its own id with its parsed metrics; every
   * other sandbox's previous metrics are gone, and staging is empty again.
   */
  lemma CollectionPublishes(b: Buffers, ids: seq<string>, fetch: string -> Result<string, string>, k: string)
    ensures var r := Published(AddAll(Started(b), Successes(ids, fetch)));
      r.staging == map[] && (k in r.current <==> k in ids && fetch(k).Success?)
    ensures var r := Published(AddAll(Started(b), Successes(ids, fetch)));
      k in r.current ==> r.current[k] == CachedMetrics(ParsedText(fetch(k).value))
  {
    var adds := Successes(ids, fetch);
    CycleReplaces(b, adds, k);
    SuccessesSound(ids, fetch);
    if k in ids && fetch(k).Success? {
      SuccessesComplete(ids, fetch, k);
    }
    var r := Published(AddAll(Started(b), adds));
    if k in r.current {
      StagedValue(adds, k);
    }
  }

  /** The fetches of one cycle, one answer per id in snapshot order (`join_all` keeps the order). */
  method FetchAll(ids: seq<string>, fetch: string -> Result<string, string>) returns (answers: seq<(string, Result<string, string>)>)
    ensures |answers| == |ids|
    ensures forall j :: 0 <= j < |ids| ==> answers[j] == (ids[j], fetch(ids[j]))
  {
    answers := [];
    for i := 0 to |ids|
      invariant |answers| == i
      invariant forall j :: 0 <= j < i ==> answers[j] == (ids[j], fetch(ids[j]))
    {
      answers := answers + [(ids[i], fetch(ids[i]))];
    }
  }

  /** The result loop of a cycle: stage each success, count successes and failures. */
  method StageAll(store: MetricsCache, ids: seq<string>, answers: seq<(string, Result<string, string>)>,
                  fetch: string -> Result<string, string>) returns (success: nat, failure: nat)
    requires |answers| == |ids|
    requires forall j :: 0 <= j < |ids| ==> answers[j] == (ids[j], fetch(ids[j]))
    modifies store
    ensures store.State() == AddAll(old(store.State()), Successes(ids, fetch))
    ensures success == |Successes(ids, fetch)| && success + failure == |ids|
  {
    success, failure := 0, 0;
    for i := 0 to |answers|
      invariant store.State() == AddAll(old(store.State()), Successes(ids[..i], fetch))
      invariant success == |Successes(ids[..i], fetch)| && success + failure == i
    {
      var (id, answer) := answers[i];
      SuccessesStep(ids, i, fetch);
      match answer
      case Success(text) =>
        // Parsing never fails, so the source's parse-failure branch is unreachable.
        var parsed := Parse(text);
        AddAllStep(old(store.State()), Successes(ids[..i], fetch), id, parsed.value);
        store.AddMetrics(id, parsed.value);
        success := success + 1;
      case Failure(_) =>
        assert Successes(ids[..i], fetch) + [] == Successes(ids[..i], fetch);
        failure := failure + 1;
    }
    assert ids[..|answers|] == ids;
  }

  /** The collector: reads the registry, writes the metrics store. */
  class MetricsCollector {
    const registry: SandboxCache
    const store: MetricsCache
    const intervalSecs: nat

    constructor (registry: SandboxCache, store: MetricsCache, intervalSecs: nat)
      ensures this.registry == registry && this.store == store && this.intervalSecs == intervalSecs
    {
      this.registry := registry;
      this.store := store;
      this.intervalSecs := intervalSecs;
    }

    /**
     * One cycle of the collection loop. An empty snapshot skips the cycle
     * and leaves the store alone; otherwise staging is cleared, each success
     * is staged, and the staging buffer is published. Every sandbox counts
     * once, as a success or as a failure.
     */
    method CollectOnce(fetch: string -> Result<string, string>) returns (success: nat, failure: nat, ghost ids: seq<string>)
      modifies store
      ensures IsEnumeration(ids, registry.sandboxes.Keys)
      ensures ids == [] ==> store.State() == old(store.State()) && success == 0 && failure == 0
      ensures ids != [] ==> store.State() == Published(AddAll(Started(old(store.State())), Successes(ids, fetch)))
      ensures success == |Successes(ids, fetch)| && success + failure == |ids|
    {
      var sandboxes := registry.GetSandboxList();
      ids := sandboxes;
      success, failure := 0, 0;
      if sandboxes == [] {
        return;
      }
      store.StartCollection();
      var answers := FetchAll(sandboxes, fetch);
      success, failure := StageAll(store, sandboxes, answers, fetch);
      store.FinishCollection();
    }
  }
}

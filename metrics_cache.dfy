/**
 * The double-buffered metrics store: readers see `current`, the collector
 * builds `staging`, and finishing a collection publishes `staging` as the
 * new `current` in one step. The mutexes are not modelled; operations run
 * one at a time.
 */
module MetricsStore {
  import opened Wrappers
  import opened Seqs
  import PrometheusParser

  /** The parsed metrics of one sandbox. */
  datatype CachedMetrics = CachedMetrics(metrics: PrometheusParser.PrometheusMetrics)

  type MetricsMap = map<string, CachedMetrics>

  /** Both buffers as values. */
  datatype Buffers = Buffers(current: MetricsMap, staging: MetricsMap)

  const Empty := Buffers(map[], map[])

  /** What a reader gets for `id`: only the published buffer is consulted. */
  function Get(b: Buffers, id: string): (r: Option<CachedMetrics>)
    ensures r.Some? <==> id in b.current
    ensures r.Some? ==> r.value == b.current[id]
  {
    if id in b.current then Some(b.current[id]) else None
  }

  /** Starting a collection empties the staging buffer. */
  function Started(b: Buffers): Buffers
  {
    b.(staging := map[])
  }

  /** Adding stores (or overwrites) one sandbox's metrics in the staging buffer. */
  function Added(b: Buffers, id: string, metrics: PrometheusParser.PrometheusMetrics): Buffers
  {
    b.(staging := b.staging[id := CachedMetrics(metrics)])
  }

  /** Finishing publishes the staging buffer and leaves an empty one behind. */
  function Published(b: Buffers): Buffers
  {
    Buffers(b.staging, map[])
  }

  /**
   * Deleting rebuilds the published buffer without `id` and reports whether
   * the rebuilt map is smaller than the old one.
   */
  function Deleted(b: Buffers, id: string): (r: (Buffers, bool))
    ensures r.1 <==> id in b.current
    ensures r.0.current.Keys == b.current.Keys - {id}
    ensures forall k :: k in r.0.current ==> r.0.current[k] == b.current[k]
    ensures r.0.staging == b.staging
  {
    var rebuilt := map k | k in b.current && k != id :: b.current[k];
    assert rebuilt.Keys == b.current.Keys - {id};
    (b.(current := rebuilt), |rebuilt| < |b.current|)
  }

  /** A second delete of the same id finds nothing. */
  lemma DeleteTwice(b: Buffers, id: string)
    ensures !Deleted(Deleted(b, id).0, id).1
    ensures Deleted(Deleted(b, id).0, id).0 == Deleted(b, id).0
  {
    var once := Deleted(b, id).0;
    var twice := Deleted(once, id).0;
    assert twice.current == once.current;
  }

  /** The operations the collector performs on the staging buffer. */
  datatype StagingOp = Start | Add(id: string, metrics: PrometheusParser.PrometheusMetrics)

  function ApplyStaging(b: Buffers, ops: seq<StagingOp>): Buffers
    decreases |ops|
  {
    if ops == [] then b
    else
      var next := match ops[0] case Start => Started(b) case Add(id, m) => Added(b, id, m);
      ApplyStaging(next, ops[1..])
  }

  /** However many staging operations run, readers see exactly what they saw before. */
  lemma {:induction false} StagingInvisible(b: Buffers, ops: seq<StagingOp>, id: string)
    ensures ApplyStaging(b, ops).current == b.current
    ensures Get(ApplyStaging(b, ops), id) == Get(b, id)
    decreases |ops|
  {
    if ops != [] {
      var next := match ops[0] case Start => Started(b) case Add(i, m) => Added(b, i, m);
      StagingInvisible(next, ops[1..], id);
    }
  }

  /** The staging buffer built from empty by the adds, in order; a later add of an id overwrites. */
  function Staged(adds: seq<(string, PrometheusParser.PrometheusMetrics)>): MetricsMap
    decreases |adds|
  {
    if adds == [] then map[]
    else
      var n := |adds| - 1;
      Staged(adds[..n])[adds[n].0 := CachedMetrics(adds[n].1)]
  }

  /** The adds applied one after the other. */
  function AddAll(b: Buffers, adds: seq<(string, PrometheusParser.PrometheusMetrics)>): Buffers
    decreases |adds|
  {
    if adds == [] then b
    else
      var n := |adds| - 1;
      Added(AddAll(b, adds[..n]), adds[n].0, adds[n].1)
  }

  /** Exactly the added ids are staged. */
  lemma {:induction false} StagedKeys(adds: seq<(string, PrometheusParser.PrometheusMetrics)>, id: string)
    ensures id in Staged(adds) <==> exists i :: 0 <= i < |adds| && adds[i].0 == id
    decreases |adds|
  {
    if adds != [] {
      var n := |adds| - 1;
      StagedKeys(adds[..n], id);
      if exists i :: 0 <= i < |adds| && adds[i].0 == id {
        var i :| 0 <= i < |adds| && adds[i].0 == id;
        if i < n {
          assert adds[..n][i].0 == id;
        }
      }
      if exists i :: 0 <= i < n && adds[..n][i].0 == id {
        var i :| 0 <= i < n && adds[..n][i].0 == id;
        assert adds[i].0 == id;
      }
    }
  }

  /** A staged id holds the metrics of its last add. */
  lemma {:induction false} StagedValue(adds: seq<(string, PrometheusParser.PrometheusMetrics)>, id: string)
    requires id in Staged(adds)
    ensures exists i ::
      0 <= i < |adds| && adds[i].0 == id && Staged(adds)[id] == CachedMetrics(adds[i].1) &&
      forall j :: i < j < |adds| ==> adds[j].0 != id
    decreases |adds|
  {
    var n := |adds| - 1;
    if adds[n].0 != id {
      StagedValue(adds[..n], id);
      var i :| 0 <= i < n && adds[..n][i].0 == id && Staged(adds[..n])[id] == CachedMetrics(adds[..n][i].1) &&
        forall j :: i < j < n ==> adds[..n][j].0 != id;
      assert adds[i] == adds[..n][i];
      assert forall j :: i < j < n ==> adds[j] == adds[..n][j];
    }
  }

  /** Adds after a start build exactly `Staged(adds)` and leave the published buffer alone. */
  lemma {:induction false} AddAllAfterStart(b: Buffers, adds: seq<(string, PrometheusParser.PrometheusMetrics)>)
    ensures AddAll(Started(b), adds) == Buffers(b.current, Staged(adds))
    decreases |adds|
  {
    if adds != [] {
      AddAllAfterStart(b, adds[..|adds| - 1]);
    }
  }

  /**
   * One collection cycle, start then the adds then finish, publishes exactly
   * the added metrics: an id with no add in the cycle is gone afterwards,
   * whatever the store held before, and staging is left empty.
   */
  lemma CycleReplaces(b: Buffers, adds: seq<(string, PrometheusParser.PrometheusMetrics)>, id: string)
    ensures Published(AddAll(Started(b), adds)) == Buffers(Staged(adds), map[])
    ensures Get(Published(AddAll(Started(b), adds)), id).Some? <==>
      exists i :: 0 <= i < |adds| && adds[i].0 == id
  {
    AddAllAfterStart(b, adds);
    StagedKeys(adds, id);
  }

  /** The store itself. */
  class MetricsCache {
    var current: MetricsMap
    var staging: MetricsMap

    ghost function State(): Buffers
      reads this
    {
      Buffers(current, staging)
    }

    constructor ()
      ensures State() == Empty
    {
      current := map[];
      staging := map[];
    }

    method GetMetrics(id: string) returns (r: Option<CachedMetrics>)
      ensures r == Get(State(), id)
    {
      if id in current {
        r := Some(current[id]);
      } else {
        r := None;
      }
    }

    method StartCollection()
      modifies this
      ensures State() == Started(old(State()))
    {
      staging := map[];
    }

    /** Stores one sandbox's metrics in the staging buffer (`set_metrics_staging`). */
    method AddMetrics(id: string, metrics: PrometheusParser.PrometheusMetrics)
      modifies this
      ensures State() == Added(old(State()), id, metrics)
    {
      staging := staging[id := CachedMetrics(metrics)];
    }

    method FinishCollection()
      modifies this
      ensures State() == Published(old(State()))
    {
      var published := staging;
      staging := map[];
      current := published;
    }

    method DeleteMetrics(id: string) returns (wasPresent: bool)
      modifies this
      ensures (State(), wasPresent) == Deleted(old(State()), id)
    {
      var rebuilt := map k | k in current && k != id :: current[k];
      assert rebuilt.Keys == current.Keys - {id};
      wasPresent := |rebuilt| < |current|;
      current := rebuilt;
    }
  }
}

/**
 * The registry of running sandboxes: a map from sandbox id to the pod
 * metadata the container runtime reported for it (empty strings until it
 * has been enriched). The read-write lock around the map is not modelled:
 * operations run one at a time, and a contended non-blocking read is an
 * explicit input.
 */
module Registry {
  import opened Wrappers
  import opened Seqs

  /** The pod's uid, name and namespace as the container runtime reports them. */
  datatype SandboxCriMetadata = SandboxCriMetadata(uid: string, name: string, namespace: string)

  /** The metadata a sandbox gets when it is first seen on disk. */
  const EmptyMetadata := SandboxCriMetadata("", "", "")

  type Sandboxes = map<string, SandboxCriMetadata>

  /** Insert-if-absent: the new map and whether the insert happened. */
  function PutIfAbsent(m: Sandboxes, id: string, value: SandboxCriMetadata): (r: (Sandboxes, bool))
    ensures r.1 <==> id !in m
    ensures r.1 ==> r.0 == m[id := value]
    ensures !r.1 ==> r.0 == m
    ensures r.0.Keys == m.Keys + {id}
  {
    if id in m then (m, false) else (m[id := value], true)
  }

  /** Remove-if-present: the new map and whether there was an entry to remove. */
  function RemoveIfPresent(m: Sandboxes, id: string): (r: (Sandboxes, bool))
    ensures r.1 <==> id in m
    ensures id !in r.0 && r.0.Keys == m.Keys - {id}
    ensures forall k :: k in r.0 ==> r.0[k] == m[k]
  {
    (m - {id}, id in m)
  }

  /** An insert-if-absent or a remove-if-present, as the reconciler issues them. */
  datatype RegistryOp = Put(id: string, value: SandboxCriMetadata) | Delete(id: string)

  function ApplyOp(m: Sandboxes, op: RegistryOp): Sandboxes
  {
    match op
    case Put(id, value) => PutIfAbsent(m, id, value).0
    case Delete(id) => RemoveIfPresent(m, id).0
  }

  /** The operations applied in order. */
  function ApplyOps(m: Sandboxes, ops: seq<RegistryOp>): Sandboxes
    decreases |ops|
  {
    if ops == [] then m else ApplyOps(ApplyOp(m, ops[0]), ops[1..])
  }

  /** Whether the last operation in `ops` naming `id` is an insert; `None` when none names it. */
  function LastOpIsPut(ops: seq<RegistryOp>, id: string): Option<bool>
    decreases |ops|
  {
    if ops == [] then None
    else
      var last := ops[|ops| - 1];
      if last.id == id then Some(last.Put?) else LastOpIsPut(ops[..|ops| - 1], id)
  }

  lemma {:induction false} ApplyOpsAppend(m: Sandboxes, ops: seq<RegistryOp>, op: RegistryOp)
    ensures ApplyOps(m, ops + [op]) == ApplyOp(ApplyOps(m, ops), op)
    decreases |ops|
  {
    if ops == [] {
      assert [op][1..] == [];
    } else {
      assert (ops + [op])[1..] == ops[1..] + [op];
      ApplyOpsAppend(ApplyOp(m, ops[0]), ops[1..], op);
    }
  }

  /**
   * Over any sequence of inserts-if-absent and removes-if-present, an id is
   * registered exactly when the last operation naming it was an insert (or,
   * when none names it, when it was registered before). A failed insert
   * leaves a registered id registered and a failed remove leaves an absent
   * id absent, so successful inserts minus successful removes is the key set.
   */
  lemma {:induction false} RegisteredAfterOps(m: Sandboxes, ops: seq<RegistryOp>, id: string)
    ensures id in ApplyOps(m, ops) <==>
      match LastOpIsPut(ops, id) case None => id in m case Some(put) => put
    decreases |ops|
  {
    if ops != [] {
      var n := |ops| - 1;
      InitLast(ops);
      ApplyOpsAppend(m, ops[..n], ops[n]);
      RegisteredAfterOps(m, ops[..n], id);
    }
  }

  /** Registered metadata changes only through an operation naming the id. */
  lemma {:induction false} UntouchedAfterOps(m: Sandboxes, ops: seq<RegistryOp>, id: string)
    requires LastOpIsPut(ops, id).None?
    ensures id in ApplyOps(m, ops) <==> id in m
    ensures id in m ==> ApplyOps(m, ops)[id] == m[id]
    decreases |ops|
  {
    if ops != [] {
      var n := |ops| - 1;
      InitLast(ops);
      ApplyOpsAppend(m, ops[..n], ops[n]);
      UntouchedAfterOps(m, ops[..n], id);
    }
  }

  /** The sandbox registry. */
  class SandboxCache {
    var sandboxes: Sandboxes

    constructor ()
      ensures sandboxes == map[]
    {
      sandboxes := map[];
    }

    /** Every registered id, once each, in the map's iteration order. */
    method GetSandboxList() returns (ids: seq<string>)
      ensures IsEnumeration(ids, sandboxes.Keys)
      ensures |ids| == |sandboxes|
    {
      ids := Enumerate(sandboxes.Keys);
    }

    /** Removes `id`; true when it was registered. */
    method DeleteIfExists(id: string) returns (deleted: bool)
      modifies this
      ensures (sandboxes, deleted) == RemoveIfPresent(old(sandboxes), id)
    {
      deleted := id in sandboxes;
      sandboxes := sandboxes - {id};
    }

    /** Registers `id` with `value` unless it is registered already; true when it inserted. */
    method PutIfNotExists(id: string, value: SandboxCriMetadata) returns (inserted: bool)
      modifies this
      ensures (sandboxes, inserted) == PutIfAbsent(old(sandboxes), id, value)
    {
      if id in sandboxes {
        inserted := false;
      } else {
        sandboxes := sandboxes[id := value];
        inserted := true;
      }
    }

    /** Inserts or overwrites the metadata of `id`. */
    method SetCriMetadata(id: string, value: SandboxCriMetadata)
      modifies this
      ensures sandboxes == old(sandboxes)[id := value]
    {
      sandboxes := sandboxes[id := value];
    }

    /** Every registered id with its metadata, once each, in the map's iteration order. */
    method GetSandboxesWithMetadata() returns (pairs: seq<(string, SandboxCriMetadata)>, ghost order: seq<string>)
      ensures IsEnumeration(order, sandboxes.Keys)
      ensures |pairs| == |order| == |sandboxes|
      ensures forall i :: 0 <= i < |pairs| ==> pairs[i].0 == order[i] && pairs[i].1 == sandboxes[order[i]]
    {
      var ids := Enumerate(sandboxes.Keys);
      order := ids;
      pairs := [];
      for i := 0 to |ids|
        invariant |pairs| == i
        invariant forall j :: 0 <= j < i ==> pairs[j].0 == ids[j] && pairs[j].1 == sandboxes[ids[j]]
      {
        pairs := pairs + [(ids[i], sandboxes[ids[i]])];
      }
    }

    /**
     * The metadata of `id` without waiting for the lock: `None` when a
     * writer holds it, otherwise the registered metadata if any.
     */
    method GetMetadataTry(id: string, contended: bool) returns (r: Option<SandboxCriMetadata>)
      ensures contended ==> r.None?
      ensures !contended ==> (r.Some? <==> id in sandboxes)
      ensures r.Some? ==> id in sandboxes && r.value == sandboxes[id]
    {
      if contended {
        r := None;
      } else if id in sandboxes {
        r := Some(sandboxes[id]);
      } else {
        r := None;
      }
    }
  }
}

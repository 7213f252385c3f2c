/**
 * Enriching registered sandboxes with pod metadata from the container
 * runtime. The connection and the pod listing are inputs: `connected` says
 * whether a client is available (cached or freshly connected), and `pods`
 * is what listing the pod sandboxes returned.
 */
module Cri {
  import opened Wrappers
  import opened Seqs
  import opened Registry

  /** The pod metadata the runtime reports. */
  datatype PodSandboxMetadata = PodSandboxMetadata(name: string, uid: string, namespace: string)

  /** One pod sandbox as listed by the runtime; its metadata may be missing. */
  datatype PodSandbox = PodSandbox(id: string, metadata: Option<PodSandboxMetadata>)

  /** The registry entry written for a matched pod: its metadata, or three empty strings. */
  function MetadataOf(pod: PodSandbox): (r: SandboxCriMetadata)
    ensures pod.metadata.None? ==> r == EmptyMetadata
    ensures pod.metadata.Some? ==>
      r.uid == pod.metadata.value.uid && r.name == pod.metadata.value.name &&
      r.namespace == pod.metadata.value.namespace
  {
    match pod.metadata
    case Some(meta) => SandboxCriMetadata(meta.uid, meta.name, meta.namespace)
    case None => SandboxCriMetadata("", "", "")
  }

  /** The registry after matching, the ids left unmatched, and the ids matched in order. */
  datatype Match = Match(registry: Sandboxes, remaining: seq<string>, matched: seq<string>)

  /**
   * The matching loop: each pod whose id is still in the list writes its
   * metadata under that id and takes the first occurrence out of the list.
   */
  function MatchPods(registry: Sandboxes, list: seq<string>, pods: seq<PodSandbox>): Match
    decreases |pods|
  {
    if pods == [] then Match(registry, list, [])
    else
      match FirstIndex(list, pods[0].id)
      case None => MatchPods(registry, list, pods[1..])
      case Some(pos) =>
        var rest := MatchPods(registry[list[pos] := MetadataOf(pods[0])], RemoveAt(list, pos), pods[1..]);
        Match(rest.registry, rest.remaining, [pods[0].id] + rest.matched)
  }

  /** A whole sync: without a client or without a pod listing nothing is matched. */
  function Synced(registry: Sandboxes, list: seq<string>, connected: bool, pods: Result<seq<PodSandbox>, string>): (r: Match)
    ensures !connected || pods.Failure? ==> r == Match(registry, list, [])
  {
    if !connected then Match(registry, list, [])
    else match pods
      case Failure(_) => Match(registry, list, [])
      case Success(listed) => MatchPods(registry, list, listed)
  }

  /** The ids of the listed pods. */
  function PodIds(pods: seq<PodSandbox>): set<string>
    decreases |pods|
  {
    if pods == [] then {} else {pods[0].id} + PodIds(pods[1..])
  }

  /** The remainder keeps the list's order. */
  lemma {:induction false} MatchKeepsOrder(registry: Sandboxes, list: seq<string>, pods: seq<PodSandbox>)
    ensures IsSubsequence(MatchPods(registry, list, pods).remaining, list)
    decreases |pods|
  {
    if pods == [] {
      SubsequenceReflexive(list);
    } else {
      match FirstIndex(list, pods[0].id)
      case None =>
        MatchKeepsOrder(registry, list, pods[1..]);
      case Some(pos) =>
        var shorter := RemoveAt(list, pos);
        var written := registry[list[pos] := MetadataOf(pods[0])];
        var r := MatchPods(written, shorter, pods[1..]);
        assert MatchPods(registry, list, pods).remaining == r.remaining;
        MatchKeepsOrder(written, shorter, pods[1..]);
        RemoveAtSubsequence(list, pos);
        SubsequenceTransitive(r.remaining, shorter, list);
    }
  }

  /** Remainder and matched ids together are the list, occurrence for occurrence. */
  lemma {:induction false} MatchCounts(registry: Sandboxes, list: seq<string>, pods: seq<PodSandbox>)
    ensures multiset(MatchPods(registry, list, pods).remaining) + multiset(MatchPods(registry, list, pods).matched) == multiset(list)
    decreases |pods|
  {
    if pods != [] {
      match FirstIndex(list, pods[0].id)
      case None =>
        MatchCounts(registry, list, pods[1..]);
      case Some(pos) =>
        var shorter := RemoveAt(list, pos);
        var written := registry[list[pos] := MetadataOf(pods[0])];
        var r := MatchPods(written, shorter, pods[1..]);
        assert MatchPods(registry, list, pods) == Match(r.registry, r.remaining, [pods[0].id] + r.matched);
        MatchCounts(written, shorter, pods[1..]);
        RemoveAtMultiset(list, pos);
        assert multiset([pods[0].id] + r.matched) == multiset{list[pos]} + multiset(r.matched);
    }
  }

  /** Every matched id was in the list and is a listed pod's id. */
  lemma {:induction false} MatchMembers(registry: Sandboxes, list: seq<string>, pods: seq<PodSandbox>)
    ensures forall k :: k in MatchPods(registry, list, pods).matched ==> k in list && k in PodIds(pods)
    decreases |pods|
  {
    if pods != [] {
      match FirstIndex(list, pods[0].id)
      case None =>
        MatchMembers(registry, list, pods[1..]);
      case Some(pos) =>
        var shorter := RemoveAt(list, pos);
        var written := registry[list[pos] := MetadataOf(pods[0])];
        var r := MatchPods(written, shorter, pods[1..]);
        assert MatchPods(registry, list, pods).matched == [pods[0].id] + r.matched;
        MatchMembers(written, shorter, pods[1..]);
        RemoveAtMultiset(list, pos);
        assert forall k :: k in shorter ==> k in list by {
          forall k | k in shorter ensures k in list {
            assert k in multiset(shorter);
          }
        }
    }
  }

  /**
   * The remainder keeps the list's order and loses exactly the matched ids,
   * one occurrence each, and every matched id was both listed and a pod's.
   */
  lemma MatchAccounting(registry: Sandboxes, list: seq<string>, pods: seq<PodSandbox>)
    ensures IsSubsequence(MatchPods(registry, list, pods).remaining, list)
    ensures multiset(MatchPods(registry, list, pods).remaining) + multiset(MatchPods(registry, list, pods).matched) == multiset(list)
    ensures |MatchPods(registry, list, pods).remaining| == |list| - |MatchPods(registry, list, pods).matched|
    ensures forall k :: k in MatchPods(registry, list, pods).matched ==> k in list && k in PodIds(pods)
  {
    var r := MatchPods(registry, list, pods);
    MatchKeepsOrder(registry, list, pods);
    MatchCounts(registry, list, pods);
    assert |multiset(r.remaining) + multiset(r.matched)| == |multiset(list)|;
    MatchMembers(registry, list, pods);
  }

  /**
   * Only matched ids are written: every other entry keeps its presence and
   * value, and each matched id holds the metadata of some pod with that id.
   */
  lemma {:induction false} MatchWrites(registry: Sandboxes, list: seq<string>, pods: seq<PodSandbox>, k: string)
    ensures var r := MatchPods(registry, list, pods);
      k !in r.matched ==> (k in r.registry <==> k in registry) && (k in registry ==> r.registry[k] == registry[k])
    ensures var r := MatchPods(registry, list, pods);
      k in r.matched ==> k in r.registry && exists j :: 0 <= j < |pods| && pods[j].id == k && r.registry[k] == MetadataOf(pods[j])
    decreases |pods|
  {
    if pods != [] {
      match FirstIndex(list, pods[0].id)
      case None =>
        MatchWrites(registry, list, pods[1..], k);
        var r := MatchPods(registry, list, pods[1..]);
        if k in r.matched {
          var j :| 0 <= j < |pods[1..]| && pods[1..][j].id == k && r.registry[k] == MetadataOf(pods[1..][j]);
          assert pods[j + 1] == pods[1..][j];
        }
      case Some(pos) =>
        var written := registry[list[pos] := MetadataOf(pods[0])];
        MatchWrites(written, RemoveAt(list, pos), pods[1..], k);
        var r := MatchPods(written, RemoveAt(list, pos), pods[1..]);
        if k in r.matched {
          var j :| 0 <= j < |pods[1..]| && pods[1..][j].id == k && r.registry[k] == MetadataOf(pods[1..][j]);
          assert pods[j + 1] == pods[1..][j];
        }
    }
  }

  /**
   * When the list has no duplicates (the registry's keys never do), the
   * remainder is the list minus every listed pod id, order kept.
   */
  lemma {:induction false} MatchRemainder(registry: Sandboxes, list: seq<string>, pods: seq<PodSandbox>)
    requires NoDuplicates(list)
    ensures MatchPods(registry, list, pods).remaining == Exclude(list, PodIds(pods))
    decreases |pods|
  {
    if pods == [] {
      ExcludeNothing(list);
    } else {
      var id := pods[0].id;
      assert PodIds(pods) == PodIds(pods[1..]) + {id};
      match FirstIndex(list, id)
      case None =>
        MatchRemainder(registry, list, pods[1..]);
        ExcludeAbsent(list, id, PodIds(pods[1..]));
      case Some(pos) =>
        RemoveFirstIsWithout(list, id, pos);
        MatchRemainder(registry[list[pos] := MetadataOf(pods[0])], RemoveAt(list, pos), pods[1..]);
        WithoutThenExclude(list, id, PodIds(pods[1..]));
    }
  }

  /** `sync_sandboxes`: writes the matched pods' metadata and returns the unmatched ids. */
  method SyncSandboxes(cache: SandboxCache, sandboxList: seq<string>, connected: bool, pods: Result<seq<PodSandbox>, string>)
      returns (r: Result<seq<string>, string>)
    modifies cache
    ensures r == Success(Synced(old(cache.sandboxes), sandboxList, connected, pods).remaining)
    ensures cache.sandboxes == Synced(old(cache.sandboxes), sandboxList, connected, pods).registry
  {
    if !connected {
      return Success(sandboxList);
    }
    if pods.Failure? {
      return Success(sandboxList);
    }
    var listed := pods.value;
    var list := sandboxList;
    ghost var goal := MatchPods(cache.sandboxes, list, listed);
    for i := 0 to |listed|
      invariant MatchPods(cache.sandboxes, list, listed[i..]).registry == goal.registry
      invariant MatchPods(cache.sandboxes, list, listed[i..]).remaining == goal.remaining
    {
      var pod := listed[i];
      assert listed[i..][0] == pod && listed[i..][1..] == listed[i + 1..];
      var found := FirstIndex(list, pod.id);
      if found.Some? {
        var pos := found.value;
        cache.SetCriMetadata(list[pos], MetadataOf(pod));
        list := RemoveAt(list, pos);
      }
    }
    assert listed[|listed|..] == [];
    return Success(list);
  }
}

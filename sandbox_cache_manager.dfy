/**
 * The reconciler that keeps the sandbox registry in step with the sandbox
 * directory and the container runtime. It tracks a list of ids still
 * waiting for pod metadata; the directory listing, the runtime's answers
 * and the clock are inputs.
 */
module Reconciler {
  import opened Wrappers
  import opened Seqs
  import opened Registry
  import opened MetricsStore
  import opened Cri

  /** Seconds between attempts to open the sandbox directory. */
  const FsMonitorRetryDelaySeconds: nat := 60
  /** Seconds between metadata syncs. */
  const PodCacheRefreshDelaySeconds: nat := 5
  /** Seconds between directory checks. */
  const FsCheckIntervalSeconds: nat := 5
  /** Milliseconds the monitor sleeps between iterations. */
  const PollIntervalMillis: nat := 100

  /** The registry, the metrics store and the tracked list, as values. */
  datatype ManagerState = ManagerState(registry: Sandboxes, store: Buffers, tracked: seq<string>)

  /** The initial listing: every entry registered with empty metadata unless already present. */
  function PutAll(registry: Sandboxes, entries: seq<string>): Sandboxes
    decreases |entries|
  {
    if entries == [] then registry
    else PutAll(PutIfAbsent(registry, entries[0], EmptyMetadata).0, entries[1..])
  }

  /** Afterwards exactly the old ids and the listed ids are registered; old metadata is kept. */
  lemma {:induction false} PutAllFacts(registry: Sandboxes, entries: seq<string>, k: string)
    ensures k in PutAll(registry, entries) <==> k in registry || k in entries
    ensures k in registry ==> PutAll(registry, entries)[k] == registry[k]
    ensures k !in registry && k in entries ==> PutAll(registry, entries)[k] == EmptyMetadata
    decreases |entries|
  {
    if entries != [] {
      PutAllFacts(PutIfAbsent(registry, entries[0], EmptyMetadata).0, entries[1..], k);
      assert k in entries <==> k == entries[0] || k in entries[1..];
    }
  }

  /**
   * The new-entry pass: a listed id that is neither tracked nor registered
   * is inserted with empty metadata and, when the insert succeeds, tracked.
   */
  function AddNew(registry: Sandboxes, tracked: seq<string>, listing: seq<string>): (Sandboxes, seq<string>)
    decreases |listing|
  {
    if listing == [] then (registry, tracked)
    else
      var id := listing[0];
      if id !in tracked && id !in registry then
        var put := PutIfAbsent(registry, id, EmptyMetadata);
        AddNew(put.0, if put.1 then tracked + [id] else tracked, listing[1..])
      else AddNew(registry, tracked, listing[1..])
  }

  lemma {:induction false} AddNewFacts(registry: Sandboxes, tracked: seq<string>, listing: seq<string>, k: string)
    ensures var r := AddNew(registry, tracked, listing);
      k in r.0 <==> k in registry || (k in listing && k !in tracked)
    ensures var r := AddNew(registry, tracked, listing);
      k in r.1 <==> k in tracked || (k in listing && k !in registry)
    ensures var r := AddNew(registry, tracked, listing);
      (k in registry ==> r.0[k] == registry[k]) && (k in r.0 && k !in registry ==> r.0[k] == EmptyMetadata)
    decreases |listing|
  {
    if listing != [] {
      var id := listing[0];
      assert k in listing <==> k == id || k in listing[1..];
      if id !in tracked && id !in registry {
        AddNewFacts(registry[id := EmptyMetadata], tracked + [id], listing[1..], k);
      } else {
        AddNewFacts(registry, tracked, listing[1..], k);
      }
    }
  }

  /** What the vanished-entry pass leaves: registry, store, and the ids it will drop. */
  datatype Removal = Removal(registry: Sandboxes, store: Buffers, toRemove: seq<string>)

  /**
   * The vanished-entry pass: a tracked id missing from the listing is
   * removed from the registry; when that removal succeeds its metrics are
   * deleted and it is marked for dropping from the tracked list.
   */
  function FindVanished(registry: Sandboxes, store: Buffers, tracked: seq<string>, listing: seq<string>): Removal
    decreases |tracked|
  {
    if tracked == [] then Removal(registry, store, [])
    else
      var id := tracked[0];
      if id !in listing then
        var removed := RemoveIfPresent(registry, id);
        if removed.1 then
          var rest := FindVanished(removed.0, Deleted(store, id).0, tracked[1..], listing);
          Removal(rest.registry, rest.store, [id] + rest.toRemove)
        else FindVanished(removed.0, store, tracked[1..], listing)
      else FindVanished(registry, store, tracked[1..], listing)
  }

  lemma {:induction false} FindVanishedFacts(registry: Sandboxes, store: Buffers, tracked: seq<string>, listing: seq<string>, k: string)
    ensures var v := FindVanished(registry, store, tracked, listing);
      k in v.toRemove <==> k in tracked && k !in listing && k in registry
    ensures var v := FindVanished(registry, store, tracked, listing);
      (k in v.registry <==> k in registry && !(k in tracked && k !in listing)) &&
      (k in v.registry ==> v.registry[k] == registry[k])
    ensures var v := FindVanished(registry, store, tracked, listing);
      v.store.staging == store.staging && (k in v.store.current <==> k in store.current && k !in v.toRemove) &&
      (k in v.store.current ==> v.store.current[k] == store.current[k])
    decreases |tracked|
  {
    if tracked != [] {
      var id := tracked[0];
      assert k in tracked <==> k == id || k in tracked[1..];
      if id !in listing {
        var removed := RemoveIfPresent(registry, id);
        if removed.1 {
          FindVanishedFacts(removed.0, Deleted(store, id).0, tracked[1..], listing, k);
        } else {
          FindVanishedFacts(removed.0, store, tracked[1..], listing, k);
        }
      } else {
        FindVanishedFacts(registry, store, tracked[1..], listing, k);
      }
    }
  }

  /** `check_filesystem_changes`; `None` stands for a directory that cannot be read. */
  function Checked(s: ManagerState, listing: Option<seq<string>>): (r: ManagerState)
    ensures listing.None? ==> r == s
  {
    match listing
    case None => s
    case Some(current) =>
      var added := AddNew(s.registry, s.tracked, current);
      var v := FindVanished(added.0, s.store, added.1, current);
      ManagerState(v.registry, v.store, Exclude(added.1, Elements(v.toRemove)))
  }

  /**
   * The fate of one id in a directory check. It is registered afterwards
   * iff it is listed and was registered or untracked, or is unlisted,
   * registered and untracked; it is tracked afterwards iff it was tracked
   * and not removed, or was listed, untracked and unregistered; its metrics
   * go exactly when it was tracked, unlisted and registered; metadata
   * already present is kept and a new entry's is empty.
   */
  lemma CheckedEffect(s: ManagerState, current: seq<string>, k: string)
    ensures var r := Checked(s, Some(current));
      k in r.registry <==>
        if k in current then k in s.registry || k !in s.tracked else k in s.registry && k !in s.tracked
    ensures var r := Checked(s, Some(current));
      k in r.tracked <==>
        (k in s.tracked && !(k !in current && k in s.registry)) ||
        (k in current && k !in s.tracked && k !in s.registry)
    ensures var r := Checked(s, Some(current));
      r.store.staging == s.store.staging &&
      Get(r.store, k) == if k in s.tracked && k !in current && k in s.registry then None else Get(s.store, k)
    ensures var r := Checked(s, Some(current));
      k in r.registry ==> r.registry[k] == if k in s.registry then s.registry[k] else EmptyMetadata
  {
    var added := AddNew(s.registry, s.tracked, current);
    AddNewFacts(s.registry, s.tracked, current, k);
    FindVanishedFacts(added.0, s.store, added.1, current, k);
  }

  /** `sync_cri_metadata`: a successful sync replaces the tracked list by the unmatched remainder. */
  function SyncedState(s: ManagerState, connected: bool, pods: Result<seq<PodSandbox>, string>): ManagerState
  {
    var m := Synced(s.registry, s.tracked, connected, pods);
    ManagerState(m.registry, s.store, m.remaining)
  }

  /** A sandbox the runtime knows leaves the tracked list and is registered with that pod's metadata. */
  lemma SyncUntracks(s: ManagerState, pods: seq<PodSandbox>, k: string)
    requires NoDuplicates(s.tracked) && k in s.tracked && k in PodIds(pods)
    ensures var r := SyncedState(s, true, Success(pods));
      k !in r.tracked && k in r.registry &&
      exists j :: 0 <= j < |pods| && pods[j].id == k && r.registry[k] == MetadataOf(pods[j])
  {
    var m := MatchPods(s.registry, s.tracked, pods);
    MatchRemainder(s.registry, s.tracked, pods);
    MatchAccounting(s.registry, s.tracked, pods);
    assert k !in m.remaining;
    assert multiset(s.tracked)[k] > 0;
    assert k in m.matched;
    MatchWrites(s.registry, s.tracked, pods, k);
  }

  /** A registered id that is not tracked keeps its entry and its metrics through a sync. */
  lemma SyncKeepsUntracked(s: ManagerState, connected: bool, pods: Result<seq<PodSandbox>, string>, k: string)
    requires k in s.registry && k !in s.tracked
    ensures var r := SyncedState(s, connected, pods);
      k in r.registry && r.registry[k] == s.registry[k] && k !in r.tracked && r.store == s.store
  {
    if connected && pods.Success? {
      MatchAccounting(s.registry, s.tracked, pods.value);
      MatchWrites(s.registry, s.tracked, pods.value, k);
      assert k !in multiset(s.tracked);
    }
  }

  /** One action of the monitor loop: a metadata sync or a directory check. */
  datatype Step =
    | SyncStep(connected: bool, pods: Result<seq<PodSandbox>, string>)
    | CheckStep(listing: Option<seq<string>>)

  function Run(s: ManagerState, steps: seq<Step>): ManagerState
    decreases |steps|
  {
    if steps == [] then s
    else
      var next := match steps[0]
        case SyncStep(connected, pods) => SyncedState(s, connected, pods)
        case CheckStep(listing) => Checked(s, listing);
      Run(next, steps[1..])
  }

  /**
   * A registered sandbox that is no longer tracked is never removed: through
   * any sequence of syncs and directory checks, whatever the directory
   * lists, it keeps its registry entry and its published metrics.
   */
  lemma {:induction false} UntrackedNeverRemoved(s: ManagerState, steps: seq<Step>, k: string)
    requires k in s.registry && k !in s.tracked
    ensures var r := Run(s, steps);
      k in r.registry && r.registry[k] == s.registry[k] && k !in r.tracked && Get(r.store, k) == Get(s.store, k)
    decreases |steps|
  {
    if steps != [] {
      match steps[0]
      case SyncStep(connected, pods) =>
        SyncKeepsUntracked(s, connected, pods, k);
        UntrackedNeverRemoved(SyncedState(s, connected, pods), steps[1..], k);
      case CheckStep(listing) =>
        if listing.Some? {
          CheckedEffect(s, listing.value, k);
        }
        UntrackedNeverRemoved(Checked(s, listing), steps[1..], k);
    }
  }

  /**
   * Once a sync has matched a tracked sandbox, its directory may vanish and
   * every later check lists nothing: the sandbox stays registered, with the
   * metadata the sync wrote, and its published metrics are never deleted.
   */
  lemma EnrichedSandboxLeaks(s: ManagerState, pods: seq<PodSandbox>, k: string)
    requires NoDuplicates(s.tracked) && k in s.tracked && k in PodIds(pods)
    ensures var enriched := SyncedState(s, true, Success(pods));
      var r := Run(enriched, [CheckStep(Some([])), SyncStep(true, Success(pods)), CheckStep(Some([]))]);
      k in enriched.registry && k in r.registry && r.registry[k] == enriched.registry[k] &&
      Get(r.store, k) == Get(s.store, k)
  {
    SyncUntracks(s, pods, k);
    UntrackedNeverRemoved(SyncedState(s, true, Success(pods)),
      [CheckStep(Some([])), SyncStep(true, Success(pods)), CheckStep(Some([]))], k);
  }

  /** The loop's two deadlines, in milliseconds. */
  datatype Timers = Timers(nextCacheUpdate: nat, nextFsCheck: nat)

  /** Both actions are first due a refresh interval after the monitor starts. */
  function InitialTimers(start: nat): (t: Timers)
    ensures t.nextCacheUpdate > start && t.nextFsCheck > start
  {
    Timers(start + PodCacheRefreshDelaySeconds * 1000, start + FsCheckIntervalSeconds * 1000)
  }

  /**
   * One iteration of the monitor loop at time `now`: a due sync runs first,
   * then a due directory check, and each action that ran is rescheduled.
   */
  function Tick(s: ManagerState, t: Timers, now: nat, connected: bool, pods: Result<seq<PodSandbox>, string>,
                listing: Option<seq<string>>): (r: (ManagerState, Timers))
  {
    var syncDue := now >= t.nextCacheUpdate;
    var checkDue := now >= t.nextFsCheck;
    var afterSync := if syncDue then SyncedState(s, connected, pods) else s;
    var afterCheck := if checkDue then Checked(afterSync, listing) else afterSync;
    (afterCheck,
     Timers(if syncDue then now + PodCacheRefreshDelaySeconds * 1000 else t.nextCacheUpdate,
            if checkDue then now + FsCheckIntervalSeconds * 1000 else t.nextFsCheck))
  }

  /**
   * An iteration in which both actions are due is a sync followed by a
   * directory check, and afterwards both deadlines lie in the future.
   */
  lemma TickOrder(s: ManagerState, t: Timers, now: nat, connected: bool, pods: Result<seq<PodSandbox>, string>,
                  listing: Option<seq<string>>)
    requires now >= t.nextCacheUpdate && now >= t.nextFsCheck
    ensures Tick(s, t, now, connected, pods, listing).0 == Run(s, [SyncStep(connected, pods), CheckStep(listing)])
    ensures Tick(s, t, now, connected, pods, listing).1.nextCacheUpdate > now
    ensures Tick(s, t, now, connected, pods, listing).1.nextFsCheck > now
  {
    var steps := [SyncStep(connected, pods), CheckStep(listing)];
    var afterSync := SyncedState(s, connected, pods);
    assert steps[1..] == [CheckStep(listing)];
    assert [CheckStep(listing)][1..] == [];
    assert Run(afterSync, [CheckStep(listing)]) == Run(Checked(afterSync, listing), []);
    assert Run(s, steps) == Run(afterSync, [CheckStep(listing)]);
  }

  /**
   * The evidently intended sync: it writes the metadata of the matched
   * sandboxes but leaves the list of sandboxes on disk alone, so that the
   * directory check can still remove an enriched sandbox.
   */
  function CorrectedSyncedState(s: ManagerState, connected: bool, pods: Result<seq<PodSandbox>, string>): (r: ManagerState)
    ensures r.tracked == s.tracked && r.store == s.store
  {
    ManagerState(Synced(s.registry, s.tracked, connected, pods).registry, s.store, s.tracked)
  }

  /** One iteration of the monitor loop with the corrected sync. */
  function CorrectedTick(s: ManagerState, t: Timers, now: nat, connected: bool, pods: Result<seq<PodSandbox>, string>,
                         listing: Option<seq<string>>): (r: (ManagerState, Timers))
  {
    var syncDue := now >= t.nextCacheUpdate;
    var checkDue := now >= t.nextFsCheck;
    var afterSync := if syncDue then CorrectedSyncedState(s, connected, pods) else s;
    var afterCheck := if checkDue then Checked(afterSync, listing) else afterSync;
    (afterCheck,
     Timers(if syncDue then now + PodCacheRefreshDelaySeconds * 1000 else t.nextCacheUpdate,
            if checkDue then now + FsCheckIntervalSeconds * 1000 else t.nextFsCheck))
  }

  /** Every registered sandbox is on the tracked list, so a directory check can see it vanish. */
  ghost predicate RegisteredTracked(s: ManagerState)
  {
    forall k :: k in s.registry ==> k in s.tracked
  }

  /** The corrected sync keeps every registered id and registers only tracked ones. */
  lemma CorrectedSyncKeys(s: ManagerState, connected: bool, pods: Result<seq<PodSandbox>, string>, k: string)
    ensures var r := CorrectedSyncedState(s, connected, pods);
      (k in s.registry ==> k in r.registry) && (k in r.registry ==> k in s.registry || k in s.tracked)
  {
    if connected && pods.Success? {
      MatchWrites(s.registry, s.tracked, pods.value, k);
      MatchAccounting(s.registry, s.tracked, pods.value);
    }
  }

  /** The corrected iteration keeps every registered sandbox on the tracked list. */
  lemma CorrectedTickKeepsTracked(s: ManagerState, t: Timers, now: nat, connected: bool,
                                  pods: Result<seq<PodSandbox>, string>, listing: Option<seq<string>>)
    requires RegisteredTracked(s)
    ensures RegisteredTracked(CorrectedTick(s, t, now, connected, pods, listing).0)
  {
    var afterSync := if now >= t.nextCacheUpdate then CorrectedSyncedState(s, connected, pods) else s;
    forall k | k in afterSync.registry
      ensures k in afterSync.tracked
    {
      CorrectedSyncKeys(s, connected, pods, k);
    }
    var r := CorrectedTick(s, t, now, connected, pods, listing).0;
    forall k | k in r.registry
      ensures k in r.tracked
    {
      if now >= t.nextFsCheck && listing.Some? {
        CheckedEffect(afterSync, listing.value, k);
      }
    }
  }

  /**
   * With the corrected sync, a registered sandbox whose directory is gone
   * when the check runs is removed from the registry and the tracked list,
   * and its published metrics are deleted.
   */
  lemma CorrectedTickRemovesVanished(s: ManagerState, t: Timers, now: nat, connected: bool,
                                     pods: Result<seq<PodSandbox>, string>, current: seq<string>, k: string)
    requires RegisteredTracked(s) && now >= t.nextFsCheck && k in s.registry && k !in current
    ensures var r := CorrectedTick(s, t, now, connected, pods, Some(current)).0;
      k !in r.registry && k !in r.tracked && Get(r.store, k) == None
  {
    var afterSync := if now >= t.nextCacheUpdate then CorrectedSyncedState(s, connected, pods) else s;
    CorrectedSyncKeys(s, connected, pods, k);
    CheckedEffect(afterSync, current, k);
  }

  /**
   * The scenario of `EnrichedSandboxLeaks` with the corrected sync: the
   * sandbox receives its pod's metadata, stays tracked, and the first check
   * after its directory vanishes removes it together with its metrics.
   */
  lemma EnrichedSandboxRemoved(s: ManagerState, pods: seq<PodSandbox>, k: string)
    requires NoDuplicates(s.tracked) && k in s.tracked && k in PodIds(pods)
    ensures var enriched := CorrectedSyncedState(s, true, Success(pods));
      var r := Checked(enriched, Some([]));
      k in enriched.registry && k in enriched.tracked &&
      (exists j :: 0 <= j < |pods| && pods[j].id == k && enriched.registry[k] == MetadataOf(pods[j])) &&
      k !in r.registry && k !in r.tracked && Get(r.store, k) == None
  {
    SyncUntracks(s, pods, k);
    CheckedEffect(CorrectedSyncedState(s, true, Success(pods)), [], k);
  }

  /** The manager: shares the registry and the metrics store with the rest of the monitor. */
  class SandboxCacheManager {
    const registry: SandboxCache
    const store: MetricsCache

    constructor (registry: SandboxCache, store: MetricsCache)
      ensures this.registry == registry && this.store == store
    {
      this.registry := registry;
      this.store := store;
    }

    /** The initial listing of `start`: every entry registered if absent, and the tracked list is the listing. */
    method InitialListing(entries: seq<string>) returns (tracked: seq<string>)
      modifies registry
      ensures tracked == entries
      ensures registry.sandboxes == PutAll(old(registry.sandboxes), entries)
    {
      tracked := [];
      for i := 0 to |entries|
        invariant tracked == entries[..i]
        invariant PutAll(registry.sandboxes, entries[i..]) == PutAll(old(registry.sandboxes), entries)
      {
        assert entries[i..][0] == entries[i] && entries[i..][1..] == entries[i + 1..];
        tracked := tracked + [entries[i]];
        var _ := registry.PutIfNotExists(entries[i], EmptyMetadata);
      }
      assert entries[..|entries|] == entries;
      assert entries[|entries|..] == [];
    }

    /** `sync_cri_metadata`: the tracked list becomes what the sync returns; an error keeps it. */
    method SyncCriMetadata(tracked: seq<string>, connected: bool, pods: Result<seq<PodSandbox>, string>)
        returns (next: seq<string>)
      modifies registry
      ensures var r := SyncedState(ManagerState(old(registry.sandboxes), store.State(), tracked), connected, pods);
        registry.sandboxes == r.registry && next == r.tracked
    {
      var result := SyncSandboxes(registry, tracked, connected, pods);
      match result
      case Success(remaining) =>
        next := remaining;
      case Failure(_) =>
        next := tracked;
    }

    /** `check_filesystem_changes`; `None` stands for a directory that cannot be read. */
    method CheckFilesystemChanges(tracked: seq<string>, listing: Option<seq<string>>) returns (next: seq<string>)
      modifies registry, store
      ensures ManagerState(registry.sandboxes, store.State(), next) ==
        Checked(ManagerState(old(registry.sandboxes), old(store.State()), tracked), listing)
    {
      if listing.None? {
        return tracked;
      }
      var current := listing.value;
      var grown := AddNewEntries(tracked, current);
      ghost var added := AddNew(old(registry.sandboxes), tracked, current);
      assert registry.sandboxes == added.0 && grown == added.1;
      assert store.State() == old(store.State());
      var toRemove := RemoveVanished(grown, current);
      ghost var v := FindVanished(added.0, old(store.State()), added.1, current);
      assert registry.sandboxes == v.registry && store.State() == v.store && toRemove == v.toRemove;
      next := grown;
      for i := 0 to |toRemove|
        invariant Exclude(next, Elements(toRemove[i..])) == Exclude(grown, Elements(toRemove))
        invariant registry.sandboxes == v.registry && store.State() == v.store
      {
        assert Elements(toRemove[i..]) == Elements(toRemove[i + 1..]) + {toRemove[i]};
        WithoutThenExclude(next, toRemove[i], Elements(toRemove[i + 1..]));
        next := Without(next, toRemove[i]);
      }
      assert toRemove[|toRemove|..] == [];
      assert Elements(toRemove[|toRemove|..]) == {};
      ExcludeNothing(next);
    }

    /** The new-entry pass of `check_filesystem_changes`. */
    method AddNewEntries(tracked: seq<string>, current: seq<string>) returns (next: seq<string>)
      modifies registry
      ensures (registry.sandboxes, next) == AddNew(old(registry.sandboxes), tracked, current)
    {
      next := tracked;
      for i := 0 to |current|
        invariant AddNew(registry.sandboxes, next, current[i..]) == AddNew(old(registry.sandboxes), tracked, current)
      {
        var id := current[i];
        assert current[i..][0] == id && current[i..][1..] == current[i + 1..];
        if id !in next {
          var ids := registry.GetSandboxList();
          if id !in ids {
            var inserted := registry.PutIfNotExists(id, EmptyMetadata);
            if inserted {
              next := next + [id];
            }
          }
        }
      }
      assert current[|current|..] == [];
    }

    /** The vanished-entry pass of `check_filesystem_changes`: returns the ids to drop. */
    method RemoveVanished(tracked: seq<string>, current: seq<string>) returns (toRemove: seq<string>)
      modifies registry, store
      ensures Removal(registry.sandboxes, store.State(), toRemove) ==
        FindVanished(old(registry.sandboxes), old(store.State()), tracked, current)
    {
      toRemove := [];
      ghost var vanished := FindVanished(registry.sandboxes, store.State(), tracked, current);
      for i := 0 to |tracked|
        invariant FindVanished(registry.sandboxes, store.State(), tracked[i..], current).registry == vanished.registry
        invariant FindVanished(registry.sandboxes, store.State(), tracked[i..], current).store == vanished.store
        invariant toRemove + FindVanished(registry.sandboxes, store.State(), tracked[i..], current).toRemove == vanished.toRemove
      {
        var id := tracked[i];
        assert tracked[i..][0] == id && tracked[i..][1..] == tracked[i + 1..];
        if id !in current {
          ghost var rest := FindVanished(RemoveIfPresent(registry.sandboxes, id).0, Deleted(store.State(), id).0, tracked[i + 1..], current);
          var deleted := registry.DeleteIfExists(id);
          if deleted {
            var _ := store.DeleteMetrics(id);
            assert toRemove + [id] + rest.toRemove == toRemove + ([id] + rest.toRemove);
            toRemove := toRemove + [id];
          }
        }
      }
      assert tracked[|tracked|..] == [];
    }

    /** One iteration of `monitor_directory` at time `now`. */
    method MonitorIteration(tracked: seq<string>, timers: Timers, now: nat, connected: bool,
                            pods: Result<seq<PodSandbox>, string>, listing: Option<seq<string>>)
        returns (next: seq<string>, nextTimers: Timers)
      modifies registry, store
      ensures (ManagerState(registry.sandboxes, store.State(), next), nextTimers) ==
        Tick(ManagerState(old(registry.sandboxes), old(store.State()), tracked), timers, now, connected, pods, listing)
    {
      next := tracked;
      nextTimers := timers;
      if now >= timers.nextCacheUpdate {
        nextTimers := nextTimers.(nextCacheUpdate := now + PodCacheRefreshDelaySeconds * 1000);
        next := SyncCriMetadata(next, connected, pods);
      }
      if now >= timers.nextFsCheck {
        nextTimers := nextTimers.(nextFsCheck := now + FsCheckIntervalSeconds * 1000);
        next := CheckFilesystemChanges(next, listing);
      }
    }
  }
}

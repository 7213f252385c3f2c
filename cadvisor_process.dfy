/**
 * The process part of the cAdvisor-style output: the process, thread and
 * file-descriptor gauges, then one task-state sample per state. The state
 * map is a hash map; the order its entries come out in is a ghost
 * enumeration of its keys.
 */
module CadvisorProcess {
  import opened Wrappers
  import opened Seqs
  import opened CadvisorLabels
  import opened CadvisorFormat

  /** Process counts; `tasksByState` maps a state name to the number of tasks in it. */
  datatype ProcessMetrics = ProcessMetrics(
    count: nat,
    threadCount: nat,
    threadCountMax: Option<nat>,
    fileDescriptors: nat,
    tasksByState: map<string, nat>,
    labels: StandardLabels)

  /** The process and thread counts and the descriptor count when positive, the thread limit when known. */
  function ProcessHead(p: ProcessMetrics): seq<Entry>
  {
    OptBlock(Processes, Positive(p.count))
    + OptBlock(Threads, Positive(p.threadCount))
    + OptBlock(ThreadsMax, p.threadCountMax)
    + OptBlock(FileDescriptors, Positive(p.fileDescriptors))
  }

  /** The sample of one state, labelled `state` with the state's name. */
  function TaskSample(tasks: map<string, nat>, state: string): seq<Entry>
    requires state in tasks
  {
    [Sample(TasksState, [("state", state)], Int(tasks[state]))]
  }

  /** One sample per state, in the order of `keys`. */
  function TaskSamples(tasks: map<string, nat>, keys: seq<string>): (r: seq<Entry>)
    requires forall k :: k in keys ==> k in tasks
    ensures AllSamplesOf(r, TasksState)
    decreases |keys|
  {
    if |keys| == 0 then []
    else
      var n := |keys| - 1;
      TaskSamples(tasks, keys[..n]) + TaskSample(tasks, keys[n])
  }

  /** The task-state header and samples, when there is any state. */
  function TaskEntries(p: ProcessMetrics, keys: seq<string>): seq<Entry>
    requires forall k :: k in keys ==> k in p.tasksByState
  {
    if p.tasksByState != map[] then [Header(TasksState, false)] + TaskSamples(p.tasksByState, keys) else []
  }

  function ProcessEntries(p: ProcessMetrics, keys: seq<string>): seq<Entry>
    requires forall k :: k in keys ==> k in p.tasksByState
  {
    ProcessHead(p) + TaskEntries(p, keys)
  }

  /** The loop over the states. */
  method TaskSampleEntries(tasks: map<string, nat>, keys: seq<string>) returns (entries: seq<Entry>)
    requires forall k :: k in keys ==> k in tasks
    ensures entries == TaskSamples(tasks, keys)
  {
    entries := [];
    for i := 0 to |keys|
      invariant entries == TaskSamples(tasks, keys[..i])
    {
      assert keys[..i + 1][..i] == keys[..i];
      var state := keys[i];
      entries := entries + [Sample(TasksState, [("state", state)], Int(tasks[state]))];
    }
    assert keys[..|keys|] == keys;
  }

  method ProcessHeadEntries(p: ProcessMetrics) returns (entries: seq<Entry>)
    ensures entries == ProcessHead(p)
  {
    entries := [];
    if p.count > 0 {
      entries := entries + [Block(Processes, [], Int(p.count))];
    }
    if p.threadCount > 0 {
      entries := entries + [Block(Threads, [], Int(p.threadCount))];
    }
    assert entries == OptBlock(Processes, Positive(p.count)) + OptBlock(Threads, Positive(p.threadCount));
    if p.threadCountMax.Some? {
      entries := entries + [Block(ThreadsMax, [], Int(p.threadCountMax.value))];
    }
    if p.fileDescriptors > 0 {
      entries := entries + [Block(FileDescriptors, [], Int(p.fileDescriptors))];
    }
  }

  method FormatProcess(p: ProcessMetrics, show: real -> string) returns (output: string, ghost order: seq<string>)
    ensures IsEnumeration(order, p.tasksByState.Keys) && |order| == |p.tasksByState|
    ensures output == Render(p.labels, show, ProcessEntries(p, order))
  {
    var entries := ProcessHeadEntries(p);
    if p.tasksByState != map[] {
      var keys := Enumerate(p.tasksByState.Keys);
      order := keys;
      var samples := TaskSampleEntries(p.tasksByState, keys);
      entries := entries + ([Header(TasksState, false)] + samples);
    } else {
      order := [];
      assert entries + [] == entries;
    }
    assert entries == ProcessEntries(p, order);
    output := RenderEntries(p.labels, show, entries);
  }

  /** Each gauge of the head comes from its own optional block; the head holds no task-state type line. */
  lemma ProcessHeadContents(p: ProcessMetrics, f: Family)
    ensures SamplesOf(ProcessHead(p), f) ==
      if f == Processes then OptSamples(Positive(p.count))
      else if f == Threads then OptSamples(Positive(p.threadCount))
      else if f == ThreadsMax then OptSamples(p.threadCountMax)
      else if f == FileDescriptors then OptSamples(Positive(p.fileDescriptors))
      else []
    ensures f == TasksState ==> TypeLines(ProcessHead(p), f) == 0
  {
    FourOptBlocks(Processes, Threads, ThreadsMax, FileDescriptors,
      Positive(p.count), Positive(p.threadCount), p.threadCountMax, Positive(p.fileDescriptors), f);
    if f == TasksState {
      FourOptBlocksTypes(Processes, Threads, ThreadsMax, FileDescriptors,
        Positive(p.count), Positive(p.threadCount), p.threadCountMax, Positive(p.fileDescriptors), f);
    }
  }

  lemma TaskEntriesContents(p: ProcessMetrics, keys: seq<string>, f: Family)
    requires forall k :: k in keys ==> k in p.tasksByState
    ensures SamplesOf(TaskEntries(p, keys), f) ==
      if f == TasksState && p.tasksByState != map[] then SamplesOf(TaskSamples(p.tasksByState, keys), f) else []
    ensures TypeLines(TaskEntries(p, keys), f) == if f == TasksState && p.tasksByState != map[] then 1 else 0
  {
    if p.tasksByState != map[] {
      SectionContents(TasksState, false, TaskSamples(p.tasksByState, keys), f);
    }
  }

  lemma ProcessParts(p: ProcessMetrics, keys: seq<string>, f: Family)
    requires forall k :: k in keys ==> k in p.tasksByState
    ensures SamplesOf(ProcessEntries(p, keys), f) == SamplesOf(ProcessHead(p), f) + SamplesOf(TaskEntries(p, keys), f)
    ensures TypeLines(ProcessEntries(p, keys), f) == TypeLines(ProcessHead(p), f) + TypeLines(TaskEntries(p, keys), f)
  {
    SamplesOfAppend(ProcessHead(p), TaskEntries(p, keys), f);
    TypeLinesAppend(ProcessHead(p), TaskEntries(p, keys), f);
  }

  /** The gauges outside the task states come from the head alone. */
  lemma ProcessFamily(p: ProcessMetrics, keys: seq<string>, f: Family)
    requires forall k :: k in keys ==> k in p.tasksByState
    requires f != TasksState
    ensures SamplesOf(ProcessEntries(p, keys), f) == SamplesOf(ProcessHead(p), f)
  {
    ProcessParts(p, keys, f);
    TaskEntriesContents(p, keys, f);
    assert SamplesOf(ProcessHead(p), f) + [] == SamplesOf(ProcessHead(p), f);
  }

  /**
   * The process, thread and descriptor counts are each written exactly
   * when positive, the thread limit exactly when known, all without extra
   * labels.
   */
  lemma ProcessEmission(p: ProcessMetrics, keys: seq<string>)
    requires forall k :: k in keys ==> k in p.tasksByState
    ensures SamplesOf(ProcessEntries(p, keys), Processes) == if p.count > 0 then [([], Int(p.count))] else []
    ensures SamplesOf(ProcessEntries(p, keys), Threads) == if p.threadCount > 0 then [([], Int(p.threadCount))] else []
    ensures SamplesOf(ProcessEntries(p, keys), ThreadsMax) ==
      if p.threadCountMax.Some? then [([], Int(p.threadCountMax.value))] else []
    ensures SamplesOf(ProcessEntries(p, keys), FileDescriptors) ==
      if p.fileDescriptors > 0 then [([], Int(p.fileDescriptors))] else []
  {
    ProcessFamily(p, keys, Processes);
    ProcessHeadContents(p, Processes);
    ProcessFamily(p, keys, Threads);
    ProcessHeadContents(p, Threads);
    ProcessFamily(p, keys, ThreadsMax);
    ProcessHeadContents(p, ThreadsMax);
    ProcessFamily(p, keys, FileDescriptors);
    ProcessHeadContents(p, FileDescriptors);
  }

  /** With no state there is no task sample. */
  lemma TaskSamplesEmpty(p: ProcessMetrics, keys: seq<string>)
    requires IsEnumeration(keys, p.tasksByState.Keys)
    ensures p.tasksByState == map[] ==> TaskSamples(p.tasksByState, keys) == []
  {
    assert keys != [] ==> keys[0] in p.tasksByState.Keys;
  }

  /** Over an enumeration of the states, the task-state samples are the samples of every state. */
  lemma TaskSamplesOnly(p: ProcessMetrics, keys: seq<string>)
    requires IsEnumeration(keys, p.tasksByState.Keys)
    ensures SamplesOf(ProcessEntries(p, keys), TasksState) == SamplesOf(TaskSamples(p.tasksByState, keys), TasksState)
    ensures TypeLines(ProcessEntries(p, keys), TasksState) == if p.tasksByState != map[] then 1 else 0
  {
    var states := SamplesOf(TaskSamples(p.tasksByState, keys), TasksState);
    ProcessParts(p, keys, TasksState);
    ProcessHeadContents(p, TasksState);
    TaskEntriesContents(p, keys, TasksState);
    TaskSamplesEmpty(p, keys);
    assert [] + states == states;
  }

  /** Each state contributes exactly one sample, labelled with the state and carrying its count. */
  lemma {:induction false} TaskSamplesFrom(tasks: map<string, nat>, keys: seq<string>, e: Extras, v: Value)
    requires forall k :: k in keys ==> k in tasks
    ensures |SamplesOf(TaskSamples(tasks, keys), TasksState)| == |keys|
    ensures (e, v) in SamplesOf(TaskSamples(tasks, keys), TasksState) <==>
      exists k :: k in keys && e == [("state", k)] && v == Int(tasks[k])
    decreases |keys|
  {
    if |keys| != 0 {
      var n := |keys| - 1;
      var key := keys[n];
      InInit(keys);
      TaskSamplesFrom(tasks, keys[..n], e, v);
      SamplesOfAppend(TaskSamples(tasks, keys[..n]), TaskSample(tasks, key), TasksState);
      Single(TaskSample(tasks, key)[0], TasksState);
    }
  }

  /**
   * Task states: one `# TYPE` line when there is any state, and exactly one
   * sample per state, labelled `state` with the state's name and carrying
   * its count.
   */
  lemma TaskEmission(p: ProcessMetrics, keys: seq<string>, e: Extras, v: Value)
    requires IsEnumeration(keys, p.tasksByState.Keys) && |keys| == |p.tasksByState|
    ensures TypeLines(ProcessEntries(p, keys), TasksState) == if p.tasksByState != map[] then 1 else 0
    ensures |SamplesOf(ProcessEntries(p, keys), TasksState)| == |p.tasksByState|
    ensures (e, v) in SamplesOf(ProcessEntries(p, keys), TasksState) <==>
      exists k :: k in p.tasksByState && e == [("state", k)] && v == Int(p.tasksByState[k])
  {
    TaskSamplesOnly(p, keys);
    TaskSamplesFrom(p.tasksByState, keys, e, v);
  }
}

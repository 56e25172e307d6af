/** The byte-budgeted store of retained task output (`OutputRegistry::record` of
    `src/output.rs`). */
module Retention {
  import opened Plan
  import opened Canonical
  import opened Capture

  const OUTPUT_RETENTION_BYTES: nat := 1_048_576
  const OUTPUT_MAX_GENERATIONS: nat := 128

  datatype TaskOutput = TaskOutput(task: Text, stdout: Captured, stderr: Captured) {
    function Retained(): nat { |stdout.bytes| + |stderr.bytes| }
  }

  datatype GenerationOutput = GenerationOutput(
    generation: Word,
    revision: Option<Word>,
    revisionHash: Option<Text>,
    tasks: seq<TaskOutput>,
    bytes: nat)

  // ---------------------------------------------------------- tasks of one entry

  function TaskSum(tasks: seq<TaskOutput>): nat {
    if tasks == [] then 0 else tasks[0].Retained() + TaskSum(tasks[1..])
  }

  ghost predicate DistinctTasks(tasks: seq<TaskOutput>) {
    forall i, j :: 0 <= i < j < |tasks| ==> tasks[i].task != tasks[j].task
  }

  function FindTask(tasks: seq<TaskOutput>, name: Text): (r: Option<TaskOutput>)
    ensures r.Some? ==> r.value in tasks && r.value.task == name
    ensures r.None? ==> forall i :: 0 <= i < |tasks| ==> tasks[i].task != name
  {
    if tasks == [] then None else if tasks[0].task == name then Some(tasks[0]) else FindTask(tasks[1..], name)
  }

  function Without(tasks: seq<TaskOutput>, name: Text): (r: seq<TaskOutput>)
    ensures forall t :: t in r <==> t in tasks && t.task != name
  {
    if tasks == [] then []
    else if tasks[0].task == name then Without(tasks[1..], name)
    else [tasks[0]] + Without(tasks[1..], name)
  }

  /** A task's capture replaces an earlier one of the same name. */
  function Upsert(tasks: seq<TaskOutput>, t: TaskOutput): seq<TaskOutput> { Without(tasks, t.task) + [t] }

  function OldBytes(tasks: seq<TaskOutput>, name: Text): nat {
    match FindTask(tasks, name)
    case Some(t) => t.Retained()
    case None => 0
  }

  lemma {:induction false} WithoutAbsent(tasks: seq<TaskOutput>, name: Text)
    requires forall i :: 0 <= i < |tasks| ==> tasks[i].task != name
    ensures Without(tasks, name) == tasks
  {
    if tasks != [] { WithoutAbsent(tasks[1..], name); }
  }

  lemma {:induction false} WithoutSum(tasks: seq<TaskOutput>, name: Text)
    requires DistinctTasks(tasks)
    ensures TaskSum(Without(tasks, name)) + OldBytes(tasks, name) == TaskSum(tasks)
    ensures DistinctTasks(Without(tasks, name))
  {
    if tasks != [] {
      if tasks[0].task == name {
        WithoutAbsent(tasks[1..], name);
      } else {
        WithoutSum(tasks[1..], name);
        forall t | t in Without(tasks[1..], name) ensures t.task != tasks[0].task {
          assert t in tasks[1..];
        }
      }
    }
  }

  lemma {:induction false} TaskSumSnoc(tasks: seq<TaskOutput>, t: TaskOutput)
    ensures TaskSum(tasks + [t]) == TaskSum(tasks) + t.Retained()
  {
    if tasks == [] {
      assert tasks + [t] == [t];
    } else {
      TaskSumSnoc(tasks[1..], t);
      assert (tasks + [t])[1..] == tasks[1..] + [t];
    }
  }

  lemma UpsertSum(tasks: seq<TaskOutput>, t: TaskOutput)
    requires DistinctTasks(tasks)
    ensures TaskSum(Upsert(tasks, t)) + OldBytes(tasks, t.task) == TaskSum(tasks) + t.Retained()
    ensures DistinctTasks(Upsert(tasks, t)) && OldBytes(tasks, t.task) <= TaskSum(tasks)
  {
    WithoutSum(tasks, t.task);
    TaskSumSnoc(Without(tasks, t.task), t);
    forall i | 0 <= i < |Without(tasks, t.task)| ensures Without(tasks, t.task)[i].task != t.task {
      assert Without(tasks, t.task)[i] in Without(tasks, t.task);
    }
  }

  lemma {:induction false} FindSnoc(tasks: seq<TaskOutput>, t: TaskOutput, name: Text)
    ensures FindTask(tasks + [t], name) ==
      if FindTask(tasks, name).Some? then FindTask(tasks, name) else if t.task == name then Some(t) else None
  {
    if tasks == [] {
      assert tasks + [t] == [t];
    } else {
      FindSnoc(tasks[1..], t, name);
      assert (tasks + [t])[1..] == tasks[1..] + [t];
    }
  }

  lemma {:induction false} FindWithout(tasks: seq<TaskOutput>, name: Text, other: Text)
    ensures FindTask(Without(tasks, name), other) == if other == name then None else FindTask(tasks, other)
  {
    if tasks != [] { FindWithout(tasks[1..], name, other); }
  }

  lemma UpsertFind(tasks: seq<TaskOutput>, t: TaskOutput, name: Text)
    ensures FindTask(Upsert(tasks, t), name) == if name == t.task then Some(t) else FindTask(tasks, name)
  {
    FindSnoc(Without(tasks, t.task), t, name);
    FindWithout(tasks, t.task, name);
  }

  // ----------------------------------------------------------------- generations

  function Total(gens: seq<GenerationOutput>): nat {
    if gens == [] then 0 else gens[0].bytes + Total(gens[1..])
  }

  ghost predicate Accounted(g: GenerationOutput) {
    g.bytes == TaskSum(g.tasks) && DistinctTasks(g.tasks)
  }

  ghost predicate AllAccounted(gens: seq<GenerationOutput>) {
    forall i :: 0 <= i < |gens| ==> Accounted(gens[i])
  }

  ghost predicate DistinctGenerations(gens: seq<GenerationOutput>) {
    forall i, j :: 0 <= i < j < |gens| ==> gens[i].generation != gens[j].generation
  }

  predicate Over(gens: seq<GenerationOutput>) {
    Total(gens) > OUTPUT_RETENTION_BYTES || |gens| > OUTPUT_MAX_GENERATIONS
  }

  function IndexOf(gens: seq<GenerationOutput>, generation: Word): (i: nat)
    ensures i <= |gens| && (i < |gens| ==> gens[i].generation == generation)
    ensures forall j :: 0 <= j < i ==> gens[j].generation != generation
  {
    if gens == [] || gens[0].generation == generation then 0 else 1 + IndexOf(gens[1..], generation)
  }

  lemma FirstIndex(gens: seq<GenerationOutput>, generation: Word, i: nat)
    requires i <= |gens| && (i < |gens| ==> gens[i].generation == generation)
    requires forall j :: 0 <= j < i ==> gens[j].generation != generation
    ensures IndexOf(gens, generation) == i
  {
    var k := IndexOf(gens, generation);
    if k < i { assert false; }
    if i < k { assert false; }
  }

  /** What is retained for a task of a generation. */
  function Lookup(gens: seq<GenerationOutput>, generation: Word, name: Text): Option<TaskOutput> {
    var i := IndexOf(gens, generation);
    if i < |gens| then FindTask(gens[i].tasks, name) else None
  }

  /** The store with one more capture, before eviction. A generation keeps the
      place and the revision of its first capture. */
  function Inserted(gens: seq<GenerationOutput>, generation: Word, t: TaskOutput,
                    revision: Option<Word>, revisionHash: Option<Text>): seq<GenerationOutput>
  {
    var i := IndexOf(gens, generation);
    if i < |gens| then
      var tasks := Upsert(gens[i].tasks, t);
      gens[i := gens[i].(tasks := tasks, bytes := TaskSum(tasks))]
    else
      gens + [GenerationOutput(generation, revision, revisionHash, [t], t.Retained())]
  }

  lemma {:induction false} TotalUpdate(gens: seq<GenerationOutput>, i: nat, g: GenerationOutput)
    requires i < |gens|
    ensures Total(gens[i := g]) + gens[i].bytes == Total(gens) + g.bytes && gens[i].bytes <= Total(gens)
  {
    if i == 0 {
      assert gens[0 := g][1..] == gens[1..];
    } else {
      TotalUpdate(gens[1..], i - 1, g);
      assert gens[i := g][1..] == gens[1..][i - 1 := g];
    }
  }

  lemma {:induction false} TotalSnoc(gens: seq<GenerationOutput>, g: GenerationOutput)
    ensures Total(gens + [g]) == Total(gens) + g.bytes
  {
    if gens == [] {
      assert gens + [g] == [g];
    } else {
      TotalSnoc(gens[1..], g);
      assert (gens + [g])[1..] == gens[1..] + [g];
    }
  }

  lemma OneTask(t: TaskOutput)
    ensures TaskSum([t]) == t.Retained()
  {
    assert [t][1..] == [];
  }

  /** An insertion keeps the books. */
  lemma InsertedAccounted(gens: seq<GenerationOutput>, generation: Word, t: TaskOutput,
                          revision: Option<Word>, revisionHash: Option<Text>)
    requires AllAccounted(gens) && DistinctGenerations(gens)
    ensures var ins := Inserted(gens, generation, t, revision, revisionHash);
      AllAccounted(ins) && DistinctGenerations(ins)
  {
    hide Upsert, TaskSum;
    var i := IndexOf(gens, generation);
    if i < |gens| { UpsertSum(gens[i].tasks, t); } else { OneTask(t); }
  }

  /** An insertion changes what is retained for its own task and nothing else. */
  lemma InsertedLookup(gens: seq<GenerationOutput>, generation: Word, t: TaskOutput,
                       revision: Option<Word>, revisionHash: Option<Text>, g: Word, name: Text)
    requires DistinctGenerations(gens)
    ensures Lookup(Inserted(gens, generation, t, revision, revisionHash), g, name) ==
      if g == generation && name == t.task then Some(t) else Lookup(gens, g, name)
  {
    hide Upsert, TaskSum;
    var ins := Inserted(gens, generation, t, revision, revisionHash);
    var i, j := IndexOf(gens, generation), IndexOf(gens, g);
    FirstIndex(ins, g, if j < |gens| then j else if g == generation then |gens| else |ins|);
    if i < |gens| { UpsertFind(gens[i].tasks, t, name); }
    assert FindTask([t], name) == if t.task == name then Some(t) else FindTask([t][1..], name);
  }

  /** Evicting from the front forgets whole generations and changes no other. */
  lemma EvictedLookup(gens: seq<GenerationOutput>, k: nat, g: Word, name: Text)
    requires DistinctGenerations(gens) && k <= |gens|
    ensures IndexOf(gens[k..], g) < |gens[k..]| ==> Lookup(gens[k..], g, name) == Lookup(gens, g, name)
  {
    var i := IndexOf(gens[k..], g);
    if i < |gens[k..]| {
      assert gens[k..][i] == gens[k + i];
      FirstIndex(gens, g, k + i);
    }
  }

  // -------------------------------------------------------------------- registry

  class OutputRegistry {
    var generations: seq<GenerationOutput>
    var totalBytes: nat

    ghost predicate Books()
      reads this
    {
      totalBytes == Total(generations) && AllAccounted(generations) && DistinctGenerations(generations)
    }

    ghost predicate Valid()
      reads this
    {
      Books() && !Over(generations)
    }

    constructor ()
      ensures Valid() && generations == []
    {
      generations, totalBytes := [], 0;
    }

    /** Adds one capture and then drops the shortest prefix of the oldest
        generations that brings the store within both bounds. */
    method Record(generation: Word, task: Text, stdout: Captured, stderr: Captured,
                  revision: Option<Word>, revisionHash: Option<Text>)
        returns (ghost evicted: nat)
      requires Valid()
      modifies this
      ensures Valid()
      ensures var ins := Inserted(old(generations), generation, TaskOutput(task, stdout, stderr), revision, revisionHash);
        && evicted <= |ins| && generations == ins[evicted..]
        && (forall j :: 0 <= j < evicted ==> Over(ins[j..]))
      ensures forall g, name :: IndexOf(generations, g) < |generations| ==>
        Lookup(generations, g, name) ==
          if g == generation && name == task then Some(TaskOutput(task, stdout, stderr))
          else Lookup(old(generations), g, name)
    {
      ghost var before := generations;
      var t := TaskOutput(task, stdout, stderr);
      ghost var ins := Inserted(generations, generation, t, revision, revisionHash);
      Insert(generation, t, revision, revisionHash);
      evicted := Evict();
      forall g, name | IndexOf(generations, g) < |generations|
        ensures Lookup(generations, g, name) == if g == generation && name == task then Some(t) else Lookup(before, g, name)
      {
        EvictedLookup(ins, evicted, g, name);
        InsertedLookup(before, generation, t, revision, revisionHash, g, name);
      }
    }

    method Insert(generation: Word, t: TaskOutput, revision: Option<Word>, revisionHash: Option<Text>)
      requires Books()
      modifies this
      ensures Books() && generations == Inserted(old(generations), generation, t, revision, revisionHash)
    {
      hide Without, DistinctTasks, Total;
      InsertedAccounted(generations, generation, t, revision, revisionHash);
      var bytes := t.Retained();
      var i := IndexOf(generations, generation);
      if i < |generations| {
        var entry := generations[i];
        var oldBytes := OldBytes(entry.tasks, t.task);
        UpsertSum(entry.tasks, t);
        var entry' := entry.(bytes := entry.bytes + bytes - oldBytes, tasks := Without(entry.tasks, t.task) + [t]);
        TotalUpdate(generations, i, entry');
        totalBytes := totalBytes + bytes - oldBytes;
        generations := generations[i := entry'];
      } else {
        var entry := GenerationOutput(generation, revision, revisionHash, [t], bytes);
        TotalSnoc(generations, entry);
        totalBytes := totalBytes + bytes;
        generations := generations + [entry];
      }
    }

    method Evict() returns (ghost evicted: nat)
      requires Books()
      modifies this
      ensures Valid()
      ensures evicted <= |old(generations)| && generations == old(generations)[evicted..]
      ensures forall j :: 0 <= j < evicted ==> Over(old(generations)[j..])
    {
      hide Total, AllAccounted, DistinctGenerations;
      evicted := 0;
      while (totalBytes > OUTPUT_RETENTION_BYTES || |generations| > OUTPUT_MAX_GENERATIONS) && generations != []
        invariant Books()
        invariant evicted <= |old(generations)| && generations == old(generations)[evicted..]
        invariant forall j :: 0 <= j < evicted ==> Over(old(generations)[j..])
        decreases |generations|
      {
        BooksTail(generations);
        var oldest := generations[0];
        generations := generations[1..];
        totalBytes := if totalBytes > oldest.bytes then totalBytes - oldest.bytes else 0;
        evicted := evicted + 1;
      }
      NothingOver();
    }
  }

  lemma BooksTail(gens: seq<GenerationOutput>)
    requires gens != [] && AllAccounted(gens) && DistinctGenerations(gens)
    ensures Total(gens) == gens[0].bytes + Total(gens[1..])
    ensures AllAccounted(gens[1..]) && DistinctGenerations(gens[1..])
  {
  }

  lemma NothingOver()
    ensures !Over([])
  {
  }
}

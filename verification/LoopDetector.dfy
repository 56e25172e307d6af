/** The feedback-loop heuristic (`LoopDetector` of `src/diagnostics.rs`), compared
    with the chains in the whole trigger log. */
module LoopDetector {
  import opened Plan
  import opened Canonical

  const MAX_KEYS: nat := 512

  datatype Key = Key(task: Text, path: Text, rule: Text)

  datatype Policy = Policy(window: nat, minRepeats: nat)

  datatype LoopEntry = LoopEntry(count: nat, lastSeen: nat, warned: bool)

  datatype Trigger = Trigger(now: nat, key: Key, generation: Option<nat>)

  datatype Seen = Seen(at: nat, run: nat)

  /** `Instant::duration_since`, which never goes below zero. */
  function Since(now: nat, earlier: nat): nat { if now >= earlier then now - earlier else 0 }

  // ---------------------------------------------------------------- chains in the log

  datatype Chain = Chain(length: nat, last: nat)

  /** The current chain of a key: triggers of the key no further apart than the window. */
  ghost function ChainOf(log: seq<Trigger>, key: Key, window: nat): Option<Chain> {
    if log == [] then None
    else
      var front, t := log[..|log| - 1], log[|log| - 1];
      var before := ChainOf(front, key, window);
      if t.key != key then before
      else if before.Some? && t.now <= before.value.last + window then Some(Chain(before.value.length + 1, t.now))
      else Some(Chain(1, t.now))
  }

  /** The last trigger of a task that scheduled a run. */
  ghost function LastRun(log: seq<Trigger>, task: Text): Option<Seen> {
    if log == [] then None
    else
      var t := log[|log| - 1];
      if t.key.task == task && t.generation.Some? then Some(Seen(t.now, t.generation.value))
      else LastRun(log[..|log| - 1], task)
  }

  function Clock(log: seq<Trigger>): nat { if log == [] then 0 else log[|log| - 1].now }

  // --------------------------------------------------------------------- invariants

  /** An entry never counts more triggers than its chain has, and has warned exactly
      when its own count has reached the threshold. */
  ghost predicate Sound(entries: map<Key, LoopEntry>, log: seq<Trigger>, policy: Policy) {
    forall k :: k in entries ==>
      var c := ChainOf(log, k, policy.window);
      && c.Some? && entries[k].lastSeen == c.value.last && 1 <= entries[k].count <= c.value.length
      && (entries[k].warned <==> entries[k].count >= policy.minRepeats)
  }

  /** Every chain that was alive at `clock` has an entry, which counts it fully. */
  ghost predicate Complete(entries: map<Key, LoopEntry>, log: seq<Trigger>, policy: Policy, clock: nat) {
    forall k :: ChainOf(log, k, policy.window).Some? ==>
      var c := ChainOf(log, k, policy.window).value;
      && (clock <= c.last + policy.window ==> k in entries)
      && (k in entries ==> entries[k].count == c.length)
  }

  ghost predicate Recalls(recent: map<Text, Seen>, log: seq<Trigger>, policy: Policy, clock: nat, complete: bool) {
    && (forall t :: t in recent ==> LastRun(log, t) == Some(recent[t]))
    && (complete ==> forall t :: LastRun(log, t).Some? && clock <= LastRun(log, t).value.at + policy.window ==> t in recent)
  }

  ghost predicate Alive(entries: map<Key, LoopEntry>, policy: Policy, now: nat) {
    forall k :: k in entries ==> now <= entries[k].lastSeen + policy.window
  }

  /** Keys whose chain is alive at `now`. */
  ghost predicate AtMostLive(log: seq<Trigger>, policy: Policy, now: nat, keys: set<Key>) {
    forall k :: ChainOf(log, k, policy.window).Some?
        && now <= ChainOf(log, k, policy.window).value.last + policy.window
      ==> k in keys
  }

  lemma ChainSnoc(log: seq<Trigger>, t: Trigger, k: Key, window: nat)
    ensures ChainOf(log + [t], k, window) ==
      var before := ChainOf(log, k, window);
      if t.key != k then before
      else if before.Some? && t.now <= before.value.last + window then Some(Chain(before.value.length + 1, t.now))
      else Some(Chain(1, t.now))
    ensures LastRun(log + [t], k.task) ==
      if t.key.task == k.task && t.generation.Some? then Some(Seen(t.now, t.generation.value)) else LastRun(log, k.task)
  {
    assert (log + [t])[..|log|] == log;
  }

  lemma RunSnoc(log: seq<Trigger>, t: Trigger, task: Text)
    ensures LastRun(log + [t], task) ==
      if t.key.task == task && t.generation.Some? then Some(Seen(t.now, t.generation.value)) else LastRun(log, task)
  {
    assert (log + [t])[..|log|] == log;
  }

  /** Counting a trigger: fresh after a pause, one more within the window. */
  lemma CountStep(entries: map<Key, LoopEntry>, log: seq<Trigger>, policy: Policy, t: Trigger, complete: bool)
    requires Sound(entries, log, policy) && Alive(entries, policy, t.now)
    requires complete ==> Complete(entries, log, policy, t.now)
    ensures var count := (if t.key in entries then entries[t.key].count else 0) + 1;
      var warned := (t.key in entries && entries[t.key].warned) || count >= policy.minRepeats;
      var entries' := entries[t.key := LoopEntry(count, t.now, warned)];
      && Sound(entries', log + [t], policy)
      && (complete ==>
            && Complete(entries', log + [t], policy, t.now)
            && count == ChainOf(log + [t], t.key, policy.window).value.length)
  {
    hide ChainOf;
    forall k ensures ChainOf(log + [t], k, policy.window) ==
      var before := ChainOf(log, k, policy.window);
      if t.key != k then before
      else if before.Some? && t.now <= before.value.last + policy.window then Some(Chain(before.value.length + 1, t.now))
      else Some(Chain(1, t.now))
    {
      ChainSnoc(log, t, k, policy.window);
    }
  }

  /** The entries last seen within the window. */
  function Fresh(entries: map<Key, LoopEntry>, now: nat, window: nat): (r: map<Key, LoopEntry>)
    ensures forall k :: k in r <==> k in entries && now <= entries[k].lastSeen + window
    ensures forall k :: k in r ==> r[k] == entries[k]
    ensures |r| <= |entries|
  {
    var r := map k | k in entries && Since(now, entries[k].lastSeen) <= window :: entries[k];
    SubsetSize(r.Keys, entries.Keys);
    assert |r| == |r.Keys| && |entries| == |entries.Keys|;
    r
  }

  function FreshRuns(recent: map<Text, Seen>, now: nat, window: nat): (r: map<Text, Seen>)
    ensures forall t :: t in r <==> t in recent && now <= recent[t].at + window
    ensures forall t :: t in r ==> r[t] == recent[t]
    ensures |r| <= |recent|
  {
    var r := map t | t in recent && Since(now, recent[t].at) <= window :: recent[t];
    SubsetSize(r.Keys, recent.Keys);
    assert |r| == |r.Keys| && |recent| == |recent.Keys|;
    r
  }

  lemma PruneStep(entries: map<Key, LoopEntry>, log: seq<Trigger>, policy: Policy, clock: nat, now: nat,
                  kept: map<Key, LoopEntry>)
    requires Sound(entries, log, policy) && clock <= now
    requires forall k :: k in kept <==> k in entries && now <= entries[k].lastSeen + policy.window
    requires forall k :: k in kept ==> kept[k] == entries[k]
    ensures Sound(kept, log, policy) && Alive(kept, policy, now)
    ensures Complete(entries, log, policy, clock) ==> Complete(kept, log, policy, now)
  {
    hide ChainOf;
  }

  lemma RecallStep(recent: map<Text, Seen>, log: seq<Trigger>, policy: Policy, t: Trigger, complete: bool)
    requires Recalls(recent, log, policy, t.now, complete)
    ensures Recalls(if t.generation.Some? then recent[t.key.task := Seen(t.now, t.generation.value)] else recent,
                    log + [t], policy, t.now, complete)
  {
    hide LastRun;
    forall task ensures LastRun(log + [t], task) ==
      if t.key.task == task && t.generation.Some? then Some(Seen(t.now, t.generation.value)) else LastRun(log, task)
    {
      RunSnoc(log, t, task);
    }
  }

  lemma RecallPrune(recent: map<Text, Seen>, log: seq<Trigger>, policy: Policy, clock: nat, now: nat,
                    kept: map<Text, Seen>, complete: bool)
    requires Recalls(recent, log, policy, clock, complete) && clock <= now
    requires forall t :: t in kept <==> t in recent && now <= recent[t].at + policy.window
    requires forall t :: t in kept ==> kept[t] == recent[t]
    ensures Recalls(kept, log, policy, now, complete)
  {
    hide LastRun;
  }

  // ------------------------------------------------------------------------ bounds

  lemma {:induction false} OldestEntry(entries: map<Key, LoopEntry>, keys: set<Key>) returns (oldest: Key)
    requires keys != {} && keys <= entries.Keys
    ensures oldest in keys && forall k :: k in keys ==> entries[oldest].lastSeen <= entries[k].lastSeen
    decreases |keys|
  {
    var x :| x in keys;
    var rest := keys - {x};
    oldest := x;
    if rest != {} {
      var other := OldestEntry(entries, rest);
      if entries[other].lastSeen < entries[x].lastSeen { oldest := other; }
    }
    forall k | k in keys ensures entries[oldest].lastSeen <= entries[k].lastSeen { assert k == x || k in rest; }
  }

  lemma {:induction false} OldestRun(recent: map<Text, Seen>, tasks: set<Text>) returns (oldest: Text)
    requires tasks != {} && tasks <= recent.Keys
    ensures oldest in tasks && forall t :: t in tasks ==> recent[oldest].at <= recent[t].at
    decreases |tasks|
  {
    var x :| x in tasks;
    var rest := tasks - {x};
    oldest := x;
    if rest != {} {
      var other := OldestRun(recent, rest);
      if recent[other].at < recent[x].at { oldest := other; }
    }
    forall t | t in tasks ensures recent[oldest].at <= recent[t].at { assert t == x || t in rest; }
  }

  lemma SubsetSize<T>(a: set<T>, b: set<T>)
    requires a <= b
    ensures |a| <= |b|
  {
    assert b == a + (b - a);
  }

  lemma RemovalShrinks<K, V>(m: map<K, V>, k: K)
    requires k in m
    ensures |m - {k}| == |m| - 1
  {
    assert (m - {k}).Keys == m.Keys - {k};
    assert |m| == |m.Keys| && |m - {k}| == |(m - {k}).Keys|;
  }

  /** Evicts the least recently seen entries beyond the bound. */
  method CapEntries(entries: map<Key, LoopEntry>) returns (r: map<Key, LoopEntry>)
    ensures |r| <= MAX_KEYS && r.Keys <= entries.Keys && (forall k :: k in r ==> r[k] == entries[k])
    ensures |entries| <= MAX_KEYS ==> r == entries
    ensures |entries| > MAX_KEYS ==> |r| == MAX_KEYS
    ensures forall k, e :: k in r && e in entries && e !in r ==> entries[e].lastSeen <= entries[k].lastSeen
  {
    r := entries;
    while |r| > MAX_KEYS
      invariant r.Keys <= entries.Keys && (forall k :: k in r ==> r[k] == entries[k])
      invariant |entries| <= MAX_KEYS ==> r == entries
      invariant |entries| > MAX_KEYS ==> |r| >= MAX_KEYS
      invariant forall k, e :: k in r && e in entries && e !in r ==> entries[e].lastSeen <= entries[k].lastSeen
      decreases |r|
    {
      assert r.Keys != {} by { assert |r.Keys| == |r|; }
      ghost var least := OldestEntry(r, r.Keys);
      var oldest :| oldest in r && forall k :: k in r ==> r[oldest].lastSeen <= r[k].lastSeen;
      RemovalShrinks(r, oldest);
      r := r - {oldest};
    }
  }

  method CapRecent(recent: map<Text, Seen>) returns (r: map<Text, Seen>)
    ensures |r| <= MAX_KEYS && r.Keys <= recent.Keys && (forall t :: t in r ==> r[t] == recent[t])
    ensures |recent| <= MAX_KEYS ==> r == recent
    ensures forall t, e :: t in r && e in recent && e !in r ==> recent[e].at <= recent[t].at
  {
    r := recent;
    while |r| > MAX_KEYS
      invariant r.Keys <= recent.Keys && (forall t :: t in r ==> r[t] == recent[t])
      invariant |recent| <= MAX_KEYS ==> r == recent
      invariant forall t, e :: t in r && e in recent && e !in r ==> recent[e].at <= recent[t].at
      decreases |r|
    {
      assert r.Keys != {} by { assert |r.Keys| == |r|; }
      ghost var least := OldestRun(r, r.Keys);
      var oldest :| oldest in r && forall t :: t in r ==> r[oldest].at <= r[t].at;
      RemovalShrinks(r, oldest);
      r := r - {oldest};
    }
  }

  lemma CapStep(entries: map<Key, LoopEntry>, log: seq<Trigger>, policy: Policy, r: map<Key, LoopEntry>)
    requires Sound(entries, log, policy) && r.Keys <= entries.Keys && forall k :: k in r ==> r[k] == entries[k]
    ensures Sound(r, log, policy)
  {
    hide ChainOf;
  }

  lemma CapRecall(recent: map<Text, Seen>, log: seq<Trigger>, policy: Policy, clock: nat, complete: bool, r: map<Text, Seen>)
    requires Recalls(recent, log, policy, clock, complete) && r.Keys <= recent.Keys && forall t :: t in r ==> r[t] == recent[t]
    requires |recent| <= MAX_KEYS ==> r == recent
    ensures Recalls(r, log, policy, clock, complete && |recent| <= MAX_KEYS)
  {
    hide LastRun;
  }

  /** Entries are alive chains, so few enough of those means no eviction. */
  lemma LiveBound(entries: map<Key, LoopEntry>, log: seq<Trigger>, policy: Policy, now: nat, keys: set<Key>)
    requires Sound(entries, log, policy) && Alive(entries, policy, now) && AtMostLive(log, policy, now, keys)
    ensures |entries| <= |keys|
  {
    hide ChainOf;
    assert entries.Keys <= keys;
    SubsetSize(entries.Keys, keys);
    assert |entries| == |entries.Keys|;
  }

  lemma LiveFits(entries: map<Key, LoopEntry>, log: seq<Trigger>, policy: Policy, now: nat)
    requires Sound(entries, log, policy) && Alive(entries, policy, now)
    ensures forall keys :: |keys| <= MAX_KEYS && AtMostLive(log, policy, now, keys) ==> |entries| <= MAX_KEYS
  {
    hide Sound, Alive, AtMostLive;
    forall keys | |keys| <= MAX_KEYS && AtMostLive(log, policy, now, keys) ensures |entries| <= MAX_KEYS {
      LiveBound(entries, log, policy, now, keys);
    }
  }

  // ------------------------------------------------------------------------- class

  datatype Warning = Warning(key: Key, repeats: nat, generation: Option<nat>)

  datatype Observation = Observation(repeats: nat, observedAfterRun: Option<nat>, warning: Option<Warning>)

  function Threshold(policy: Policy): nat { if policy.minRepeats == 0 then 1 else policy.minRepeats }

  /** `log` is every trigger observed; `complete` and `completeRuns` hold until the
      size bound first evicts an entry. */
  class Detector {
    const policy: Policy
    var entries: map<Key, LoopEntry>
    var recent: map<Text, Seen>
    ghost var log: seq<Trigger>
    ghost var complete: bool
    ghost var completeRuns: bool

    ghost predicate Valid()
      reads this
    {
      && |entries| <= MAX_KEYS && |recent| <= MAX_KEYS
      && Sound(entries, log, policy)
      && (complete ==> Complete(entries, log, policy, Clock(log)))
      && Recalls(recent, log, policy, Clock(log), completeRuns)
    }

    constructor (policy: Policy)
      ensures Valid() && log == [] && complete && completeRuns && this.policy == policy
    {
      this.policy := policy;
      entries, recent := map[], map[];
      log, complete, completeRuns := [], true, true;
    }

    /** Drops what the window has passed. */
    method Prune(now: nat)
      requires Valid() && Clock(log) <= now
      modifies this`entries, this`recent
      ensures |entries| <= MAX_KEYS && |recent| <= MAX_KEYS
      ensures entries == Fresh(old(entries), now, policy.window)
      ensures recent == FreshRuns(old(recent), now, policy.window)
      ensures Sound(entries, log, policy) && Alive(entries, policy, now)
      ensures complete ==> Complete(entries, log, policy, now)
      ensures Recalls(recent, log, policy, now, completeRuns)
    {
      hide Sound, Complete, Recalls, Fresh, FreshRuns;
      var kept, runs := Fresh(entries, now, policy.window), FreshRuns(recent, now, policy.window);
      PruneStep(entries, log, policy, Clock(log), now, kept);
      RecallPrune(recent, log, policy, Clock(log), now, runs, completeRuns);
      entries := CapEntries(kept);
      recent := CapRecent(runs);
    }

    /** One trigger. While no entry has been evicted for space the repeat count is
        the length of the trigger's chain and the warning comes exactly when the
        chain reaches the threshold; after an eviction the count can only be low. */
    method Observe(now: nat, key: Key, generation: Option<nat>) returns (o: Observation)
      requires Valid() && Clock(log) <= now
      modifies this
      ensures Valid() && log == old(log) + [Trigger(now, key, generation)]
      ensures ChainOf(log, key, policy.window).Some? && 1 <= o.repeats <= ChainOf(log, key, policy.window).value.length
      ensures old(complete) ==> o.repeats == ChainOf(log, key, policy.window).value.length
      ensures o.warning.Some? <==> o.repeats == Threshold(policy)
      ensures o.warning.Some? ==>
        o.warning.value == Warning(key, o.repeats, if generation.Some? then generation else o.observedAfterRun)
      ensures forall run :: o.observedAfterRun == Some(run) ==>
        LastRun(old(log), key.task).Some? && LastRun(old(log), key.task).value.run == run
      ensures old(completeRuns) ==>
        (o.observedAfterRun.Some? <==>
          LastRun(old(log), key.task).Some? && now <= LastRun(old(log), key.task).value.at + policy.window)
      ensures forall keys :: |keys| <= MAX_KEYS && AtMostLive(log, policy, now, keys) && old(complete) ==> complete
    {
      hide Sound, Complete, Recalls, AtMostLive, ChainOf, LastRun, Alive;
      Prune(now);
      var observed := if key.task in recent then Some(recent[key.task].run) else None;
      Recalled(key.task, now, observed);
      var count, warn := CountTrigger(now, key, generation);
      Cap();
      o := Observation(count, observed,
                       if warn then Some(Warning(key, count, if generation.Some? then generation else observed)) else None);
    }

    /** Extends the chain of a key. Pruning has left no expired entry, so the reset
        of one is never reached. */
    method CountTrigger(now: nat, key: Key, generation: Option<nat>) returns (count: nat, warn: bool)
      requires Sound(entries, log, policy) && Alive(entries, policy, now) && Recalls(recent, log, policy, now, completeRuns)
      requires complete ==> Complete(entries, log, policy, now)
      modifies this`entries, this`recent, this`log
      ensures log == old(log) + [Trigger(now, key, generation)]
      ensures Sound(entries, log, policy) && Alive(entries, policy, now) && Recalls(recent, log, policy, now, completeRuns)
      ensures complete ==> Complete(entries, log, policy, now)
      ensures ChainOf(log, key, policy.window).Some? && 1 <= count <= ChainOf(log, key, policy.window).value.length
      ensures complete ==> count == ChainOf(log, key, policy.window).value.length
      ensures warn <==> count == Threshold(policy)
    {
      hide Sound, Complete, Recalls, ChainOf, LastRun;
      ghost var t := Trigger(now, key, generation);
      var entry := if key in entries then entries[key] else LoopEntry(0, now, false);
      if Since(now, entry.lastSeen) > policy.window { assert false; }
      CountStep(entries, log, policy, t, complete);
      RecallStep(recent, log, policy, t, completeRuns);
      Counted(key);
      count := entry.count + 1;
      warn := count >= policy.minRepeats && !entry.warned;
      if generation.Some? { recent := recent[key.task := Seen(now, generation.value)]; }
      entries := entries[key := LoopEntry(count, now, entry.warned || warn)];
      log := log + [t];
      CountBound(key);
    }

    lemma Counted(key: Key)
      requires Sound(entries, log, policy)
      ensures key in entries ==> (entries[key].warned <==> entries[key].count >= policy.minRepeats) && entries[key].count >= 1
    {
    }

    lemma CountBound(key: Key)
      requires Sound(entries, log, policy) && key in entries
      ensures ChainOf(log, key, policy.window).Some? && entries[key].count <= ChainOf(log, key, policy.window).value.length
    {
    }

    lemma Recalled(task: Text, now: nat, observed: Option<nat>)
      requires Recalls(recent, log, policy, now, completeRuns)
      requires forall t :: t in recent ==> now <= recent[t].at + policy.window
      requires observed == if task in recent then Some(recent[task].run) else None
      ensures observed.Some? ==> LastRun(log, task).Some? && LastRun(log, task).value.run == observed.value
      ensures completeRuns ==>
        (observed.Some? <==> LastRun(log, task).Some? && now <= LastRun(log, task).value.at + policy.window)
    {
    }

    method Cap()
      requires Sound(entries, log, policy) && Alive(entries, policy, Clock(log))
      requires complete ==> Complete(entries, log, policy, Clock(log))
      requires Recalls(recent, log, policy, Clock(log), completeRuns)
      modifies this`entries, this`recent, this`complete, this`completeRuns
      ensures Valid()
      ensures forall keys :: |keys| <= MAX_KEYS && AtMostLive(log, policy, Clock(log), keys) && old(complete) ==> complete
    {
      hide Sound, Complete, Recalls, AtMostLive, Alive;
      var r := CapEntries(entries);
      var runs := CapRecent(recent);
      CapStep(entries, log, policy, r);
      CapRecall(recent, log, policy, Clock(log), completeRuns, runs);
      LiveFits(entries, log, policy, Clock(log));
      complete := complete && |entries| <= MAX_KEYS;
      completeRuns := completeRuns && |recent| <= MAX_KEYS;
      entries := r;
      recent := runs;
    }
  }
}

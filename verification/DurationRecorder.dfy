/** The recorder that turns run events into duration history
    (`src/duration_recorder.rs`), compared with the whole event log. */
module DurationRecorder {
  import opened Plan
  import opened Canonical
  import opened Capture
  import opened Estimates
  import opened DurationHistory

  const MAX_ASSOCIATIONS: nat := 64
  const MAX_CAPTURED_ESTIMATES: nat := 256

  /** Executor events and the observer's timeout note. */
  datatype Event =
    | Started(run: nat, signature: Option<Text>)
    | Finished(run: nat, superseded: bool, elapsed: nat, failed: bool)
    | Stopped(run: nat, superseded: bool)
    | Timeout(run: nat)
    | Tick(run: nat)

  predicate IsEnd(e: Event) { e.Finished? || e.Stopped? || e.Timeout? }

  /** How an ending is classified; a supersession is neither success nor failure. */
  function RecordOf(e: Event, signature: Text): Record
    requires IsEnd(e)
  {
    match e
    case Finished(_, superseded, elapsed, failed) =>
      if superseded then Excluded(signature, Superseded)
      else if !failed then Success(signature, elapsed % TWO64)
      else Failure(signature, elapsed % TWO64)
    case Stopped(_, superseded) => Excluded(signature, if superseded then Superseded else Cancelled)
    case Timeout(_) => Excluded(signature, TimedOut)
  }

  // ---------------------------------------------------------- reading the event log

  /** The signature a run was started with. */
  ghost function SignedIn(events: seq<Event>, run: nat): Option<Text> {
    if events == [] then None
    else
      var last := events[|events| - 1];
      if last.Started? && last.run == run && last.signature.Some? then last.signature
      else SignedIn(events[..|events| - 1], run)
  }

  /** The first ending of a run after its signed start. */
  ghost function FirstEnd(events: seq<Event>, run: nat): (r: Option<Event>)
    ensures r.Some? ==> IsEnd(r.value) && r.value.run == run && SignedIn(events, run).Some?
  {
    if events == [] then None
    else
      var front, last := events[..|events| - 1], events[|events| - 1];
      if FirstEnd(front, run).Some? then FirstEnd(front, run)
      else if IsEnd(last) && last.run == run && SignedIn(front, run).Some? then Some(last)
      else None
  }

  lemma Snoc(events: seq<Event>, e: Event, run: nat)
    ensures SignedIn(events + [e], run) ==
      if e.Started? && e.run == run && e.signature.Some? then e.signature else SignedIn(events, run)
    ensures FirstEnd(events + [e], run) ==
      if FirstEnd(events, run).Some? then FirstEnd(events, run)
      else if IsEnd(e) && e.run == run && SignedIn(events, run).Some? then Some(e)
      else None
  {
    assert (events + [e])[..|events|] == events;
  }

  // -------------------------------------------------- what an event log amounts to

  /** `e`, coming after `front`, is the first ending of a signed run that was not dropped. */
  ghost predicate Concludes(front: seq<Event>, dropped: set<nat>, e: Event, signature: Text) {
    IsEnd(e) && e.run !in dropped && SignedIn(front, e.run) == Some(signature) && FirstEnd(front, e.run).None?
  }

  /** The elapsed times of the runs of a signature whose first ending was a completion
      that was not superseded, with or without failures. */
  ghost function Elapsed(events: seq<Event>, dropped: set<nat>, signature: Text, failed: bool): seq<Word> {
    if events == [] then []
    else
      var front, e := events[..|events| - 1], events[|events| - 1];
      Elapsed(front, dropped, signature, failed) + Sample(front, dropped, e, signature, failed)
  }

  ghost function Sample(front: seq<Event>, dropped: set<nat>, e: Event, signature: Text, failed: bool): seq<Word> {
    if Concludes(front, dropped, e, signature) && e.Finished? && !e.superseded && e.failed == failed
    then [e.elapsed % TWO64] else []
  }

  /** The first ending says nothing about the duration of the run, for this reason. */
  ghost predicate Unfit(e: Event, kind: ExcludedKind) {
    match kind
    case Superseded => (e.Finished? || e.Stopped?) && e.superseded
    case Cancelled => e.Stopped? && !e.superseded
    case TimedOut => e.Timeout?
  }

  ghost function Unused(events: seq<Event>, dropped: set<nat>, signature: Text, kind: ExcludedKind): nat {
    if events == [] then 0
    else
      var front, e := events[..|events| - 1], events[|events| - 1];
      Unused(front, dropped, signature, kind) + One(Concludes(front, dropped, e, signature) && Unfit(e, kind))
  }

  /** The history tells for each signature what the event log says, after what it was
      restored from. */
  ghost predicate Tallied(events: seq<Event>, dropped: set<nat>, base: seq<Record>, log: seq<Record>) {
    && (forall s :: Successes(log, s) == Successes(base, s) + Elapsed(events, dropped, s, false))
    && (forall s :: Failures(log, s) == Failures(base, s) + Elapsed(events, dropped, s, true))
    && (forall s, k :: Count(log, Excluded(s, k)) == Count(base, Excluded(s, k)) + Unused(events, dropped, s, k))
  }

  lemma TallyNone(log: seq<Record>)
    ensures Tallied([], {}, log, log)
  {
    assert forall s :: Successes(log, s) + [] == Successes(log, s) && Failures(log, s) + [] == Failures(log, s);
  }

  lemma TallySnoc(events: seq<Event>, dropped: set<nat>, e: Event, s: Text)
    ensures forall failed ::
      Elapsed(events + [e], dropped, s, failed) == Elapsed(events, dropped, s, failed) + Sample(events, dropped, e, s, failed)
    ensures forall k ::
      Unused(events + [e], dropped, s, k) == Unused(events, dropped, s, k) + One(Concludes(events, dropped, e, s) && Unfit(e, k))
  {
    assert (events + [e])[..|events|] == events;
  }

  /** An event that concludes nothing changes no tally. */
  lemma TallySame(events: seq<Event>, dropped: set<nat>, base: seq<Record>, log: seq<Record>, e: Event)
    requires Tallied(events, dropped, base, log) && forall s :: !Concludes(events, dropped, e, s)
    ensures Tallied(events + [e], dropped, base, log)
  {
    hide Elapsed, Unused, Successes, Failures, Count, Concludes;
    forall s, failed ensures Elapsed(events + [e], dropped, s, failed) == Elapsed(events, dropped, s, failed) {
      TallySnoc(events, dropped, e, s);
      assert Elapsed(events, dropped, s, failed) + [] == Elapsed(events, dropped, s, failed);
    }
    forall s, k ensures Unused(events + [e], dropped, s, k) == Unused(events, dropped, s, k) {
      TallySnoc(events, dropped, e, s);
    }
  }

  /** A record adds the samples and exclusions that its event stands for. */
  lemma RecordMatches(events: seq<Event>, dropped: set<nat>, log: seq<Record>, e: Event, signature: Text, s: Text)
    requires Concludes(events, dropped, e, signature)
    ensures var log' := log + [RecordOf(e, signature)];
      && Successes(log', s) == Successes(log, s) + Sample(events, dropped, e, s, false)
      && Failures(log', s) == Failures(log, s) + Sample(events, dropped, e, s, true)
      && forall k ::
           Count(log', Excluded(s, k)) == Count(log, Excluded(s, k)) + One(Concludes(events, dropped, e, s) && Unfit(e, k))
  {
    assert Concludes(events, dropped, e, s) <==> s == signature;
    hide Successes, Failures, Count, Concludes;
    SamplesSnoc(log, RecordOf(e, signature), s);
    CountsSnoc(log, RecordOf(e, signature), s);
  }

  lemma Regroup(a: seq<Word>, b: seq<Word>, c: seq<Word>)
    ensures a + b + c == a + (b + c)
  {
  }

  lemma TallyEndAt(events: seq<Event>, dropped: set<nat>, base: seq<Record>, log: seq<Record>, e: Event, signature: Text, s: Text)
    requires Tallied(events, dropped, base, log) && Concludes(events, dropped, e, signature)
    ensures var log', events' := log + [RecordOf(e, signature)], events + [e];
      && Successes(log', s) == Successes(base, s) + Elapsed(events', dropped, s, false)
      && Failures(log', s) == Failures(base, s) + Elapsed(events', dropped, s, true)
      && forall k :: Count(log', Excluded(s, k)) == Count(base, Excluded(s, k)) + Unused(events', dropped, s, k)
  {
    assert IsEnd(e);
    hide Elapsed, Unused, Successes, Failures, Count, Concludes, Sample, Unfit, RecordOf;
    TallySnoc(events, dropped, e, s);
    RecordMatches(events, dropped, log, e, signature, s);
    Regroup(Successes(base, s), Elapsed(events, dropped, s, false), Sample(events, dropped, e, s, false));
    Regroup(Failures(base, s), Elapsed(events, dropped, s, true), Sample(events, dropped, e, s, true));
  }

  lemma TallyEnd(events: seq<Event>, dropped: set<nat>, base: seq<Record>, log: seq<Record>, e: Event, signature: Text)
    requires Tallied(events, dropped, base, log) && Concludes(events, dropped, e, signature)
    ensures Tallied(events + [e], dropped, base, log + [RecordOf(e, signature)])
  {
    assert IsEnd(e);
    hide Elapsed, Unused, Successes, Failures, Count, Concludes, RecordOf;
    var log', events' := log + [RecordOf(e, signature)], events + [e];
    forall s ensures Successes(log', s) == Successes(base, s) + Elapsed(events', dropped, s, false)
        && Failures(log', s) == Failures(base, s) + Elapsed(events', dropped, s, true) {
      TallyEndAt(events, dropped, base, log, e, signature, s);
    }
    forall s, k ensures Count(log', Excluded(s, k)) == Count(base, Excluded(s, k)) + Unused(events', dropped, s, k) {
      TallyEndAt(events, dropped, base, log, e, signature, s);
    }
  }

  /** Dropping a run that has not ended changes no tally. */
  lemma {:induction false} TallyDrop(events: seq<Event>, dropped: set<nat>, gone: set<nat>, s: Text)
    requires forall r :: r in gone ==> FirstEnd(events, r).None?
    ensures forall failed :: Elapsed(events, dropped + gone, s, failed) == Elapsed(events, dropped, s, failed)
    ensures forall k :: Unused(events, dropped + gone, s, k) == Unused(events, dropped, s, k)
  {
    if events != [] {
      var front, e := events[..|events| - 1], events[|events| - 1];
      TallyDrop(front, dropped, gone, s);
      assert Concludes(front, dropped + gone, e, s) <==> Concludes(front, dropped, e, s);
    }
  }

  lemma TallyStart(events: seq<Event>, dropped: set<nat>, gone: set<nat>, base: seq<Record>, log: seq<Record>, e: Event)
    requires Tallied(events, dropped, base, log) && !IsEnd(e) && forall r :: r in gone ==> FirstEnd(events, r).None?
    ensures Tallied(events + [e], dropped + gone, base, log)
  {
    hide Elapsed, Unused, Successes, Failures, Count, FirstEnd;
    forall s, failed ensures Elapsed(events, dropped + gone, s, failed) == Elapsed(events, dropped, s, failed) {
      TallyDrop(events, dropped, gone, s);
    }
    forall s, k ensures Unused(events, dropped + gone, s, k) == Unused(events, dropped, s, k) {
      TallyDrop(events, dropped, gone, s);
    }
    TallySame(events, dropped + gone, base, log, e);
  }

  // ----------------------------------------------------------------- bounded maps

  lemma {:induction false} LeastKey(keys: set<nat>) returns (least: nat)
    requires keys != {}
    ensures least in keys && forall k :: k in keys ==> least <= k
  {
    var x :| x in keys;
    var rest := keys - {x};
    if rest == {} {
      least := x;
    } else {
      var y := LeastKey(rest);
      least := if x <= y then x else y;
    }
    forall k | k in keys ensures least <= k { assert k == x || k in rest; }
  }

  /** `pop_first`, when the map has reached its bound. */
  method MakeRoom<V>(m: map<nat, V>, bound: nat) returns (r: map<nat, V>, dropped: set<nat>)
    requires |m| <= bound && bound > 0
    ensures |r| < bound && |dropped| <= 1 && dropped !! r.Keys && m.Keys == r.Keys + dropped
    ensures forall k :: k in r ==> r[k] == m[k]
    ensures dropped != {} <==> |m| == bound
    ensures forall d, k :: d in dropped && k in r ==> d < k
  {
    r, dropped := m, {};
    if |m| >= bound {
      assert m.Keys != {} by { assert |m.Keys| == |m|; }
      ghost var least := LeastKey(m.Keys);
      var oldest :| oldest in m && forall k :: k in m ==> oldest <= k;
      r, dropped := map k | k in m && k != oldest :: m[k], {oldest};
      assert r.Keys == m.Keys - {oldest};
      assert |r| == |r.Keys| && |m| == |m.Keys|;
    }
  }

  // -------------------------------------------------------------------- invariants

  /** Every signed start is in flight, dropped or classified, and only one of these. */
  ghost predicate Partition(started: set<nat>, live: set<nat>, dropped: set<nat>, filed: set<nat>) {
    && (forall r :: r in started <==> r in live || r in dropped || r in filed)
    && (forall r :: r in live ==> r !in dropped && r !in filed)
    && (forall r :: r in dropped ==> r !in filed)
  }

  /** In-flight runs have not ended; a classified run is classified by its first ending. */
  ghost predicate Faithful(events: seq<Event>, started: set<nat>, live: map<nat, Text>, filed: map<nat, Record>) {
    && (forall r :: r in started <==> SignedIn(events, r).Some?)
    && (forall r :: r in live ==> SignedIn(events, r) == Some(live[r]) && FirstEnd(events, r) == None)
    && (forall r :: r in filed ==>
          FirstEnd(events, r).Some? && filed[r] == RecordOf(FirstEnd(events, r).value, SignedIn(events, r).value))
  }

  /** The history holds one record for each classified run, in order of classification. */
  ghost predicate Kept(log: seq<Record>, base: seq<Record>, order: seq<nat>, filed: map<nat, Record>) {
    && |log| == |base| + |order| && base <= log && |order| == |filed|
    && (forall i, j :: 0 <= i < j < |order| ==> order[i] != order[j])
    && (forall i :: 0 <= i < |order| ==> order[i] in filed && log[|base| + i] == filed[order[i]])
  }

  /** The captured estimates are those of the newest runs that had one, unchanged. */
  ghost predicate Frozen(captured: map<nat, RunEstimate>, frozen: map<nat, RunEstimate>, started: set<nat>) {
    && |captured| <= MAX_CAPTURED_ESTIMATES
    && captured.Keys <= frozen.Keys <= started
    && (forall r :: r in captured ==> captured[r] == frozen[r])
    && (forall r, q :: r in frozen && r !in captured && q in captured ==> r < q)
    && (captured.Keys != frozen.Keys ==> |captured| == MAX_CAPTURED_ESTIMATES)
  }

  lemma PartitionStart(started: set<nat>, live: set<nat>, dropped: set<nat>, filed: set<nat>,
                       kept: set<nat>, gone: set<nat>, run: nat)
    requires Partition(started, live, dropped, filed) && run !in started && gone !! kept && live == kept + gone
    ensures Partition(started + {run}, kept + {run}, dropped + gone, filed)
    ensures dropped + gone == dropped <==> gone == {}
  {
    if gone != {} {
      var g :| g in gone;
      assert g in live && g !in dropped;
    }
  }

  lemma PartitionEnd(started: set<nat>, live: set<nat>, dropped: set<nat>, filed: set<nat>, run: nat)
    requires Partition(started, live, dropped, filed) && run in live
    ensures Partition(started, live - {run}, dropped, filed + {run}) && run !in filed
  {
  }

  lemma PartitionCounts(started: set<nat>, live: set<nat>, dropped: set<nat>, filed: set<nat>)
    requires Partition(started, live, dropped, filed)
    ensures |live| + |dropped| + |filed| == |started|
  {
    assert live !! dropped && (live + dropped) !! filed;
    assert |live + dropped| == |live| + |dropped|;
    assert started == live + dropped + filed;
  }

  lemma MapGrows<V>(m: map<nat, V>, k: nat, v: V)
    ensures m[k := v].Keys == m.Keys + {k} && (k !in m ==> |m[k := v]| == |m| + 1)
  {
    assert m[k := v].Keys == m.Keys + {k};
    assert |m| == |m.Keys| && |m[k := v]| == |m[k := v].Keys|;
  }

  lemma MapShrinks<V>(m: map<nat, V>, k: nat)
    requires k in m
    ensures (m - {k}).Keys == m.Keys - {k} && |m - {k}| == |m| - 1
  {
    assert (m - {k}).Keys == m.Keys - {k};
    assert |m| == |m.Keys| && |m - {k}| == |(m - {k}).Keys|;
  }

  lemma FaithfulStart(events: seq<Event>, started: set<nat>, live: map<nat, Text>, filed: map<nat, Record>,
                      live': map<nat, Text>, run: nat, signature: Text)
    requires Faithful(events, started, live, filed) && run !in started
    requires live'.Keys <= live.Keys + {run} && run in live' && live'[run] == signature
    requires forall r :: r in live' && r != run ==> live'[r] == live[r]
    ensures Faithful(events + [Started(run, Some(signature))], started + {run}, live', filed)
  {
    hide SignedIn, FirstEnd;
    var e := Started(run, Some(signature));
    forall r
      ensures SignedIn(events + [e], r) == if r == run then Some(signature) else SignedIn(events, r)
      ensures FirstEnd(events + [e], r) == FirstEnd(events, r)
    {
      Snoc(events, e, r);
    }
    assert SignedIn(events, run) == None;
  }

  /** Any other event: only the ending of an in-flight run changes anything. */
  lemma FaithfulOther(events: seq<Event>, started: set<nat>, live: map<nat, Text>, dropped: set<nat>,
                      filed: map<nat, Record>, e: Event)
    requires Faithful(events, started, live, filed) && Partition(started, live.Keys, dropped, filed.Keys)
    requires !(e.Started? && e.signature.Some?)
    ensures IsEnd(e) && e.run in live ==>
      Faithful(events + [e], started, live - {e.run}, filed[e.run := RecordOf(e, live[e.run])])
    ensures !IsEnd(e) || e.run !in live ==> Faithful(events + [e], started, live, filed)
  {
    hide SignedIn, FirstEnd;
    forall r
      ensures SignedIn(events + [e], r) == SignedIn(events, r)
      ensures FirstEnd(events + [e], r) ==
        if FirstEnd(events, r).Some? then FirstEnd(events, r)
        else if IsEnd(e) && e.run == r && SignedIn(events, r).Some? then Some(e) else None
    {
      Snoc(events, e, r);
    }
  }

  lemma KeptSnoc(log: seq<Record>, base: seq<Record>, order: seq<nat>, filed: map<nat, Record>, run: nat, record: Record)
    requires Kept(log, base, order, filed) && run !in filed
    ensures Kept(log + [record], base, order + [run], filed[run := record])
  {
    MapGrows(filed, run, record);
  }

  lemma StartStep(events: seq<Event>, started: set<nat>, live: map<nat, Text>, dropped: set<nat>, filed: map<nat, Record>,
                  kept: map<nat, Text>, gone: set<nat>, run: nat, signature: Text)
    requires Partition(started, live.Keys, dropped, filed.Keys) && Faithful(events, started, live, filed) && run !in started
    requires gone !! kept.Keys && live.Keys == kept.Keys + gone && forall k :: k in kept ==> kept[k] == live[k]
    ensures Partition(started + {run}, kept[run := signature].Keys, dropped + gone, filed.Keys)
    ensures Faithful(events + [Started(run, Some(signature))], started + {run}, kept[run := signature], filed)
    ensures |kept[run := signature]| <= |kept| + 1 && (dropped + gone == dropped <==> gone == {})
  {
    PartitionStart(started, live.Keys, dropped, filed.Keys, kept.Keys, gone, run);
    hide Partition, Faithful;
    MapGrows(kept, run, signature);
    FaithfulStart(events, started, live, filed, kept[run := signature], run, signature);
    assert run !in kept ==> |kept[run := signature]| == |kept| + 1;
    assert run in kept ==> kept[run := signature].Keys == kept.Keys;
    assert |kept| == |kept.Keys| && |kept[run := signature]| == |kept[run := signature].Keys|;
  }

  lemma EndStep(started: set<nat>, live: map<nat, Text>, dropped: set<nat>, filed: map<nat, Record>, run: nat, record: Record)
    requires Partition(started, live.Keys, dropped, filed.Keys) && run in live
    ensures Partition(started, (live - {run}).Keys, dropped, filed[run := record].Keys)
    ensures run !in filed && |live - {run}| < |live|
  {
    PartitionEnd(started, live.Keys, dropped, filed.Keys, run);
    hide Partition;
    MapShrinks(live, run);
    MapGrows(filed, run, record);
  }

  lemma LiveHasNotEnded(events: seq<Event>, started: set<nat>, live: map<nat, Text>, filed: map<nat, Record>)
    requires Faithful(events, started, live, filed)
    ensures forall r :: r in live ==> FirstEnd(events, r).None? && SignedIn(events, r) == Some(live[r])
  {
  }

  /** An ending concludes a run exactly when the run is in flight. */
  lemma ConcludesLive(events: seq<Event>, started: set<nat>, live: map<nat, Text>, dropped: set<nat>,
                      filed: map<nat, Record>, e: Event, s: Text)
    requires Faithful(events, started, live, filed) && Partition(started, live.Keys, dropped, filed.Keys)
    ensures Concludes(events, dropped, e, s) <==> IsEnd(e) && e.run in live && live[e.run] == s
  {
    hide SignedIn, FirstEnd;
  }

  lemma TallyOther(events: seq<Event>, started: set<nat>, live: map<nat, Text>, dropped: set<nat>,
                   filed: map<nat, Record>, base: seq<Record>, log: seq<Record>, e: Event)
    requires Faithful(events, started, live, filed) && Partition(started, live.Keys, dropped, filed.Keys)
    requires Tallied(events, dropped, base, log)
    ensures IsEnd(e) && e.run in live ==> Tallied(events + [e], dropped, base, log + [RecordOf(e, live[e.run])])
    ensures !IsEnd(e) || e.run !in live ==> Tallied(events + [e], dropped, base, log)
  {
    hide Faithful, Partition, Tallied, Concludes;
    forall s ensures Concludes(events, dropped, e, s) <==> IsEnd(e) && e.run in live && live[e.run] == s {
      ConcludesLive(events, started, live, dropped, filed, e, s);
    }
    if IsEnd(e) && e.run in live {
      TallyEnd(events, dropped, base, log, e, live[e.run]);
    } else {
      TallySame(events, dropped, base, log, e);
    }
  }

  lemma FrozenStart(captured: map<nat, RunEstimate>, frozen: map<nat, RunEstimate>, started: set<nat>,
                    kept: map<nat, RunEstimate>, dropped: set<nat>, run: nat, e: RunEstimate)
    requires Frozen(captured, frozen, started) && forall r :: r in started ==> r < run
    requires |kept| < MAX_CAPTURED_ESTIMATES && dropped !! kept.Keys && captured.Keys == kept.Keys + dropped
    requires |dropped| <= 1 && (dropped != {} ==> |captured| == MAX_CAPTURED_ESTIMATES)
    requires forall k :: k in kept ==> kept[k] == captured[k]
    requires forall d, k :: d in dropped && k in kept ==> d < k
    ensures Frozen(kept[run := e], frozen[run := e], started + {run})
  {
    var kept' := kept[run := e];
    assert kept'.Keys == kept.Keys + {run};
    assert |kept'| == |kept'.Keys| && |kept| == |kept.Keys| && |captured| == |captured.Keys|;
    assert |captured.Keys| == |kept.Keys| + |dropped|;
  }

  lemma FrozenGrows(captured: map<nat, RunEstimate>, frozen: map<nat, RunEstimate>, started: set<nat>, run: nat)
    requires Frozen(captured, frozen, started)
    ensures Frozen(captured, frozen, started + {run}) && |captured| <= MAX_CAPTURED_ESTIMATES
  {
  }

  // ------------------------------------------------------------------------ class

  /** `events` is every event observed; the other ghost fields say what became of
      each signed start. */
  class Recorder {
    const history: History
    var associations: map<nat, Text>
    var captured: map<nat, RunEstimate>
    ghost var events: seq<Event>
    ghost var started: set<nat>
    ghost var dropped: set<nat>
    ghost var filed: map<nat, Record>
    ghost var order: seq<nat>
    ghost var base: seq<Record>
    ghost var frozen: map<nat, RunEstimate>

    ghost predicate Valid()
      reads this, history
    {
      && history.Valid()
      && |associations| <= MAX_ASSOCIATIONS
      && Partition(started, associations.Keys, dropped, filed.Keys)
      && Faithful(events, started, associations, filed)
      && Kept(history.log, base, order, filed)
      && Frozen(captured, frozen, started)
      && Tallied(events, dropped, base, history.log)
    }

    /** Starts from a restored history. */
    constructor (history: History)
      requires history.Valid()
      ensures Valid() && this.history == history && events == [] && started == {} && base == history.log
    {
      this.history := history;
      associations, captured := map[], map[];
      events, started, dropped, filed, order, base, frozen := [], {}, {}, map[], [], history.log, map[];
      new;
      TallyNone(history.log);
    }

    /** A signed start. Run identities grow. */
    method Start(run: nat, signature: Text)
      requires Valid() && forall r :: r in started ==> r < run
      modifies this
      ensures Valid() && events == old(events) + [Started(run, Some(signature))] && started == old(started) + {run}
      ensures history.log == old(history.log) && filed == old(filed) && base == old(base) && order == old(order)
      ensures run in associations && associations[run] == signature
      ensures dropped == old(dropped) <==> |old(associations)| < MAX_ASSOCIATIONS
      ensures run !in old(frozen)
      ensures var e := Estimate(Suffix(Successes(history.log, signature), SUCCESS_RETENTION), None);
        if e.Some? then frozen == old(frozen)[run := e.value] && run in captured && captured[run] == e.value
        else frozen == old(frozen) && captured == old(captured)
    {
      hide Faithful, Kept, Partition, Frozen, History.Valid, Estimate, Successes, Suffix, Tallied;
      NotStarted(run);
      Freeze(run, signature);
      Associate(run, signature);
    }

    /** The estimate is taken before the run can change the history. */
    method Freeze(run: nat, signature: Text)
      requires history.Valid() && Frozen(captured, frozen, started) && forall r :: r in started ==> r < run
      modifies this`captured, this`frozen
      ensures Frozen(captured, frozen, started + {run})
      ensures var e := Estimate(Suffix(Successes(history.log, signature), SUCCESS_RETENTION), None);
        if e.Some? then frozen == old(frozen)[run := e.value] && run in captured && captured[run] == e.value
        else frozen == old(frozen) && captured == old(captured)
    {
      hide Frozen, History.Valid, Estimate, Successes, Suffix;
      FrozenGrows(captured, frozen, started, run);
      var estimate := history.EstimateFor(signature, None);
      if estimate.Some? {
        var kept, gone := MakeRoom(captured, MAX_CAPTURED_ESTIMATES);
        FrozenStart(captured, frozen, started, kept, gone, run, estimate.value);
        captured := kept[run := estimate.value];
        frozen := frozen[run := estimate.value];
      }
    }

    method Associate(run: nat, signature: Text)
      requires |associations| <= MAX_ASSOCIATIONS && run !in started
      requires Partition(started, associations.Keys, dropped, filed.Keys) && Faithful(events, started, associations, filed)
      requires Tallied(events, dropped, base, history.log)
      modifies this`associations, this`dropped, this`started, this`events
      ensures |associations| <= MAX_ASSOCIATIONS
      ensures Partition(started, associations.Keys, dropped, filed.Keys) && Faithful(events, started, associations, filed)
      ensures Tallied(events, dropped, base, history.log)
      ensures events == old(events) + [Started(run, Some(signature))] && started == old(started) + {run}
      ensures run in associations && associations[run] == signature
      ensures dropped == old(dropped) <==> |old(associations)| < MAX_ASSOCIATIONS
    {
      hide Faithful, Partition, Tallied;
      var live, gone := MakeRoom(associations, MAX_ASSOCIATIONS);
      StartStep(events, started, associations, dropped, filed, live, gone, run, signature);
      LiveHasNotEnded(events, started, associations, filed);
      TallyStart(events, dropped, gone, base, history.log, Started(run, Some(signature)));
      associations := live[run := signature];
      dropped := dropped + gone;
      started := started + {run};
      events := events + [Started(run, Some(signature))];
    }

    /** An ending: classifies the run if it is in flight and is a no-op otherwise. */
    method Conclude(e: Event)
      requires Valid() && IsEnd(e)
      modifies this, history
      ensures Valid() && events == old(events) + [e] && started == old(started) && dropped == old(dropped) && base == old(base)
      ensures captured == old(captured) && frozen == old(frozen)
      ensures forall r :: r in old(filed) ==> r in filed && filed[r] == old(filed)[r]
      ensures e.run in old(associations) ==>
        && history.log == old(history.log) + [RecordOf(e, old(associations)[e.run])]
        && associations == old(associations) - {e.run} && e.run in filed
      ensures e.run !in old(associations) ==>
        history.log == old(history.log) && associations == old(associations) && filed == old(filed)
    {
      hide Faithful, Kept, Frozen, Partition, History.Valid, RecordOf, Tallied, Concludes;
      FaithfulOther(events, started, associations, dropped, filed, e);
      TallyOther(events, started, associations, dropped, filed, base, history.log, e);
      events := events + [e];
      if e.run in associations {
        var record := RecordOf(e, associations[e.run]);
        EndStep(started, associations, dropped, filed, e.run, record);
        KeptSnoc(history.log, base, order, filed, e.run, record);
        history.Add(record);
        associations := associations - {e.run};
        filed := filed[e.run := record];
        order := order + [e.run];
      }
    }

    /** Any executor event; runs without a signature leave no trace. */
    method Observe(e: Event)
      requires Valid() && !e.Timeout?
      requires e.Started? && e.signature.Some? ==> forall r :: r in started ==> r < e.run
      modifies this, history
      ensures Valid() && events == old(events) + [e] && base == old(base)
      ensures started == old(started) + if e.Started? && e.signature.Some? then {e.run} else {}
      ensures forall r :: r in old(filed) ==> r in filed && filed[r] == old(filed)[r]
      ensures forall r :: r in old(frozen) ==> r in frozen && frozen[r] == old(frozen)[r]
      ensures old(history.log) <= history.log
    {
      hide Recorder.Valid, Estimate, Successes, Suffix, RecordOf;
      if e.Started? && e.signature.Some? {
        Start(e.run, e.signature.value);
      } else if IsEnd(e) {
        Conclude(e);
      } else {
        Ignore(e);
      }
    }

    method Ignore(e: Event)
      requires Valid() && !IsEnd(e) && !(e.Started? && e.signature.Some?)
      modifies this`events
      ensures Valid() && events == old(events) + [e]
    {
      hide Faithful, Kept, Frozen, Partition, History.Valid, Tallied;
      FaithfulOther(events, started, associations, dropped, filed, e);
      TallyOther(events, started, associations, dropped, filed, base, history.log, e);
      events := events + [e];
    }

    lemma NotStarted(run: nat)
      requires forall r :: r in started ==> r < run
      ensures run !in started && (Valid() ==> run !in frozen)
    {
    }

    /** An observer's bound expired. */
    method NoteTimeout(run: nat)
      requires Valid()
      modifies this, history
      ensures Valid() && events == old(events) + [Timeout(run)] && started == old(started) && captured == old(captured)
      ensures history.log == old(history.log) +
        if run in old(associations) then [Excluded(old(associations)[run], TimedOut)] else []
    {
      Conclude(Timeout(run));
    }

    /** A signature's samples are the elapsed times of its completed runs, split by
        whether they failed, and every other first ending is counted by its reason;
        all this follows the history that the recorder started from. */
    lemma Classified(s: Text)
      requires Valid()
      ensures Successes(history.log, s) == Successes(base, s) + Elapsed(events, dropped, s, false)
      ensures Failures(history.log, s) == Failures(base, s) + Elapsed(events, dropped, s, true)
      ensures forall k :: Count(history.log, Excluded(s, k)) == Count(base, Excluded(s, k)) + Unused(events, dropped, s, k)
      ensures s in history.profiles ==> history.profiles[s] == ProfileOf(history.log, s)
    {
      hide Faithful, Partition, Kept, Frozen, Elapsed, Unused, Successes, Failures, Count;
    }

    /** In flight, dropped and classified together make up the signed starts. */
    lemma Accounts()
      requires Valid()
      ensures |associations| + |dropped| + |filed| == |started|
      ensures |filed| == |history.log| - |base|
      ensures |associations| <= MAX_ASSOCIATIONS && |captured| <= MAX_CAPTURED_ESTIMATES
    {
      hide Faithful, Partition, History.Valid, Tallied;
      PartitionCounts(started, associations.Keys, dropped, filed.Keys);
      assert |associations| == |associations.Keys| && |filed| == |filed.Keys|;
    }
  }
}

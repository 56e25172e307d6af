/** Steps that take tasks in hand, record them, recover them, or cancel them. */
module RunSettling {
  import opened Plan
  import opened RunLog
  import opened RunState
  import opened RunLine
  import opened RunSteps
  import Sorting

  /** An event that spawns nothing finite leaves the order of the log alone. */
  lemma QuietSequenced(s: State, s': State)
    requires Sequenced(s) && NoFiniteSpawn(s.log, s'.log) && Part(Line(s'), Line(s))
    requires s'.single == s.single && s'.planned == s.planned && s'.stageLimit == s.stageLimit
    ensures Sequenced(s')
  {
    LineKept(s.single, Line(s), s.log, Line(s'), s'.log);
    BarredKept(s.planned, s.log, s'.log);
  }

  lemma SameLine(s: State, s': State)
    requires Sequenced(s) && s'.active == s.active && s'.queued == s.queued && s'.stages == s.stages
    ensures Part(Line(s'), Line(s))
  {
  }

  // ------------------------------------------------------- waiting for recovery

  ghost predicate Defers(c: Config, s: State, s': State) {
    && |s.hand| == 1 && Deferred(s.hand[0]) && s.hand[0].child.None?
    && s.hand[0].entry.stage + 1 == s.popped
    && ProgressOf(s.log, s.hand[0].entry.ticket).Commands?
    && ProgressOf(s.log, s.hand[0].entry.ticket).phase == Original
    && Full(c, s.hand[0].entry, ProgressOf(s.log, s.hand[0].entry.ticket).next)
    && s.hand[0].failures == OwnFailures(c, s.log, s.hand[0].entry)
    && s' == s.(hand := [], pending := s.pending + s.hand,
                log := s.log + [RecoveryPhase(s.hand[0].entry, OriginalFailed)])
  }

  lemma DeferConserved(c: Config, s: State, s': State)
    requires Conserved(s) && Defers(c, s, s')
    ensures Conserved(s')
  {
    var t := s.hand[0];
    assert s.hand == [t];
    EntriesOne(t);
    EntriesSnoc(s.pending, t);
  }

  lemma DeferHist(c: Config, s: State, s': State)
    requires Places(c, s) && Conserved(s') && Defers(c, s, s')
    ensures HistOk(c, s')
  {
    hide Conserved, ProgressOf, OkSpawns, Failures, HistOk, OthersStay, MovedOk, Deferred;
    DeferMoves(c, s, s');
    HistMove(c, s, s', s.hand[0].entry);
  }

  lemma DeferMoves(c: Config, s: State, s': State)
    requires Places(c, s) && Conserved(s') && Defers(c, s, s')
    ensures s.hand[0].entry in s.planned && Extends(s.log, s'.log, s.hand[0].entry.ticket)
    ensures OthersStay(s, s', s.hand[0].entry) && MovedOk(c, s', s.hand[0].entry)
  {
    hide Conserved, ProgressOf, OkSpawns, Failures, HistOk;
    var t := s.hand[0];
    assert s.hand == [t];
    DeferOthers(c, s, s');
    hide OthersStay;
    PlacesArePlanned(s);
    assert t in s'.pending && !t.IsService();
    OnePlace(s, t.entry);
    Snoc(s.log, RecoveryPhase(t.entry, OriginalFailed), t.entry.ticket);
    assert t.entry in Entries(s.hand);
  }

  lemma DeferOthers(c: Config, s: State, s': State)
    requires Defers(c, s, s')
    ensures OthersStay(s, s', s.hand[0].entry) && Extends(s.log, s'.log, s.hand[0].entry.ticket)
  {
    hide ProgressOf;
    assert s.hand == [s.hand[0]];
  }

  lemma DeferReports(c: Config, s: State, s': State)
    requires Reports(c, s) && Defers(c, s, s')
    ensures Reports(c, s')
  {
    assert !AnyOwes(s.hand) && !AnyOwes(s'.hand);
  }

  lemma DeferInv(c: Config, s: State, s': State)
    requires Inv(c, s) && Defers(c, s, s')
    ensures Inv(c, s')
  {
    hide ProgressOf, OkSpawns, Failures, Conserved, Mirrored, ResultsOk, OutcomesOk, Told;
    assert s.hand[0] in s.hand;
    PlacesArePlanned(s);
    DeferConserved(c, s, s');
    DeferHist(c, s, s');
    DeferReports(c, s, s');
    RecordKeepsLog(c, s, RecoveryPhase(s.hand[0].entry, OriginalFailed), s');
    SameLine(s, s');
    QuietSequenced(s, s');
    ToldKept(c, s, s', s.hand[0].entry.ticket);
  }

  // ------------------------------------------------------- terminal records

  /** The first task in hand gets its terminal snapshot and, unless the run is
      being cancelled, its outcome. */
  ghost predicate Records(c: Config, s: State, state: TaskState, outcome: Option<TaskOutcome>,
                          rs: seq<CommandResult>, s': State)
  {
    && s.hand != []
    && var t := s.hand[0];
    && MayEnd(t.entry.plan, ProgressOf(s.log, t.entry.ticket), state)
    && EndOk(c, s.log, Terminal(t.entry, state))
    && (outcome.None? ==> s.cancelled)
    && (state == Cancelled ==> c.failFast || s.cancelled)
    && (outcome.Some? ==> StateOf(outcome.value) == state)
    && (!t.IsService() && outcome.Some? ==> (outcome.value.TaskFailed? <==> HasErr(rs) || Owes(t)))
    && (!t.IsService() && !c.failFast && outcome.Some? ==> outcome.value == OutcomeOf(t.failures))
    && (!t.IsService() && outcome.Some? && Ran(outcome.value) ==> outcome.value == OutcomeOf(FinalFailures(c, s.log, t.entry)))
    && s' == s.(hand := s.hand[1..], snapshots := s.snapshots + [Snapshot(t.entry, state)],
                outcomes := if outcome.Some? then s.outcomes + [Recorded(t.entry, outcome.value)] else s.outcomes,
                results := s.results + rs,
                log := s.log + [Terminal(t.entry, state)])
  }

  lemma RecordConserved(c: Config, s: State, state: TaskState, outcome: Option<TaskOutcome>, rs: seq<CommandResult>, s': State)
    requires Conserved(s) && Records(c, s, state, outcome, rs, s')
    ensures Conserved(s')
  {
    EntriesHead(s.hand);
    SnappedSnoc(s.snapshots, Snapshot(s.hand[0].entry, state));
  }

  lemma RecordHist(c: Config, s: State, state: TaskState, outcome: Option<TaskOutcome>, rs: seq<CommandResult>, s': State)
    requires Places(c, s) && Conserved(s') && Records(c, s, state, outcome, rs, s')
    ensures HistOk(c, s')
  {
    hide Conserved, ProgressOf, OkSpawns, Failures, HistOk, OthersStay, MovedOk;
    RecordMoves(c, s, state, outcome, rs, s');
    RecordOthers(c, s, state, outcome, rs, s');
    HistMove(c, s, s', s.hand[0].entry);
  }

  lemma RecordOthers(c: Config, s: State, state: TaskState, outcome: Option<TaskOutcome>, rs: seq<CommandResult>, s': State)
    requires Records(c, s, state, outcome, rs, s')
    ensures OthersStay(s, s', s.hand[0].entry) && Extends(s.log, s'.log, s.hand[0].entry.ticket)
  {
    hide ProgressOf, OkSpawns, Failures;
  }

  lemma RecordMoves(c: Config, s: State, state: TaskState, outcome: Option<TaskOutcome>, rs: seq<CommandResult>, s': State)
    requires Places(c, s) && Conserved(s') && Records(c, s, state, outcome, rs, s')
    ensures s.hand[0].entry in s.planned && MovedOk(c, s', s.hand[0].entry)
  {
    hide Conserved, ProgressOf, OkSpawns, Failures, UnstartedOk, SettledOk;
    var t := s.hand[0];
    var x := t.entry;
    PlacesArePlanned(s);
    assert t in s.hand && Snapshot(x, state) in s'.snapshots;
    assert Snapped(s'.snapshots) == Snapped(s.snapshots) + [x];
    OnePlace(s', x);
    OnePlace(s, x);
    Snoc(s.log, Terminal(x, state), x.ticket);
  }

  lemma RecordMirrored(c: Config, s: State, state: TaskState, outcome: Option<TaskOutcome>, rs: seq<CommandResult>, s': State)
    requires Mirrored(s) && Records(c, s, state, outcome, rs, s')
    ensures Mirrored(s')
  {
    if outcome.Some? {
      assert Projected(s'.outcomes) == Projected(s.outcomes) + [Snapshot(s.hand[0].entry, state)];
    }
  }

  lemma RecordResults(c: Config, s: State, state: TaskState, outcome: Option<TaskOutcome>, rs: seq<CommandResult>, s': State)
    requires ResultsOk(s) && Records(c, s, state, outcome, rs, s') && s.hand[0].entry in s.planned
    ensures ResultsOk(s')
  {
    ErrAppend(s.results, rs);
    OwesSplit(s.hand, 0);
    assert Without(s.hand, 0) == s'.hand;
    if outcome.Some? {
      var r := Recorded(s.hand[0].entry, outcome.value);
      assert forall o :: o in s'.outcomes <==> o in s.outcomes || o == r;
    }
  }

  /** The new outcome tells what the log says, and the others still do. */
  lemma RecordTold(c: Config, s: State, state: TaskState, outcome: Option<TaskOutcome>, rs: seq<CommandResult>, s': State)
    requires Told(c, s) && Records(c, s, state, outcome, rs, s') && Live(ProgressOf(s.log, s.hand[0].entry.ticket))
    ensures Told(c, s')
  {
    hide ProgressOf, Failures, LastPhase, Tells, FinalFailures;
    var x := s.hand[0].entry;
    forall r | r in s'.outcomes ensures Tells(c, s'.log, r) {
      if r in s.outcomes {
        StillTells(c, s.log, r, x, state);
      } else {
        NowTells(c, s.log, r, state);
      }
    }
  }

  lemma StillTells(c: Config, log: Log, r: Recorded, x: Entry, state: TaskState)
    requires Tells(c, log, r) && !ProgressOf(log, x.ticket).Done?
    ensures Tells(c, log + [Terminal(x, state)], r)
  {
    hide ProgressOf, Failures, LastPhase;
    Snoc(log, Terminal(x, state), r.entry.ticket);
  }

  lemma NowTells(c: Config, log: Log, r: Recorded, state: TaskState)
    requires MayEnd(r.entry.plan, ProgressOf(log, r.entry.ticket), state)
    requires !r.entry.plan.service && Ran(r.outcome) ==> r.outcome == OutcomeOf(FinalFailures(c, log, r.entry))
    ensures Tells(c, log + [Terminal(r.entry, state)], r)
  {
    hide ProgressOf, Failures, LastPhase;
    Snoc(log, Terminal(r.entry, state), r.entry.ticket);
  }

  lemma RecordInv(c: Config, s: State, state: TaskState, outcome: Option<TaskOutcome>, rs: seq<CommandResult>, s': State)
    requires Inv(c, s) && Records(c, s, state, outcome, rs, s')
    ensures Inv(c, s')
  {
    hide Conserved, StagesOk, SlotsOk, LogOk, Mirrored, ResultsOk, OutcomesOk, Told;
    assert s.hand[0] in s.hand;
    PlacesArePlanned(s);
    RecordConserved(c, s, state, outcome, rs, s');
    RecordHist(c, s, state, outcome, rs, s');
    RecordMirrored(c, s, state, outcome, rs, s');
    RecordResults(c, s, state, outcome, rs, s');
    RecordKeepsLog(c, s, Terminal(s.hand[0].entry, state), s');
    RecordOrder(c, s, state, outcome, rs, s');
    RecordOutcomes(c, s, state, outcome, rs, s');
    SameLine(s, s');
    QuietSequenced(s, s');
    RecordTold(c, s, state, outcome, rs, s');
  }

  lemma RecordOrder(c: Config, s: State, state: TaskState, outcome: Option<TaskOutcome>, rs: seq<CommandResult>, s': State)
    requires StagesOk(s) && SlotsOk(s) && Records(c, s, state, outcome, rs, s')
    ensures StagesOk(s') && SlotsOk(s')
  {
    assert forall i :: 0 <= i < |s'.hand| ==> s'.hand[i] == s.hand[i + 1];
  }

  lemma RecordOutcomes(c: Config, s: State, state: TaskState, outcome: Option<TaskOutcome>, rs: seq<CommandResult>, s': State)
    requires OutcomesOk(c, s) && Records(c, s, state, outcome, rs, s') && s.hand[0].entry in s.planned
    ensures OutcomesOk(c, s')
  {
    assert s.hand[0] in s.hand;
  }

  // ------------------------------------------------------ working on the hand

  /** The i-th task in hand is replaced by a later state of itself. */
  ghost predicate Handles(c: Config, s: State, i: nat, t': ActiveTask, s': State) {
    && i < |s.hand| && t'.entry == s.hand[i].entry
    && Extends(s.log, s'.log, t'.entry.ticket)
    && Live(ProgressOf(s'.log, t'.entry.ticket))
    && (Owes(t') <==> Owes(s.hand[i]))
    && (t'.failures == s.hand[i].failures || t'.entry.plan.recovery.Some?)
    && (t'.phase != Original ==> t'.entry.stage + 1 == s.popped)
    && (t'.phase != Original && t'.child.Some? ==>
          && i == 0 && s.active == [] && s.queued == []
          && forall j :: 0 < j < |s.hand| ==> s.hand[j].child.None?)
    && (t'.child.Some? && t'.phase == Original ==> s.hand[i].child.Some?)
    && s' == s.(hand := s.hand[i := t'], log := s'.log)
  }

  lemma HandleHist(c: Config, s: State, i: nat, t': ActiveTask, s': State)
    requires Places(c, s) && Handles(c, s, i, t', s')
    ensures Places(c, s')
  {
    hide Conserved, ProgressOf, OkSpawns, Failures, HistOk, OthersStay, MovedOk;
    EntriesUpdate(s.hand, i, t');
    SamePlaces(s, s');
    HandleMoves(c, s, i, t', s');
    HistMove(c, s, s', t'.entry);
  }

  lemma HandleMoves(c: Config, s: State, i: nat, t': ActiveTask, s': State)
    requires Places(c, s) && Conserved(s') && Handles(c, s, i, t', s')
    ensures t'.entry in s.planned && OthersStay(s, s', t'.entry) && MovedOk(c, s', t'.entry)
  {
    hide Conserved, ProgressOf, OkSpawns, Failures, UnstartedOk, SettledOk;
    PlacesArePlanned(s);
    assert s.hand[i] in s.hand && s'.hand[i] == t' && t' in s'.hand;
    OnePlace(s', t'.entry);
  }

  lemma HandleReports(c: Config, s: State, i: nat, t': ActiveTask, s': State)
    requires Reports(c, s) && Handles(c, s, i, t', s') && t'.entry in s.planned
    ensures Reports(c, s')
  {
    OwesSplit(s.hand, i);
    OwesUpdate(s.hand, i, t');
    assert s.hand[i] in s.hand;
  }

  lemma HandleOrder(c: Config, s: State, i: nat, t': ActiveTask, s': State)
    requires StagesOk(s) && SlotsOk(s) && Handles(c, s, i, t', s')
    ensures StagesOk(s') && SlotsOk(s')
  {
    hide LiveFinite;
    assert forall j :: 0 <= j < |s'.hand| && j != i ==> s'.hand[j] == s.hand[j];
    HandleLive(c, s, i, t', s');
  }

  lemma HandleLive(c: Config, s: State, i: nat, t': ActiveTask, s': State)
    requires SlotsOk(s) && Handles(c, s, i, t', s')
    ensures LiveOk(s')
  {
    hide LiveFinite;
    assert s.hand[i] in s.hand && s'.hand[i] == t';
    if t'.child.Some? ==> s.hand[i].child.Some? {
      LiveUpdate(s.hand, i, t');
    } else {
      assert forall j :: 0 < j < |s'.hand| ==> s'.hand[j] == s.hand[j];
      LiveOne(s'.hand);
    }
    forall t | t in s'.hand && !t.IsService() && t.entry.stage + 1 == s'.popped ensures s'.stageLimit > 0 {
      var j :| 0 <= j < |s'.hand| && s'.hand[j] == t;
      assert s.hand[j] in s.hand && s.hand[j].entry == t.entry;
    }
  }

  lemma {:induction false} LiveUpdate(ts: seq<ActiveTask>, i: nat, t': ActiveTask)
    requires i < |ts| && t'.entry == ts[i].entry && (t'.child.Some? ==> ts[i].child.Some?)
    ensures LiveFinite(ts[i := t']) <= LiveFinite(ts)
  {
    if i == 0 {
      assert ts[i := t'][1..] == ts[1..];
    } else {
      LiveUpdate(ts[1..], i - 1, t');
      assert ts[i := t'][1..] == ts[1..][i - 1 := t'];
    }
  }

  lemma {:induction false} LiveNone(ts: seq<ActiveTask>)
    requires forall i :: 0 <= i < |ts| ==> ts[i].child.None? || ts[i].IsService()
    ensures LiveFinite(ts) == 0
  {
    if ts != [] { LiveNone(ts[1..]); }
  }

  lemma LiveOne(ts: seq<ActiveTask>)
    requires ts != [] && forall j :: 0 < j < |ts| ==> ts[j].child.None?
    ensures LiveFinite(ts) <= 1 && (ts[0].IsService() ==> LiveFinite(ts) == 0)
  {
    LiveNone(ts[1..]);
  }

  /** Handling keeps the invariant once the log itself is in order. */
  lemma HandleInv(c: Config, s: State, i: nat, t': ActiveTask, s': State)
    requires Inv(c, s) && Handles(c, s, i, t', s') && LogOk(c, s') && Sequenced(s')
    ensures Inv(c, s')
  {
    hide Told, Conserved, Reports, Sequenced, LogOk, StagesOk, SlotsOk, ProgressOf, Failures, OkSpawns;
    assert s.hand[i] in s.hand;
    PlacesArePlanned(s);
    HandleHist(c, s, i, t', s');
    HandleOrder(c, s, i, t', s');
    HandleReports(c, s, i, t', s');
    ToldKept(c, s, s', t'.entry.ticket);
  }

  // --------------------------------------------------------- taking and returning

  /** Two ways of listing the same tasks. */
  ghost predicate SameTasks(a: seq<ActiveTask>, b: seq<ActiveTask>) {
    && multiset(Entries(a)) == multiset(Entries(b))
    && (forall t :: t in a <==> t in b)
  }

  function TaskOrder(): Sorting.Order<ActiveTask> {
    (t: ActiveTask, u: ActiveTask) => t.entry.plan.position <= u.entry.plan.position
  }

  /** Stable sort by task position. */
  function SortByPosition(ts: seq<ActiveTask>): seq<ActiveTask> { Sorting.Sort(ts, TaskOrder()) }

  lemma {:induction false} InsertKeepsEntries(t: ActiveTask, ts: seq<ActiveTask>)
    ensures multiset(Entries(Sorting.Insert(t, ts, TaskOrder()))) == multiset(Entries(ts)) + multiset{t.entry}
  {
    hide Entries;
    var r := Sorting.Insert(t, ts, TaskOrder());
    EntriesHead(r);
    if ts == [] || TaskOrder()(t, ts[0]) {
      assert r[1..] == ts;
    } else {
      EntriesHead(ts);
      InsertKeepsEntries(t, ts[1..]);
      assert r[1..] == Sorting.Insert(t, ts[1..], TaskOrder());
    }
  }

  lemma {:induction false} SortKeepsEntries(ts: seq<ActiveTask>)
    ensures multiset(Entries(SortByPosition(ts))) == multiset(Entries(ts))
  {
    hide Entries;
    if ts == [] {
      assert SortByPosition(ts) == ts;
    } else {
      SortKeepsEntries(ts[1..]);
      EntriesHead(ts);
      InsertKeepsEntries(ts[0], SortByPosition(ts[1..]));
    }
  }

  lemma SortKeepsTasks(ts: seq<ActiveTask>)
    ensures SameTasks(ts, SortByPosition(ts))
  {
    SortKeepsEntries(ts);
    Sorting.SortMembers(ts, TaskOrder());
  }

  ghost predicate ByPosition(ts: seq<ActiveTask>) {
    forall i, j :: 0 <= i < j < |ts| ==> ts[i].entry.plan.position <= ts[j].entry.plan.position
  }

  /** Recoveries are taken up in declaration order. */
  lemma SortOrders(ts: seq<ActiveTask>)
    ensures ByPosition(SortByPosition(ts))
  {
    Sorting.SortSpec(ts, TaskOrder());
    var r := SortByPosition(ts);
    forall i, j | 0 <= i < j < |r| ensures r[i].entry.plan.position <= r[j].entry.plan.position {
      assert TaskOrder()(r[i], r[j]);
    }
  }

  /** The pending recoveries are taken out for one recovery pass, in some order. */
  ghost predicate TakesPending(c: Config, s: State, s': State) {
    && s.hand == [] && SameTasks(s.pending, s'.hand) && (!Cut(c, s) || s.cancelled)
    && s' == s.(pending := [], hand := s'.hand)
  }

  lemma TakePendingPlaces(c: Config, s: State, s': State)
    requires Places(c, s) && TakesPending(c, s, s')
    ensures Places(c, s')
  {
    TakePendingConserved(c, s, s');
  }

  lemma TakePendingConserved(c: Config, s: State, s': State)
    requires Conserved(s) && TakesPending(c, s, s')
    ensures Conserved(s')
  {
    assert Unsettled(s') == Unsettled(s);
  }

  lemma TakePendingOrder(c: Config, s: State, s': State)
    requires Order(c, s) && TakesPending(c, s, s')
    requires forall t :: t in s.pending ==> t.child.None?
    ensures Order(c, s')
  {
    hide LiveFinite, EventOk, FateOk, EndOk, StageOrdered, QuietAfterCancel;
    assert forall i :: 0 <= i < |s'.hand| ==> s'.hand[i] in s.pending;
    LiveNone(s'.hand);
  }

  lemma TakePendingInv(c: Config, s: State, s': State)
    requires Inv(c, s) && TakesPending(c, s, s')
    ensures Inv(c, s')
  {
    hide Told;
    TakePendingPlaces(c, s, s');
    TakePendingOrder(c, s, s');
    TakePendingReports(c, s, s');
    ToldSame(c, s, s');
  }

  lemma TakePendingReports(c: Config, s: State, s': State)
    requires Inv(c, s) && TakesPending(c, s, s')
    ensures Reports(c, s')
  {
    PlacesArePlanned(s);
    if !s.cancelled {
      forall t | t in s'.hand ensures !Owes(t) && t.entry.plan.recovery.Some? {
        assert PendingOk(c, Cut(c, s), s.log, t);
      }
    }
  }

  /** Cancellation interrupted a recovery pass: what was in hand is pending again. */
  ghost predicate Returns(c: Config, s: State, s': State) {
    && s.pending == [] && Cut(c, s)
    && (forall t :: t in s.hand ==>
          t.child.None? && !t.IsService() && t.entry.stage + 1 == s.popped && !Owes(t))
    && s' == s.(pending := s.hand, hand := [])
  }

  lemma ReturnPlaces(c: Config, s: State, s': State)
    requires Places(c, s) && Returns(c, s, s')
    ensures Places(c, s')
  {
    assert Conserved(s');
  }

  lemma ReturnInv(c: Config, s: State, s': State)
    requires Inv(c, s) && Returns(c, s, s')
    ensures Inv(c, s')
  {
    hide HistOk, Told;
    ReturnPlaces(c, s, s');
    assert !AnyOwes(s.hand);
    ToldSame(c, s, s');
  }

  /** All slots are emptied at once, by fail-fast or by cancellation. */
  ghost predicate TakesActive(c: Config, s: State, s': State) {
    && s.hand == [] && (c.failFast || s.cancelled)
    && s' == s.(active := [], hand := s.active)
  }

  lemma TakeActiveInv(c: Config, s: State, s': State)
    requires Inv(c, s) && TakesActive(c, s, s')
    ensures Inv(c, s')
  {
    hide LiveFinite, HistOk, Mirrored, OutcomesOk, Sequenced, EventOk, FateOk, EndOk, StageOrdered, QuietAfterCancel, Told;
    TakeActiveConserved(c, s, s');
    hide Conserved;
    TakeActiveHist(c, s, s');
    TakeActiveLine(s, s');
    TakeActiveReports(c, s, s');
    ToldSame(c, s, s');
  }

  lemma TakeActiveConserved(c: Config, s: State, s': State)
    requires Conserved(s) && TakesActive(c, s, s')
    ensures Conserved(s')
  {
  }

  lemma TakeActiveReports(c: Config, s: State, s': State)
    requires Reports(c, s) && TakesActive(c, s, s')
    ensures Reports(c, s')
  {
  }

  lemma TakeActiveLine(s: State, s': State)
    requires Sequenced(s) && s' == s.(active := [], hand := s'.hand)
    ensures Sequenced(s')
  {
    assert [] + Entries(s.active) + (s.queued + Flat(s.stages)) == Line(s);
    AscendingPart([], Entries(s.active), s.queued + Flat(s.stages));
    assert Line(s') == [] + (s.queued + Flat(s.stages));
    QuietSequenced(s, s');
  }

  lemma TakeActiveHist(c: Config, s: State, s': State)
    requires HistOk(c, s) && TakesActive(c, s, s')
    ensures HistOk(c, s')
    ensures forall t :: t in s'.hand ==> t.phase == Original
  {
    forall t | t in s'.hand ensures Live(ProgressOf(s'.log, t.entry.ticket)) && t.phase == Original {
      assert ActiveOk(c, s.log, t);
    }
  }

  /** The background services are taken out to be shut down. */
  ghost predicate TakesServices(s: State, s': State) {
    && s.hand == [] && s.cancelled
    && s' == s.(services := [], hand := s.services)
  }

  lemma TakeServicesInv(c: Config, s: State, s': State)
    requires Inv(c, s) && TakesServices(s, s')
    ensures Inv(c, s')
  {
    hide LiveFinite, HistOk, Conserved, Reports, EventOk, FateOk, EndOk, StageOrdered, QuietAfterCancel, Told;
    TakeServicesConserved(s, s');
    TakeServicesHist(c, s, s');
    LiveNone(s'.hand);
    TakeServicesReports(c, s, s');
    ToldSame(c, s, s');
  }

  lemma TakeServicesHist(c: Config, s: State, s': State)
    requires HistOk(c, s) && TakesServices(s, s')
    ensures HistOk(c, s') && forall t :: t in s'.hand ==> t.phase == Original && t.IsService()
  {
    forall t | t in s'.hand ensures Live(ProgressOf(s'.log, t.entry.ticket)) && t.phase == Original && t.IsService() {
      assert ServiceOk(s.log, t);
    }
  }

  lemma TakeServicesReports(c: Config, s: State, s': State)
    requires Reports(c, s) && TakesServices(s, s')
    ensures Reports(c, s')
  {
  }

  lemma TakeServicesConserved(s: State, s': State)
    requires Conserved(s) && TakesServices(s, s')
    ensures Conserved(s')
  {
  }

  ghost function Activated(es: seq<Entry>): (ts: seq<ActiveTask>)
    ensures |ts| == |es| && forall i :: 0 <= i < |es| ==> ts[i] == Activate(es[i])
  {
    seq(|es|, i requires 0 <= i < |es| => Activate(es[i]))
  }

  /** Tasks that never started are taken out: the queue, or the next stage. */
  ghost predicate TakesWaiting(c: Config, s: State, s': State) {
    && s.hand == [] && (c.failFast || s.cancelled)
    && (|| s' == s.(queued := [], hand := Activated(s.queued))
        || (s.stages != []
            && s' == s.(stages := s.stages[1..], skipped := s.skipped + 1, hand := Activated(StageTasks(s.stages[0])))))
  }

  lemma TakeWaitingConserved(c: Config, s: State, s': State)
    requires Conserved(s) && TakesWaiting(c, s, s')
    ensures Conserved(s')
  {
    if s'.skipped == s.skipped {
      assert Entries(s'.hand) == s.queued;
    } else {
      assert Entries(s'.hand) == StageTasks(s.stages[0]);
      assert Flat(s.stages) == StageTasks(s.stages[0]) + Flat(s'.stages);
    }
  }

  lemma TakeWaitingHist(c: Config, s: State, s': State)
    requires HistOk(c, s) && TakesWaiting(c, s, s')
    ensures HistOk(c, s')
    ensures forall t :: t in s'.hand ==> WaitingOk(s'.log, t.entry) && t.phase == Original && !Owes(t)
  {
    if s'.skipped != s.skipped {
      assert Flat(s.stages) == StageTasks(s.stages[0]) + Flat(s'.stages);
    }
    forall t | t in s'.hand ensures WaitingOk(s'.log, t.entry) {
      assert if s'.skipped == s.skipped then t.entry in s.queued else t.entry in Flat(s.stages);
    }
  }

  lemma TakeWaitingOrder(c: Config, s: State, s': State)
    requires Order(c, s) && TakesWaiting(c, s, s')
    ensures Order(c, s')
  {
    hide LiveOk, EventOk, FateOk, EndOk, StageOrdered, QuietAfterCancel, StagesOk;
    TakeWaitingLive(c, s, s');
    TakeWaitingStages(c, s, s');
  }

  lemma TakeWaitingStages(c: Config, s: State, s': State)
    requires StagesOk(s) && TakesWaiting(c, s, s')
    ensures StagesOk(s')
  {
    hide Flat;
    if s'.skipped != s.skipped {
      forall k, e | 0 <= k < |s'.stages| && e in StageTasks(s'.stages[k]) ensures e.stage == s'.popped + s'.skipped + k {
        assert s'.stages[k] == s.stages[k + 1];
      }
    }
  }

  lemma TakeWaitingLive(c: Config, s: State, s': State)
    requires StagesOk(s) && SlotsOk(s) && TakesWaiting(c, s, s')
    ensures LiveOk(s')
  {
    hide LiveFinite;
    LiveNone(s'.hand);
    if s'.skipped != s.skipped {
      assert forall t :: t in s'.hand ==> t.entry in StageTasks(s.stages[0]);
    }
  }

  lemma TakeWaitingReports(c: Config, s: State, s': State)
    requires Reports(c, s) && TakesWaiting(c, s, s')
    requires forall t :: t in s'.hand ==> !Owes(t)
    ensures Reports(c, s')
  {
    assert !AnyOwes(s'.hand);
  }

  lemma TakeWaitingInv(c: Config, s: State, s': State)
    requires Inv(c, s) && TakesWaiting(c, s, s')
    ensures Inv(c, s')
  {
    hide ProgressOf, OkSpawns, Failures, Conserved, HistOk, Reports, Sequenced, StagesOk, LogOk, Told;
    TakeWaitingConserved(c, s, s');
    TakeWaitingHist(c, s, s');
    TakeWaitingOrder(c, s, s');
    TakeWaitingLine(c, s, s');
    TakeWaitingReports(c, s, s');
    ToldSame(c, s, s');
  }

  lemma TakeWaitingLine(c: Config, s: State, s': State)
    requires Sequenced(s) && TakesWaiting(c, s, s')
    ensures Sequenced(s')
  {
    var es := Entries(s.active);
    if s'.skipped == s.skipped {
      assert Line(s) == es + s.queued + Flat(s.stages);
      assert Line(s') == es + Flat(s.stages);
      AscendingPart(es, s.queued, Flat(s.stages));
    } else {
      var tasks, rest := StageTasks(s.stages[0]), Flat(s'.stages);
      assert Flat(s.stages) == tasks + rest;
      assert Line(s) == es + s.queued + tasks + rest;
      AscendingPart(es + s.queued, tasks, rest);
    }
    QuietSequenced(s, s');
  }

  // ---------------------------------------------------------------- services

  /** A background service is polled, restarted or respawned in place. */
  ghost predicate Polls(c: Config, s: State, i: nat, t': ActiveTask, s': State) {
    && i < |s.services| && t'.entry == s.services[i].entry && !Cut(c, s)
    && OnlySpawns(s.log, s'.log, t') && Fated(c.env, s.log, s'.log) && ServiceOk(s'.log, t')
    && s' == s.(services := s.services[i := t'], log := s'.log)
  }

  lemma PollPlaces(c: Config, s: State, i: nat, t': ActiveTask, s': State)
    requires Places(c, s) && Polls(c, s, i, t', s')
    ensures Places(c, s')
  {
    hide Conserved, ProgressOf, OkSpawns, Failures, HistOk, OthersStay, MovedOk;
    EntriesUpdate(s.services, i, t');
    SamePlaces(s, s');
    PollMoves(c, s, i, t', s');
    HistMove(c, s, s', t'.entry);
  }

  lemma ServicesDiffer(s: State, i: nat, j: nat)
    requires PlannedOk(s) && Conserved(s) && i < |s.services| && j < |s.services| && i != j
    ensures s.services[i].entry != s.services[j].entry
  {
    PlacesArePlanned(s);
    assert s.services[i] in s.services && s.services[j] in s.services;
    Alone(s, Entries(s.services)[i]);
    Alone(s, Entries(s.services)[j]);
    if i < j { OnceInList(Entries(s.services), i, j); } else { OnceInList(Entries(s.services), j, i); }
  }

  lemma PollMoves(c: Config, s: State, i: nat, t': ActiveTask, s': State)
    requires Places(c, s) && Conserved(s') && Polls(c, s, i, t', s')
    ensures t'.entry in s.planned && OthersStay(s, s', t'.entry) && MovedOk(c, s', t'.entry)
  {
    hide Conserved, ProgressOf, OkSpawns, Failures, UnstartedOk, SettledOk;
    var x := t'.entry;
    PlacesArePlanned(s);
    assert s.services[i] in s.services && s'.services[i] == t' && t' in s'.services;
    OnePlace(s', x);
    forall t | t in s'.services && t.entry == x ensures t == t' {
      var j :| 0 <= j < |s'.services| && s'.services[j] == t;
      if j != i { ServicesDiffer(s', i, j); }
    }
  }

  lemma PollReports(c: Config, s: State, i: nat, t': ActiveTask, s': State)
    requires Reports(c, s) && Polls(c, s, i, t', s')
    ensures Reports(c, s')
  {
  }

  lemma PollInv(c: Config, s: State, i: nat, t': ActiveTask, s': State)
    requires Inv(c, s) && Polls(c, s, i, t', s')
    ensures Inv(c, s')
  {
    hide ProgressOf, OkSpawns, Failures, Conserved, HistOk, Reports, InLine, Barred, Told;
    assert s.services[i] in s.services;
    PlacesArePlanned(s);
    PollPlaces(c, s, i, t', s');
    PollReports(c, s, i, t', s');
    SpawnsKeepLog(c, s, t', s');
    SameLine(s, s');
    QuietSequenced(s, s');
    ServiceLives(c, s, i);
    ToldKept(c, s, s', t'.entry.ticket);
  }

  lemma ServiceLives(c: Config, s: State, i: nat)
    requires HistOk(c, s) && i < |s.services|
    ensures ProgressOf(s.log, s.services[i].entry.ticket) == Commands(Original, 0)
  {
    assert s.services[i] in s.services;
    assert ServiceOk(s.log, s.services[i]);
  }

  /** A respawn attempt is logged; only a successful one counts against the budget. */
  lemma RespawnLogged(log: Log, t: ActiveTask, t': ActiveTask, fate: Verdict, now: Log)
    requires ServiceOk(log, t) && t.child.None? && now == log + [Spawn(t.entry, Original, 0, fate)]
    requires t'.entry == t.entry && t'.phase == Original && t'.restartsLeft == t.restartsLeft
    requires fate != StartFails ==> t'.child.Some? && t'.current.Some?
    ensures OnlySpawns(log, now, t') && ProgressOf(now, t.entry.ticket) == Commands(Original, 0)
    ensures fate != StartFails ==> ServiceOk(now, t')
  {
    Snoc(log, Spawn(t.entry, Original, 0, fate), t.entry.ticket);
  }

  lemma ServiceQueued(log: Log, t: ActiveTask)
    requires ServiceOk(log, t) && t.child.None?
    ensures t.commands != []
  {
  }

  lemma ChildStarted(child: Child)
    ensures VerdictOf(Spawned(child)) != StartFails
  {
  }

  /** A service leaves the background pool to be recorded. */
  ghost predicate Stops(c: Config, s: State, i: nat, t': ActiveTask, s': State) {
    && i < |s.services| && t'.entry == s.services[i].entry && s.hand == [] && t'.phase == Original && !Cut(c, s)
    && (s'.log == s.log || (OnlySpawns(s.log, s'.log, t') && ProgressOf(s'.log, t'.entry.ticket) == Commands(Original, 0)))
    && Fated(c.env, s.log, s'.log)
    && s' == s.(services := Without(s.services, i), hand := [t'], log := s'.log)
  }

  lemma StopConserved(c: Config, s: State, i: nat, t': ActiveTask, s': State)
    requires Conserved(s) && Stops(c, s, i, t', s')
    ensures Conserved(s')
  {
    EntriesSplit(s.services, i);
    EntriesOne(t');
  }

  lemma StopHist(c: Config, s: State, i: nat, t': ActiveTask, s': State)
    requires Places(c, s) && Conserved(s') && Stops(c, s, i, t', s')
    ensures HistOk(c, s')
  {
    hide Conserved, ProgressOf, OkSpawns, Failures, HistOk, OthersStay, MovedOk;
    StopMoves(c, s, i, t', s');
    HistMove(c, s, s', t'.entry);
  }

  lemma StopMoves(c: Config, s: State, i: nat, t': ActiveTask, s': State)
    requires Places(c, s) && Conserved(s') && Stops(c, s, i, t', s')
    ensures t'.entry in s.planned && OthersStay(s, s', t'.entry) && MovedOk(c, s', t'.entry)
  {
    hide Conserved, ProgressOf, OkSpawns, Failures, UnstartedOk, SettledOk;
    PlacesArePlanned(s);
    assert s.services[i] in s.services && t' in s'.hand;
    OnePlace(s', t'.entry);
  }

  lemma StopReports(c: Config, s: State, i: nat, t': ActiveTask, s': State)
    requires Reports(c, s) && Stops(c, s, i, t', s') && t'.IsService() && t'.entry in s.planned
    ensures Reports(c, s')
  {
    hide Fated, ProgressOf;
  }

  lemma StopInv(c: Config, s: State, i: nat, t': ActiveTask, s': State)
    requires Inv(c, s) && Stops(c, s, i, t', s')
    ensures Inv(c, s') && t'.IsService()
  {
    hide ProgressOf, OkSpawns, Failures, Conserved, Reports, InLine, Barred, Told;
    assert s.services[i] in s.services;
    PlacesArePlanned(s);
    StopConserved(c, s, i, t', s');
    StopHist(c, s, i, t', s');
    StopReports(c, s, i, t', s');
    if s'.log != s.log { SpawnsKeepLog(c, s, t', s'); }
    SameLine(s, s');
    QuietSequenced(s, s');
    if s'.log != s.log { ToldKept(c, s, s', t'.entry.ticket); } else { ToldSame(c, s, s'); }
  }

  /** Reconciliation retires a service: an outcome, but no snapshot. */
  ghost predicate Retires(s: State, i: nat, s': State) {
    && i < |s.services|
    && s' == s.(services := Without(s.services, i), retired := s.retired + [s.services[i].entry],
                outcomes := s.outcomes + [Recorded(s.services[i].entry, TaskCancelled)])
  }

  lemma RetirePlaces(c: Config, s: State, i: nat, s': State)
    requires Places(c, s) && Retires(s, i, s')
    ensures Places(c, s')
  {
    RetireConserved(s, i, s');
    assert s.services[i] in s.services;
  }

  lemma RetireConserved(s: State, i: nat, s': State)
    requires Conserved(s) && Retires(s, i, s')
    ensures Conserved(s')
  {
    EntriesSplit(s.services, i);
  }

  lemma RetireReports(c: Config, s: State, i: nat, s': State)
    requires Reports(c, s) && Retires(s, i, s') && s.services[i].IsService() && s.services[i].entry in s.planned
    ensures Reports(c, s')
  {
    var x := s.services[i].entry;
    assert Projected(s'.outcomes) == Projected(s.outcomes) + [Snapshot(x, Cancelled)];
    assert RetiredSnapshots(s'.retired) == RetiredSnapshots(s.retired) + [Snapshot(x, Cancelled)];
  }

  lemma ToldRetired(c: Config, s: State, i: nat, s': State)
    requires Told(c, s) && Retires(s, i, s')
    ensures Told(c, s')
  {
    hide ProgressOf, FinalFailures;
  }

  lemma RetireInv(c: Config, s: State, i: nat, s': State)
    requires Inv(c, s) && Retires(s, i, s')
    ensures Inv(c, s')
  {
    hide Conserved, Reports, InLine, Barred, EventOk, FateOk, EndOk, StageOrdered, QuietAfterCancel, LiveFinite, Told;
    assert s.services[i] in s.services;
    PlacesArePlanned(s);
    RetirePlaces(c, s, i, s');
    RetireReports(c, s, i, s');
    ToldRetired(c, s, i, s');
  }

  // --------------------------------------------- observation, cancellation, growth

  /** The cancellation token is read once. */
  ghost predicate Observes(c: Config, s: State, s': State) {
    s' == s.(now := s.now + 1, log := if TokenSet(c.env, s.now + 1) then s.log + [CancelSeen] else s.log)
  }

  lemma ObserveHist(c: Config, s: State, s': State)
    requires HistOk(c, s) && Observes(c, s, s')
    ensures HistOk(c, s')
  {
    forall ticket: nat
      ensures ProgressOf(s'.log, ticket) == ProgressOf(s.log, ticket) && OkSpawns(s'.log, ticket) == OkSpawns(s.log, ticket)
    {
      Snoc(s.log, CancelSeen, ticket);
    }
  }

  lemma ToldObserved(c: Config, s: State, s': State)
    requires Told(c, s) && Observes(c, s, s')
    ensures Told(c, s')
  {
    hide Tells;
    forall r | r in s'.outcomes ensures Tells(c, s'.log, r) {
      if s'.log != s.log { TellsStill(c, s.log, r); }
    }
  }

  lemma TellsStill(c: Config, log: Log, r: Recorded)
    requires Tells(c, log, r)
    ensures Tells(c, log + [CancelSeen], r)
  {
    hide ProgressOf, Failures, LastPhase;
    Snoc(log, CancelSeen, r.entry.ticket);
  }

  lemma ObserveInv(c: Config, s: State, s': State)
    requires Inv(c, s) && Observes(c, s, s')
    ensures Inv(c, s')
  {
    hide HistOk, StagesOk, SlotsOk, LogOk, Told;
    ObserveHist(c, s, s');
    ObserveOrder(c, s, s');
    SameLine(s, s');
    QuietSequenced(s, s');
    ToldObserved(c, s, s');
  }

  lemma ObserveOrder(c: Config, s: State, s': State)
    requires Order(c, s) && Observes(c, s, s')
    ensures Order(c, s')
  {
    hide LogOk;
    ObserveLog(c, s, s');
  }

  lemma ObserveLog(c: Config, s: State, s': State)
    requires LogOk(c, s) && Observes(c, s, s')
    ensures LogOk(c, s')
  {
    hide EventOk, FateOk, EndOk;
    NoEvent(c, s.planned, s.log);
    GrowsByOne(c, s.planned, s.log, CancelSeen);
  }

  lemma NoEvent(c: Config, planned: seq<Entry>, log: Log)
    ensures EventOk(c, planned, CancelSeen) && EndOk(c, log, CancelSeen)
  {
  }

  lemma MarkCancelledPlaces(c: Config, s: State, s': State)
    requires Places(c, s) && s' == s.(cancelled := true)
    ensures Places(c, s')
  {
  }

  lemma MarkCancelledInv(c: Config, s: State, s': State)
    requires Inv(c, s) && s' == s.(cancelled := true)
    ensures Inv(c, s')
  {
    hide Told, HistOk, Conserved, Sequenced, EventOk, FateOk, EndOk, StageOrdered, QuietAfterCancel, LiveFinite;
    MarkCancelledPlaces(c, s, s');
    SameLine(s, s');
    QuietSequenced(s, s');
    ToldSame(c, s, s');
  }

  lemma {:induction false} Untouched(log: Log, ticket: nat)
    requires forall i :: 0 <= i < |log| ==> !About(log[i], ticket)
    ensures ProgressOf(log, ticket) == Commands(Original, 0) && OkSpawns(log, ticket) == 0
    ensures forall phase :: Failures(log, ticket, phase) == []
  {
    if log != [] { Untouched(log[..|log| - 1], ticket); }
  }

  /** A plan is appended to the run; its tasks have fresh tickets and stages. */
  ghost predicate Appends(s: State, more: seq<Stage<Entry>>, s': State) {
    && StagesFrom(more, s.popped + s.skipped + |s.stages|)
    && (forall i :: 0 <= i < |Flat(more)| ==>
          Flat(more)[i].ticket == |s.planned| + i
          && (Flat(more)[i].plan.service ==> Flat(more)[i].plan.recovery.None?))
    && s' == s.(planned := s.planned + Flat(more), stages := s.stages + more)
  }

  lemma AppendHist(c: Config, s: State, more: seq<Stage<Entry>>, s': State)
    requires PlannedOk(s) && HistOk(c, s) && LogOk(c, s) && Appends(s, more, s')
    ensures HistOk(c, s')
  {
    FlatAppend(s.stages, more);
    forall e | e in Flat(more) ensures WaitingOk(s.log, e) {
      forall i | 0 <= i < |s.log| ensures !About(s.log[i], e.ticket) {
        assert EventOk(c, s.planned, s.log[i]);
      }
      Untouched(s.log, e.ticket);
    }
  }

  lemma AppendConserved(s: State, more: seq<Stage<Entry>>, s': State)
    requires PlannedOk(s) && Conserved(s) && Appends(s, more, s')
    ensures PlannedOk(s') && Conserved(s')
  {
    FlatAppend(s.stages, more);
  }

  lemma AppendOrder(c: Config, s: State, more: seq<Stage<Entry>>, s': State)
    requires Order(c, s) && Appends(s, more, s')
    ensures Order(c, s')
  {
    forall k, e | 0 <= k < |s'.stages| && e in StageTasks(s'.stages[k]) ensures e.stage == s.popped + s.skipped + k {
      if k >= |s.stages| { assert s'.stages[k] == more[k - |s.stages|]; }
    }
    forall i | 0 <= i < |s.log| ensures EventOk(c, s'.planned, s.log[i]) {
      assert EventOk(c, s.planned, s.log[i]);
    }
  }

  lemma AppendInv(c: Config, s: State, more: seq<Stage<Entry>>, s': State)
    requires Inv(c, s) && Appends(s, more, s')
    ensures Inv(c, s')
  {
    hide Told;
    AppendHist(c, s, more, s');
    AppendConserved(s, more, s');
    AppendOrder(c, s, more, s');
    AppendReports(c, s, more, s');
    AppendSequenced(c, s, more, s');
    ToldSame(c, s, s');
  }

  lemma AppendSequenced(c: Config, s: State, more: seq<Stage<Entry>>, s': State)
    requires Inv(c, s) && Appends(s, more, s')
    ensures Sequenced(s')
  {
    AppendLine(c, s, more, s');
    AppendBarred(c, s, more, s');
  }

  lemma AppendLine(c: Config, s: State, more: seq<Stage<Entry>>, s': State)
    requires Inv(c, s) && Appends(s, more, s')
    ensures InLine(s'.single, Line(s'), s'.log)
  {
    hide HistOk, StagesOk, SlotsOk, Reports, Barred, Conserved, ProgressOf, Flat;
    FlatAppend(s.stages, more);
    PlacesArePlanned(s);
    assert Line(s') == Line(s) + Flat(more);
    forall k | 0 <= k < |Line(s)| ensures Line(s)[k].ticket < |s.planned| {
      assert Line(s)[k] in Line(s);
      LinePlanned(s, Line(s)[k]);
    }
    forall i | 0 <= i < |s.log| && OriginalSpawn(s.log[i]) ensures s.log[i].entry.ticket < |s.planned| {
      assert EventOk(c, s.planned, s.log[i]);
    }
    hide Line, Inv, Appends;
    GrowLine(s.single, Line(s), s.log, Flat(more), |s.planned|);
  }

  lemma GrowLine(single: bool, line: seq<Entry>, log: Log, more: seq<Entry>, bound: nat)
    requires InLine(single, line, log) && forall k :: 0 <= k < |line| ==> line[k].ticket < bound
    requires forall i :: 0 <= i < |more| ==> more[i].ticket == bound + i
    requires forall i :: 0 <= i < |log| && OriginalSpawn(log[i]) ==> log[i].entry.ticket < bound
    ensures InLine(single, line + more, log)
  {
  }

  lemma LinePlanned(s: State, e: Entry)
    requires AllPlanned(s) && e in Line(s)
    ensures e in s.planned
  {
    if e in Entries(s.active) {
      var i :| 0 <= i < |s.active| && Entries(s.active)[i] == e;
      assert s.active[i] in s.active;
    }
  }

  lemma AppendBarred(c: Config, s: State, more: seq<Stage<Entry>>, s': State)
    requires Inv(c, s) && Appends(s, more, s')
    ensures Barred(s'.planned, s'.log)
  {
    hide HistOk, Conserved, SlotsOk, Reports, InLine;
    forall j, k | 0 <= j < |s.log| && FiniteSpawn(s.log[j]) && 0 <= k < |s'.planned|
        && !s'.planned[k].plan.service && s'.planned[k].stage < s.log[j].entry.stage
      ensures EndedIn(s.log[..j], s'.planned[k])
    {
      if k >= |s.planned| {
        var e := Flat(more)[k - |s.planned|];
        assert s'.planned[k] == e && e in Flat(more);
        FlatStage(more, s.popped + s.skipped + |s.stages|, e);
        assert false;
      }
    }
  }

  lemma AppendReports(c: Config, s: State, more: seq<Stage<Entry>>, s': State)
    requires Reports(c, s) && Appends(s, more, s')
    ensures Reports(c, s')
  {
    assert forall e :: e in s.planned ==> e in s'.planned;
  }

  /** The outcomes that `es` get, none while the run is being cancelled. */
  ghost function Given(es: seq<Entry>, outcome: Option<TaskOutcome>): (rs: seq<Recorded>) {
    if outcome.None? then [] else seq(|es|, i requires 0 <= i < |es| => Recorded(es[i], outcome.value))
  }

  ghost function Ends(es: seq<Entry>): Log {
    seq(|es|, i requires 0 <= i < |es| => Terminal(es[i], Cancelled))
  }

  /** `es` are recorded as cancelled, in this order: a snapshot and an event each,
      and the given outcome. */
  ghost predicate Marks(s: State, s': State, es: seq<Entry>, outcome: Option<TaskOutcome>) {
    && s'.snapshots == s.snapshots + RetiredSnapshots(es)
    && s'.outcomes == s.outcomes + Given(es, outcome)
    && s'.log == s.log + Ends(es)
  }

  lemma MarksThen(s: State, s1: State, s2: State, a: seq<Entry>, b: seq<Entry>, outcome: Option<TaskOutcome>)
    requires Marks(s, s1, a, outcome) && Marks(s1, s2, b, outcome)
    ensures Marks(s, s2, a + b, outcome)
  {
    assert RetiredSnapshots(a + b) == RetiredSnapshots(a) + RetiredSnapshots(b);
    assert Given(a + b, outcome) == Given(a, outcome) + Given(b, outcome);
    assert Ends(a + b) == Ends(a) + Ends(b);
  }

  lemma MarksNone(s: State, s': State, outcome: Option<TaskOutcome>)
    requires s'.snapshots == s.snapshots && s'.outcomes == s.outcomes && s'.log == s.log
    ensures Marks(s, s', [], outcome)
  {
  }

  /** The first `k` queued tasks are in slots, in order. */
  ghost predicate Filled(s: State, s': State, k: int) {
    0 <= k <= |s.queued| && s' == s.(queued := s.queued[k..], active := s.active + Activated(s.queued[..k]))
  }

  lemma FilledNone(s: State)
    ensures Filled(s, s, 0)
  {
    assert s.queued[0..] == s.queued && s.active + Activated(s.queued[..0]) == s.active;
  }

  lemma FilledNext(s: State, s1: State, s2: State, k: nat)
    requires Filled(s, s1, k) && FillsSlot(s1, s2)
    ensures Filled(s, s2, k + 1)
  {
    assert s.queued[..k + 1] == s.queued[..k] + [s.queued[k]];
    assert Activated(s.queued[..k + 1]) == Activated(s.queued[..k]) + [Activate(s.queued[k])];
    assert s2.active == s.active + Activated(s.queued[..k + 1]);
  }

  lemma FilledFrame(s: State, s': State, k: int)
    requires Filled(s, s', k)
    ensures s' == s.(queued := s'.queued, active := s'.active)
  {
  }

  /** What one poll of a service that has a child does. */
  ghost predicate ServicePolled(s: State, s': State, i: nat, kept: bool)
    requires i < |s.services| && s.services[i].child.Some?
  {
    var t := s.services[i];
    var child := t.child.value;
    var entry, exhausted := t.entry, t.failures + [ServiceExhausted];
    if child.answers != [] then
      && kept && s'.outcomes == s.outcomes && s'.results == s.results && s'.log == s.log
      && s'.services == s.services[i := t.(child := Some(child.(answers := child.answers[1..])))]
    else if child.success then
      && !kept && s'.outcomes == s.outcomes + [Recorded(entry, TaskPassed)] && s'.results == s.results
      && s'.services == Without(s.services, i)
    else if t.restartsLeft > 0 then
      && kept && s'.outcomes == s.outcomes && s'.results == s.results && s'.log == s.log && t.current.Some?
      && s'.services == s.services[i := t.(child := None, current := None, restartsLeft := t.restartsLeft - 1,
                                          commands := [Shell(t.current.value)] + t.commands)]
    else
      && !kept && s'.outcomes == s.outcomes + [Recorded(entry, TaskFailed(exhausted))]
      && s'.results == s.results + [Err(ServiceExhausted)] && s'.services == Without(s.services, i)
  }

  lemma StillServing(s: State, s': State, i: nat)
    requires i < |s.services| && s.services[i].child.Some? && s.services[i].child.value.answers != []
    requires var child := s.services[i].child.value;
      s' == s.(services := s.services[i := s.services[i].(child := Some(child.(answers := child.answers[1..])))])
    ensures ServicePolled(s, s', i, true)
  {
  }

  // ----------------------------------------------- tasks that keep their failures

  /** The result a failed task without recovery is reported with: its first failure. */
  ghost function FirstErrors(ts: seq<ActiveTask>): seq<CommandResult> {
    if ts == [] then []
    else (if ts[0].failures == [] then [] else [Err(ts[0].failures[0])]) + FirstErrors(ts[1..])
  }

  ghost function FailedSnapshots(ts: seq<ActiveTask>): seq<Snapshot> {
    seq(|ts|, i requires 0 <= i < |ts| => Snapshot(ts[i].entry, Failed))
  }

  ghost function FailedRecords(ts: seq<ActiveTask>): seq<Recorded> {
    seq(|ts|, i requires 0 <= i < |ts| => Recorded(ts[i].entry, TaskFailed(ts[i].failures)))
  }

  /** `ts` are recorded as failed with the failures of their original run, in this order. */
  ghost predicate KeepFailures(s: State, s': State, ts: seq<ActiveTask>) {
    && s'.results == s.results + FirstErrors(ts)
    && s'.snapshots == s.snapshots + FailedSnapshots(ts)
    && s'.outcomes == s.outcomes + FailedRecords(ts)
  }

  lemma {:induction false} FirstErrorsAppend(a: seq<ActiveTask>, b: seq<ActiveTask>)
    ensures FirstErrors(a + b) == FirstErrors(a) + FirstErrors(b)
  {
    if a == [] {
      assert a + b == b;
    } else {
      FirstErrorsAppend(a[1..], b);
      assert (a + b)[1..] == a[1..] + b && (a + b)[0] == a[0];
    }
  }

  lemma KeepFailuresThen(s: State, s1: State, s2: State, a: seq<ActiveTask>, b: seq<ActiveTask>)
    requires KeepFailures(s, s1, a) && KeepFailures(s1, s2, b)
    ensures KeepFailures(s, s2, a + b)
  {
    FirstErrorsAppend(a, b);
    assert FailedSnapshots(a + b) == FailedSnapshots(a) + FailedSnapshots(b);
    assert FailedRecords(a + b) == FailedRecords(a) + FailedRecords(b);
  }

  lemma KeepFailuresOne(s: State, s': State, t: ActiveTask)
    requires t.failures != [] && s'.results == s.results + [Err(t.failures[0])]
    requires s'.snapshots == s.snapshots + [Snapshot(t.entry, Failed)]
    requires s'.outcomes == s.outcomes + [Recorded(t.entry, TaskFailed(t.failures))]
    ensures KeepFailures(s, s', [t])
  {
    assert FirstErrors([t]) == [Err(t.failures[0])] + FirstErrors([]);
    assert FailedSnapshots([t]) == [Snapshot(t.entry, Failed)];
    assert FailedRecords([t]) == [Recorded(t.entry, TaskFailed(t.failures))];
  }

  lemma KeepFailuresNone(s: State, s': State)
    requires s'.results == s.results && s'.snapshots == s.snapshots && s'.outcomes == s.outcomes
    ensures KeepFailures(s, s', [])
  {
  }

  ghost function Requests(ts: seq<ActiveTask>): (log: Log)
    ensures |log| == |ts|
  {
    seq(|ts|, i requires 0 <= i < |ts| => RecoveryPhase(ts[i].entry, ApprovalRequested))
  }

  lemma RequestsNext(ts: seq<ActiveTask>, i: nat)
    requires i < |ts| == |Requests(ts)|
    ensures Requests(ts)[..i + 1] == Requests(ts)[..i] + [RecoveryPhase(ts[i].entry, ApprovalRequested)]
  {
  }

  /** With every place empty, all planned tasks are settled. */
  lemma AllSettled(s: State)
    requires Conserved(s) && s.stages == [] && s.queued == [] && s.active == [] && s.pending == []
    requires s.hand == [] && s.services == []
    ensures Unsettled(s) == multiset{} && Settled(s) == multiset(s.planned)
  {
  }

  /** A task whose original commands are over, about to be deferred or recorded. */
  ghost predicate Ended(c: Config, s: State, t: ActiveTask) {
    && t.child.None? && t.validated && t.phase == Original
    && t.recovery == t.entry.plan.recovery && t.deferFailure == t.recovery.Some?
    && (t.IsService() ==> t.recovery.None?)
    && t.entry.stage + 1 == s.popped
    && ProgressOf(s.log, t.entry.ticket).Commands? && ProgressOf(s.log, t.entry.ticket).phase == Original
    && (!t.IsService() ==> OriginalOver(c, s.log, t))
  }

  /** A finite task has spawned all its commands, or failed fast, or has no directory. */
  ghost predicate OriginalOver(c: Config, log: Log, t: ActiveTask) {
    if CwdOk(c.env, t.entry) then InList(log, t) && (t.commands == [] || (c.failFast && t.failures != []))
    else t.failures == [CwdMissing] && ProgressOf(log, t.entry.ticket) == Commands(Original, 0)
  }

  /** Before any recovery the failures are those of the original commands. */
  lemma FinalOriginal(c: Config, log: Log, x: Entry)
    requires Rank(ProgressOf(log, x.ticket)) <= 3
    ensures FinalFailures(c, log, x) == OwnFailures(c, log, x)
  {
    hide ProgressOf, Failures, LastPhase, OwnFailures;
    PhaseReached(log, x.ticket);
  }

  lemma FinalRecovery(c: Config, log: Log, x: Entry)
    requires ProgressOf(log, x.ticket).Recovered?
    ensures FinalFailures(c, log, x) == OwnFailures(c, log, x) + Failures(log, x.ticket, Recovery)
  {
    hide ProgressOf, Failures, LastPhase, OwnFailures;
    PhaseReached(log, x.ticket);
  }

  lemma FinalVerification(c: Config, log: Log, x: Entry)
    requires ProgressOf(log, x.ticket).Verified?
    ensures FinalFailures(c, log, x) == Failures(log, x.ticket, Verification)
  {
    hide ProgressOf, Failures, LastPhase, OwnFailures;
    PhaseReached(log, x.ticket);
  }

  lemma EndedOwn(c: Config, s: State, t: ActiveTask)
    requires Ended(c, s, t) && !t.IsService()
    ensures t.failures == OwnFailures(c, s.log, t.entry) == FinalFailures(c, s.log, t.entry)
  {
    hide ProgressOf, Failures, LastPhase;
    FinalOriginal(c, s.log, t.entry);
  }

  /** Whoever is done and has nothing to recover may be recorded. */
  lemma EndedRecordable(c: Config, s: State, t: ActiveTask)
    requires Ended(c, s, t) && (t.failures == [] || t.recovery.None?)
    ensures MayEnd(t.entry.plan, ProgressOf(s.log, t.entry.ticket), StateOf(OutcomeOf(t.failures)))
    ensures EndOk(c, s.log, Terminal(t.entry, StateOf(OutcomeOf(t.failures))))
    ensures t.IsService() || (t.failures != [] <==> Owes(t))
  {
    hide ProgressOf, Failures;
  }

  /** Whoever is done and failed may wait for its recovery. */
  lemma EndedDefers(c: Config, s: State, t: ActiveTask, s': State)
    requires s.hand == [t] && Ended(c, s, t) && t.failures != [] && t.recovery.Some?
    requires s' == s.(hand := [], pending := s.pending + [t], log := s.log + [RecoveryPhase(t.entry, OriginalFailed)])
    ensures Defers(c, s, s')
  {
    hide ProgressOf, Failures, OwnFailures;
    EndedOwn(c, s, t);
  }

  /** The original failures stay while a task is recovered. */
  lemma OwnStays(c: Config, log: Log, now: Log, x: Entry)
    requires log <= now && Rank(ProgressOf(log, x.ticket)) >= 1 && !ProgressOf(now, x.ticket).Broken?
    ensures OwnFailures(c, now, x) == OwnFailures(c, log, x)
  {
    hide ProgressOf, Failures;
    ListLeft(log, now, x.ticket, Original);
  }

  /** Fail-fast leaves only background services, and pending recoveries if the token interrupted. */
  ghost predicate Stopped(c: Config, s: State, done: bool) {
    && s.stages == [] && s.queued == [] && s.active == []
    && (done <==> !Cut(c, s)) && (done ==> s.pending == [])
  }

  /** What the invariant says about the log as a whole. */
  lemma LogFacts(c: Config, s: State)
    requires Inv(c, s)
    ensures StageOrdered(s.log) && Barred(s.planned, s.log) && QuietAfterCancel(s.log)
    ensures s.single ==> Declared(s.log)
    ensures forall ticket :: !ProgressOf(s.log, ticket).Broken?
  {
    forall ticket ensures !ProgressOf(s.log, ticket).Broken? {
      NeverBroken(c, s, ticket);
    }
  }

  /** Every task follows its lifecycle. */
  lemma NeverBroken(c: Config, s: State, ticket: nat)
    requires Inv(c, s)
    ensures !ProgressOf(s.log, ticket).Broken?
  {
    if ticket < |s.planned| {
      var x := s.planned[ticket];
      Alone(s, x);
      if !Sits(s, x) {
        Nowhere(s, x);
        assert false;
      }
      SitsWell(c, s, x);
    } else {
      forall i | 0 <= i < |s.log| ensures !About(s.log[i], ticket) {
        assert EventOk(c, s.planned, s.log[i]);
      }
      Untouched(s.log, ticket);
    }
  }

  ghost predicate Sits(s: State, x: Entry) {
    || x in Flat(s.stages) || x in s.queued || x in s.retired
    || (exists t :: t in s.active && t.entry == x) || (exists t :: t in s.pending && t.entry == x)
    || (exists t :: t in s.hand && t.entry == x) || (exists t :: t in s.services && t.entry == x)
    || (exists y :: y in s.snapshots && y.entry == x)
  }

  lemma Nowhere(s: State, x: Entry)
    requires !Sits(s, x)
    ensures Unsettled(s)[x] + Settled(s)[x] == 0
  {
    NotAmong(s.active, x);
    NotAmong(s.pending, x);
    NotAmong(s.hand, x);
    NotAmong(s.services, x);
    assert forall i :: 0 <= i < |s.snapshots| ==>
      s.snapshots[i] in s.snapshots && Snapped(s.snapshots)[i] == s.snapshots[i].entry;
    assert x !in Snapped(s.snapshots);
  }

  lemma SitsWell(c: Config, s: State, x: Entry)
    requires HistOk(c, s) && Sits(s, x)
    ensures !ProgressOf(s.log, x.ticket).Broken?
  {
  }

  lemma PendingChildless(c: Config, s: State)
    requires Inv(c, s)
    ensures forall t :: t in s.pending ==> t.child.None?
  {
  }

  lemma HandFacts(c: Config, s: State)
    requires Inv(c, s) && s.hand != []
    ensures Live(ProgressOf(s.log, s.hand[0].entry.ticket))
  {
    assert s.hand[0] in s.hand;
  }

  lemma ServiceFacts(c: Config, s: State, i: nat)
    requires Inv(c, s) && i < |s.services|
    ensures ServiceOk(s.log, s.services[i]) && s.services[i] in s.services
  {
    assert s.services[i] in s.services;
  }

  lemma LeftIsEnded(c: Config, s: State, i: nat, t': ActiveTask, rs: seq<CommandResult>, step: TaskStep, s': State)
    requires Inv(c, s) && Leaves(c, s, i, t', rs, step, s')
    ensures Ended(c, s', t')
  {
    SlotFacts(c, s, i);
  }

  /** Inside the scheduler loop: the token is not set, and a finished stage has
      no recovery left to do. */
  ghost predicate Working(c: Config, s: State) {
    && Inv(c, s) && s.hand == [] && !Cut(c, s)
    && (s.active == [] && s.queued == [] ==> s.pending == [])
  }

  /** Every finite task is settled, and the token is not set. */
  ghost predicate Over(c: Config, s: State) {
    s.stages == [] && s.queued == [] && s.active == [] && s.pending == [] && s.hand == [] && !Cut(c, s)
  }

  // ---------------------------------------------------------- plans and reconciling

  /** A service has no finite verification boundary, so it declares no recovery. */
  ghost predicate ValidPlan(plan: seq<Stage<TaskPlan>>) {
    forall i :: 0 <= i < |Flat(plan)| && Flat(plan)[i].service ==> Flat(plan)[i].recovery.None?
  }

  lemma NumberedPlan(plan: seq<Stage<TaskPlan>>, ticket: nat, number: nat)
    requires ValidPlan(plan)
    ensures var es := Flat(Number(plan, ticket, number));
            forall i :: 0 <= i < |es| ==> es[i].ticket == ticket + i && (es[i].plan.service ==> es[i].plan.recovery.None?)
    ensures StagesFrom(Number(plan, ticket, number), number)
  {
    NumberSpec(plan, ticket, number);
  }

  ghost const EMPTY := State([], 0, 0, [], [], [], [], [], [], 0, None, 0, [], [], [], [], false, true, [], 0)

  lemma EmptyInv(c: Config)
    ensures Inv(c, EMPTY)
  {
  }

  /** A fresh run is an empty run with its plan appended. */
  lemma StartInv(c: Config, plan: seq<Stage<TaskPlan>>, stages: seq<Stage<Entry>>, s: State)
    requires ValidPlan(plan) && stages == Number(plan, 0, 0)
    requires s == EMPTY.(planned := Flat(stages), stages := stages)
    ensures Ready(c, s)
  {
    hide Inv, Number, Flat;
    EmptyInv(c);
    NumberedPlan(plan, 0, 0);
    assert EMPTY.planned + Flat(stages) == Flat(stages) && EMPTY.stages + stages == stages;
    AppendInv(c, EMPTY, stages, s);
  }

  function Names(ts: seq<ActiveTask>): (names: seq<string>)
    ensures |names| == |ts| && forall i :: 0 <= i < |ts| ==> names[i] == ts[i].entry.plan.name
  {
    seq(|ts|, i requires 0 <= i < |ts| => ts[i].entry.plan.name)
  }

  ghost function Surviving(ts: seq<ActiveTask>, stop: set<string>): seq<ActiveTask> {
    if ts == [] then []
    else (if ts[0].entry.plan.name in stop then [] else [ts[0]]) + Surviving(ts[1..], stop)
  }

  lemma SurvivingStep(ts: seq<ActiveTask>, i: nat, stop: set<string>)
    requires i < |ts|
    ensures ts[i].entry.plan.name in stop ==>
              Without(ts, i)[..i] + Surviving(Without(ts, i)[i..], stop) == ts[..i] + Surviving(ts[i..], stop)
    ensures ts[i].entry.plan.name !in stop ==>
              ts[..i + 1] + Surviving(ts[i + 1..], stop) == ts[..i] + Surviving(ts[i..], stop)
  {
    assert Without(ts, i)[..i] == ts[..i] && Without(ts, i)[i..] == ts[i + 1..];
    assert ts[i..][1..] == ts[i + 1..];
    assert ts[..i + 1] == ts[..i] + [ts[i]];
  }

  /** The first `i` services stay and are listed; those behind them are still to be looked at. */
  ghost predicate Sifted(before: seq<ActiveTask>, now: seq<ActiveTask>, i: nat, stop: set<string>, names: seq<string>) {
    i <= |now| && now[..i] + Surviving(now[i..], stop) == Surviving(before, stop) && names == Names(now[..i])
  }

  lemma SiftStart(ts: seq<ActiveTask>, stop: set<string>)
    ensures Sifted(ts, ts, 0, stop, [])
  {
    assert ts[0..] == ts && Names(ts[..0]) == [];
  }

  lemma SiftStep(before: seq<ActiveTask>, now: seq<ActiveTask>, i: nat, stop: set<string>, names: seq<string>)
    requires Sifted(before, now, i, stop, names) && i < |now|
    ensures now[i].entry.plan.name in stop ==> Sifted(before, Without(now, i), i, stop, names)
    ensures now[i].entry.plan.name !in stop ==> Sifted(before, now, i + 1, stop, names + [now[i].entry.plan.name])
  {
    hide Surviving;
    SurvivingStep(now, i, stop);
    assert Without(now, i)[..i] == now[..i];
    assert Names(now[..i + 1]) == Names(now[..i]) + [now[i].entry.plan.name];
  }

  lemma SiftEnd(before: seq<ActiveTask>, now: seq<ActiveTask>, i: nat, stop: set<string>, names: seq<string>)
    requires Sifted(before, now, i, stop, names) && i == |now|
    ensures now == Surviving(before, stop) && names == Names(now)
  {
    assert now[..i] == now && now[i..] == [] && now + [] == now;
  }
}

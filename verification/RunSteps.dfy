/** The atomic steps of a run and the proof that each keeps the invariant. */
module RunSteps {
  import opened Plan
  import opened RunLog
  import opened RunState
  import opened RunLine

  // ------------------------------------------------------------ bookkeeping

  lemma {:induction false} NoDuplicates(es: seq<Entry>, x: Entry)
    requires forall k :: 0 <= k < |es| ==> es[k].ticket == k
    ensures multiset(es)[x] == if x in es then 1 else 0
  {
    if es != [] {
      var init, last := es[..|es| - 1], es[|es| - 1];
      assert es == init + [last];
      NoDuplicates(init, x);
      if x == last { assert x !in init; }
    }
  }

  /** A planned task sits in exactly one place. */
  lemma Alone(s: State, x: Entry)
    requires PlannedOk(s) && Conserved(s) && x in s.planned
    ensures Unsettled(s)[x] + Settled(s)[x] == 1
  {
    NoDuplicates(s.planned, x);
    assert (Unsettled(s) + Settled(s))[x] == multiset(s.planned)[x];
  }

  lemma SplitAt(es: seq<Entry>, i: nat)
    requires i < |es|
    ensures multiset(es) == multiset(es[..i] + es[i + 1..]) + multiset{es[i]}
  {
    assert es == es[..i] + ([es[i]] + es[i + 1..]);
  }

  lemma EntriesSplit(ts: seq<ActiveTask>, i: nat)
    requires i < |ts|
    ensures multiset(Entries(ts)) == multiset(Entries(ts[..i] + ts[i + 1..])) + multiset{ts[i].entry}
  {
    var es := Entries(ts);
    assert Entries(ts[..i] + ts[i + 1..]) == es[..i] + es[i + 1..];
    SplitAt(es, i);
  }

  lemma EntriesSnoc(ts: seq<ActiveTask>, t: ActiveTask)
    ensures multiset(Entries(ts + [t])) == multiset(Entries(ts)) + multiset{t.entry}
  {
    assert Entries(ts + [t]) == Entries(ts) + [t.entry];
  }

  lemma EntriesHead(ts: seq<ActiveTask>)
    requires ts != []
    ensures multiset(Entries(ts)) == multiset(Entries(ts[1..])) + multiset{ts[0].entry}
  {
    assert Entries(ts) == [ts[0].entry] + Entries(ts[1..]);
  }

  lemma EntriesOne(t: ActiveTask)
    ensures multiset(Entries([t])) == multiset{t.entry}
  {
    assert Entries([t]) == [t.entry];
  }

  lemma SnappedSnoc(ss: seq<Snapshot>, x: Snapshot)
    ensures multiset(Snapped(ss + [x])) == multiset(Snapped(ss)) + multiset{x.entry}
  {
    assert Snapped(ss + [x]) == Snapped(ss) + [x.entry];
  }

  lemma EntriesUpdate(ts: seq<ActiveTask>, i: nat, t: ActiveTask)
    requires i < |ts| && t.entry == ts[i].entry
    ensures Entries(ts[i := t]) == Entries(ts)
  {
  }

  // ------------------------------------------------- histories under a step

  /** Where the task `x` may be after a step, and with what history. */
  ghost predicate MovedOk(c: Config, s: State, x: Entry) {
    && (x in Flat(s.stages) || x in s.queued ==> WaitingOk(s.log, x))
    && (forall t :: t in s.active && t.entry == x ==> ActiveOk(c, s.log, t))
    && (forall t :: t in s.pending && t.entry == x ==> PendingOk(c, Cut(c, s), s.log, t))
    && (forall t :: t in s.hand && t.entry == x ==> Live(ProgressOf(s.log, x.ticket)))
    && (forall t :: t in s.services && t.entry == x ==> ServiceOk(s.log, t))
    && (forall y :: y in s.snapshots && y.entry == x ==> ProgressOf(s.log, x.ticket) == Done(y.state))
    && (x in s.retired ==> x.plan.service && Live(ProgressOf(s.log, x.ticket)))
  }

  /** Nobody but `x` entered any place. */
  ghost predicate OthersStay(s: State, s': State, x: Entry) {
    && (forall e :: e in Flat(s'.stages) && e != x ==> e in Flat(s.stages))
    && (forall e :: e in s'.queued && e != x ==> e in s.queued)
    && (forall t :: t in s'.active && t.entry != x ==> t in s.active)
    && (forall t :: t in s'.pending && t.entry != x ==> t in s.pending)
    && (forall t :: t in s'.hand && t.entry != x ==> t in s.hand)
    && (forall t :: t in s'.services && t.entry != x ==> t in s.services)
    && (forall y :: y in s'.snapshots && y.entry != x ==> y in s.snapshots)
    && (forall e :: e in s'.retired && e != x ==> e in s.retired)
  }

  /** Whatever is in some place was planned. */
  ghost predicate AllPlanned(s: State) {
    && (forall e :: e in Flat(s.stages) ==> e in s.planned)
    && (forall e :: e in s.queued ==> e in s.planned)
    && (forall t :: t in s.active ==> t.entry in s.planned)
    && (forall t :: t in s.pending ==> t.entry in s.planned)
    && (forall t :: t in s.hand ==> t.entry in s.planned)
    && (forall t :: t in s.services ==> t.entry in s.planned)
    && (forall y :: y in s.snapshots ==> y.entry in s.planned)
    && (forall e :: e in s.retired ==> e in s.planned)
  }

  lemma PlacesArePlanned(s: State)
    requires Conserved(s)
    ensures AllPlanned(s)
  {
    var all := multiset(s.planned);
    assert multiset(Flat(s.stages)) <= all && multiset(s.queued) <= all && multiset(Entries(s.active)) <= all;
    assert multiset(Entries(s.pending)) <= all && multiset(Entries(s.hand)) <= all && multiset(Entries(s.services)) <= all;
    assert multiset(Snapped(s.snapshots)) <= all && multiset(s.retired) <= all;
    Member(Flat(s.stages), s.planned);
    Member(s.queued, s.planned);
    Member(Entries(s.active), s.planned);
    Member(Entries(s.pending), s.planned);
    Member(Entries(s.hand), s.planned);
    Member(Entries(s.services), s.planned);
    Member(Snapped(s.snapshots), s.planned);
    Member(s.retired, s.planned);
  }

  lemma Member(part: seq<Entry>, whole: seq<Entry>)
    requires multiset(part) <= multiset(whole)
    ensures forall e :: e in part ==> e in whole
  {
    forall e | e in part ensures e in whole {
      assert e in multiset(part);
      assert e in multiset(whole);
    }
  }

  ghost predicate SameHistory(log: Log, now: Log, except: nat) {
    && (forall other: nat :: other != except ==>
          && ProgressOf(now, other) == ProgressOf(log, other) && OkSpawns(now, other) == OkSpawns(log, other)
          && LastPhase(now, other) == LastPhase(log, other))
    && (forall other: nat, phase :: other != except ==> Failures(now, other, phase) == Failures(log, other, phase))
  }

  lemma OthersUnchanged(log: Log, now: Log, ticket: nat)
    requires Extends(log, now, ticket)
    ensures SameHistory(log, now, ticket)
  {
    forall other: nat | other != ticket
      ensures ProgressOf(now, other) == ProgressOf(log, other) && OkSpawns(now, other) == OkSpawns(log, other)
      ensures LastPhase(now, other) == LastPhase(log, other)
    {
      Frame(log, now, ticket, other);
    }
    forall other: nat, phase | other != ticket ensures Failures(now, other, phase) == Failures(log, other, phase) {
      Frame(log, now, ticket, other);
    }
  }

  /** A step about one task keeps the histories of all. */
  lemma HistMove(c: Config, s: State, s': State, x: Entry)
    requires PlannedOk(s) && Conserved(s) && HistOk(c, s)
    requires s'.now == s.now && x in s.planned
    requires Extends(s.log, s'.log, x.ticket)
    requires OthersStay(s, s', x) && MovedOk(c, s', x)
    ensures HistOk(c, s')
  {
    hide Conserved, ProgressOf, OkSpawns, Failures, UnstartedOk, StartedOk, SettledOk, OthersStay, MovedOk, Extends, SameHistory;
    PlacesArePlanned(s);
    OthersUnchanged(s.log, s'.log, x.ticket);
    assert forall e :: e in s.planned && e != x ==> e.ticket != x.ticket;
    UnstartedMove(c, s, s', x);
    StartedMove(c, s, s', x);
    SettledMove(c, s, s', x);
  }

  lemma UnstartedMove(c: Config, s: State, s': State, x: Entry)
    requires HistOk(c, s) && AllPlanned(s) && SameHistory(s.log, s'.log, x.ticket)
    requires forall e :: e in s.planned && e != x ==> e.ticket != x.ticket
    requires OthersStay(s, s', x) && MovedOk(c, s', x)
    ensures UnstartedOk(c, s')
  {
    hide ProgressOf, OkSpawns, Failures, PendingOk, ServiceOk;
  }

  lemma StartedMove(c: Config, s: State, s': State, x: Entry)
    requires HistOk(c, s) && AllPlanned(s) && SameHistory(s.log, s'.log, x.ticket) && s'.now == s.now
    requires forall e :: e in s.planned && e != x ==> e.ticket != x.ticket
    requires OthersStay(s, s', x) && MovedOk(c, s', x)
    ensures StartedOk(c, s')
  {
    hide ProgressOf, OkSpawns, Failures, ActiveOk, WaitingOk;
  }

  lemma SettledMove(c: Config, s: State, s': State, x: Entry)
    requires HistOk(c, s) && AllPlanned(s) && SameHistory(s.log, s'.log, x.ticket)
    requires forall e :: e in s.planned && e != x ==> e.ticket != x.ticket
    requires OthersStay(s, s', x) && MovedOk(c, s', x)
    ensures SettledOk(s')
  {
    hide ProgressOf, OkSpawns, Failures, ActiveOk, WaitingOk, PendingOk, ServiceOk;
  }

  /** A step about a task that is not over changes nothing that was told. */
  lemma ToldKept(c: Config, s: State, s': State, ticket: nat)
    requires Told(c, s) && Extends(s.log, s'.log, ticket) && !ProgressOf(s.log, ticket).Done? && s'.outcomes == s.outcomes
    ensures Told(c, s')
  {
    hide ProgressOf, Failures, LastPhase, Extends;
    OthersUnchanged(s.log, s'.log, ticket);
  }

  lemma ToldSame(c: Config, s: State, s': State)
    requires Told(c, s) && s'.log == s.log && s'.outcomes == s.outcomes
    ensures Told(c, s')
  {
  }

  /** Conservation only looks at who is where. */
  lemma SamePlaces(s: State, s': State)
    requires Conserved(s) && s'.planned == s.planned && s'.stages == s.stages && s'.queued == s.queued
    requires Entries(s'.active) == Entries(s.active) && Entries(s'.pending) == Entries(s.pending)
    requires Entries(s'.hand) == Entries(s.hand) && Entries(s'.services) == Entries(s.services)
    requires s'.snapshots == s.snapshots && s'.retired == s.retired
    ensures Conserved(s')
  {
  }

  ghost function Bit(b: bool): nat { if b then 1 else 0 }

  ghost function PlacesOf(s: State, x: Entry): nat {
    Bit(x in Flat(s.stages)) + Bit(x in s.queued) + Bit(x in Entries(s.active)) + Bit(x in Entries(s.pending))
    + Bit(x in Entries(s.hand)) + Bit(x in Entries(s.services)) + Bit(x in Snapped(s.snapshots)) + Bit(x in s.retired)
  }

  lemma OnePlace(s: State, x: Entry)
    requires PlannedOk(s) && Conserved(s) && x in s.planned
    ensures PlacesOf(s, x) <= 1
  {
    Alone(s, x);
  }

  lemma {:induction false} OnceInList(es: seq<Entry>, i: nat, j: nat)
    requires i < j < |es| && multiset(es)[es[i]] <= 1
    ensures es[i] != es[j]
  {
    assert es == es[..i] + [es[i]] + es[i + 1..];
    assert es[j] in es[i + 1..];
  }

  /** Two different slots hold different tasks. */
  lemma SlotsDiffer(s: State, i: nat, j: nat)
    requires PlannedOk(s) && Conserved(s) && i < |s.active| && j < |s.active| && i != j
    ensures s.active[i].entry != s.active[j].entry
  {
    PlacesArePlanned(s);
    Alone(s, Entries(s.active)[i]);
    Alone(s, Entries(s.active)[j]);
    if i < j { OnceInList(Entries(s.active), i, j); } else { OnceInList(Entries(s.active), j, i); }
  }

  // ------------------------------------------------------- the stage barrier

  lemma {:induction false} FlatStage(stages: seq<Stage<Entry>>, first: nat, e: Entry)
    requires StagesFrom(stages, first) && e in Flat(stages)
    ensures e.stage >= first
  {
    if e in StageTasks(stages[0]) {
    } else {
      assert StagesFrom(stages[1..], first + 1) by {
        forall k, x | 0 <= k < |stages[1..]| && x in StageTasks(stages[1..][k]) ensures x.stage == first + 1 + k {
          assert stages[1..][k] == stages[k + 1];
        }
      }
      FlatStage(stages[1..], first + 1, e);
    }
  }

  /** A finite task of a stage before the current one is nowhere but among the settled. */
  lemma EarlierSettled(c: Config, s: State, x: Entry)
    requires Places(c, s) && StagesOk(s) && x in s.planned && !x.plan.service && x.stage + 1 < s.popped
    requires forall t :: t in s.hand ==> t.IsService() || t.entry.stage + 1 == s.popped
    ensures x in Snapped(s.snapshots)
  {
    Alone(s, x);
    assert x !in s.retired && x !in s.queued;
    if x in Flat(s.stages) { FlatStage(s.stages, s.popped + s.skipped, x); }
    assert forall t :: t in s.services ==> ServiceOk(s.log, t) && t.entry.plan.service;
    NotAmong(s.active, x);
    NotAmong(s.pending, x);
    NotAmong(s.hand, x);
    NotAmong(s.services, x);
    assert Settled(s)[x] == 1;
    assert x in multiset(Snapped(s.snapshots));
  }

  lemma NotAmong(ts: seq<ActiveTask>, x: Entry)
    requires forall t :: t in ts ==> t.entry != x
    ensures multiset(Entries(ts))[x] == 0
  {
    assert forall i :: 0 <= i < |ts| ==> ts[i] in ts && Entries(ts)[i] == ts[i].entry;
    assert x !in Entries(ts);
  }

  lemma EarlierDone(c: Config, s: State)
    requires Places(c, s) && StagesOk(s) && s.popped > 0 && LogOk(c, s)
    requires forall t :: t in s.hand ==> t.IsService() || t.entry.stage + 1 == s.popped
    ensures EarlierEnded(s.planned, s.log, s.popped - 1)
  {
    hide Conserved, StagesOk;
    forall k | 0 <= k < |s.planned| && !s.planned[k].plan.service && s.planned[k].stage < s.popped - 1
      ensures EndedIn(s.log, s.planned[k])
    {
      var x := s.planned[k];
      EarlierSettled(c, s, x);
      var j :| 0 <= j < |s.snapshots| && Snapped(s.snapshots)[j] == x;
      assert s.snapshots[j] in s.snapshots;
      DoneIsEnded(s.log, x.ticket);
      var i :| 0 <= i < |s.log| && s.log[i].Terminal? && s.log[i].entry.ticket == x.ticket;
      assert EventOk(c, s.planned, s.log[i]);
    }
  }

  lemma {:induction false} AscendingPart(a: seq<Entry>, x: seq<Entry>, b: seq<Entry>)
    requires Ascending(a + x + b)
    ensures Part(a + b, a + x + b)
  {
    var whole, part := a + x + b, a + b;
    forall i, j | 0 <= i < j < |part| ensures part[i].ticket < part[j].ticket {
      var i', j' := if i < |a| then i else i + |x|, if j < |a| then j else j + |x|;
      assert part[i] == whole[i'] && part[j] == whole[j'];
    }
    forall e | e in part ensures e in whole {
      assert e in a || e in b;
    }
  }

  lemma CutOut(es: seq<Entry>, i: nat, tail: seq<Entry>)
    requires i < |es|
    ensures es + tail == es[..i] + [es[i]] + (es[i + 1..] + tail)
    ensures es[..i] + es[i + 1..] + tail == es[..i] + (es[i + 1..] + tail)
  {
    assert es == es[..i] + [es[i]] + es[i + 1..];
  }

  lemma EntriesWithout(ts: seq<ActiveTask>, i: nat)
    requires i < |ts|
    ensures Entries(Without(ts, i)) == Entries(ts)[..i] + Entries(ts)[i + 1..]
  {
  }

  /** Taking the i-th slot out of the line. */
  lemma LineWithout(s: State, i: nat, s': State)
    requires Ascending(Line(s)) && i < |s.active|
    requires s'.active == Without(s.active, i) && s'.queued == s.queued && s'.stages == s.stages
    ensures Part(Line(s'), Line(s))
  {
    hide Ascending, Flat, Part;
    EntriesWithout(s.active, i);
    LineCut(Entries(s.active), i, s.queued, Flat(s.stages));
  }

  lemma LineCut(es: seq<Entry>, i: nat, queued: seq<Entry>, later: seq<Entry>)
    requires i < |es| && Ascending(es + queued + later)
    ensures Part(es[..i] + es[i + 1..] + queued + later, es + queued + later)
  {
    hide Ascending, Part;
    var tail := queued + later;
    assert es + queued + later == es + tail;
    assert es[..i] + es[i + 1..] + queued + later == es[..i] + es[i + 1..] + tail;
    CutOut(es, i, tail);
    AscendingPart(es[..i], [es[i]], es[i + 1..] + tail);
  }

  // ------------------------------------------------------- starting a stage

  lemma ReboundsSame(limit: nat, s: State)
    ensures Rebounds(limit, s, s)
  {
  }

  lemma ReboundsThen(limit: nat, s: State, s1: State, s2: State)
    requires Rebounds(limit, s, s1) && SameStage(s1, s2)
    ensures Rebounds(limit, s, s2)
  {
  }

  lemma ReboundsAgain(limit: nat, s: State, s1: State, s2: State)
    requires Rebounds(limit, s, s1) && Rebounds(limit, s1, s2)
    ensures Rebounds(limit, s, s2)
  {
  }

  lemma ReboundsStart(limit: nat, s: State, s': State)
    requires s'.current.Some? && s'.limit == limit
    ensures Rebounds(limit, s, s')
  {
  }

  lemma OneSlotEnough(stage: Stage<Entry>, limit: Positive)
    ensures limit == 1 ==> StageLimit(stage, limit) <= 1
  {
  }

  ghost predicate StartsStage(s: State, limit: Positive, s': State) {
    && s.stages != [] && s.queued == [] && s.active == [] && s.pending == [] && s.hand == []
    && s' == s.(stages := s.stages[1..], popped := s.popped + s.skipped + 1, skipped := 0,
                queued := StageTasks(s.stages[0]), stageLimit := StageLimit(s.stages[0], limit),
                current := Some(s.stages[0]), limit := limit,
                single := s.single && StageLimit(s.stages[0], limit) <= 1)
  }

  lemma StartStagePlaces(c: Config, s: State, limit: Positive, s': State)
    requires Places(c, s) && StartsStage(s, limit, s')
    ensures Places(c, s')
  {
    assert Flat(s.stages) == StageTasks(s.stages[0]) + Flat(s'.stages);
    assert Conserved(s');
  }

  lemma StartStageOrder(c: Config, s: State, limit: Positive, s': State)
    requires Order(c, s) && StartsStage(s, limit, s')
    ensures Order(c, s')
  {
    forall k, e | 0 <= k < |s'.stages| && e in StageTasks(s'.stages[k]) ensures e.stage == s'.popped + k {
      assert s'.stages[k] == s.stages[k + 1];
    }
  }

  /** A stage starts only when nothing of the previous one is left. */
  lemma StartStageInv(c: Config, s: State, limit: Positive, s': State)
    requires Inv(c, s) && StartsStage(s, limit, s')
    ensures Inv(c, s') && AllSlots(s.stages[0], limit, s'.stageLimit)
  {
    hide ProgressOf, OkSpawns, Failures, Conserved, HistOk, Told;
    StartStagePlaces(c, s, limit, s');
    StartStageOrder(c, s, limit, s');
    StartStageSequenced(s, limit, s');
    ToldSame(c, s, s');
  }

  lemma StartStageSequenced(s: State, limit: Positive, s': State)
    requires Sequenced(s) && StartsStage(s, limit, s')
    ensures Sequenced(s')
  {
    assert Flat(s.stages) == StageTasks(s.stages[0]) + Flat(s'.stages);
    assert Line(s') == Line(s);
  }

  /** With tasks waiting and no free slot, all slots are in use. */
  lemma SlotsTaken(c: Config, s: State)
    requires Inv(c, s) && s.queued != [] && |s.active| >= s.stageLimit
    ensures s.current.Some? && AllSlots(s.current.value, s.limit, |s.active|)
  {
    hide Conserved, StagesOk, LogOk, Reports, Sequenced, HistOk;
  }

  ghost predicate FillsSlot(s: State, s': State) {
    && s.queued != [] && |s.active| < s.stageLimit && s.hand == []
    && s' == s.(queued := s.queued[1..], active := s.active + [Activate(s.queued[0])])
  }

  lemma FillSlotConserved(s: State, s': State)
    requires Conserved(s) && FillsSlot(s, s')
    ensures Conserved(s')
  {
    assert s.queued == [s.queued[0]] + s'.queued;
    EntriesSnoc(s.active, Activate(s.queued[0]));
  }

  lemma FillSlotHist(c: Config, s: State, s': State)
    requires HistOk(c, s) && FillsSlot(s, s')
    ensures HistOk(c, s')
  {
    assert WaitingOk(s.log, s.queued[0]);
    assert ActiveOk(c, s.log, Activate(s.queued[0]));
  }

  lemma OwesSnoc(ts: seq<ActiveTask>, t: ActiveTask)
    ensures AnyOwes(ts + [t]) <==> AnyOwes(ts) || Owes(t)
  {
    assert forall u :: u in ts ==> u in ts + [t];
    assert t in ts + [t];
  }

  lemma FillSlotReports(c: Config, s: State, s': State)
    requires Reports(c, s) && FillsSlot(s, s')
    ensures Reports(c, s')
  {
    OwesSnoc(s.active, Activate(s.queued[0]));
  }

  lemma FillSlotInv(c: Config, s: State, s': State)
    requires Inv(c, s) && FillsSlot(s, s')
    ensures Inv(c, s')
  {
    hide Told, HistOk, Conserved, Reports, Sequenced, EventOk, FateOk, EndOk, StageOrdered, QuietAfterCancel, StagesOk;
    FillSlotConserved(s, s');
    FillSlotHist(c, s, s');
    FillSlotStages(s, s');
    FillSlotReports(c, s, s');
    FillSlotSequenced(s, s');
    ToldSame(c, s, s');
  }

  lemma FillSlotStages(s: State, s': State)
    requires StagesOk(s) && FillsSlot(s, s')
    ensures StagesOk(s')
  {
    assert s.queued[0] in s.queued;
  }

  lemma FillSlotSequenced(s: State, s': State)
    requires Sequenced(s) && FillsSlot(s, s')
    ensures Sequenced(s')
  {
    assert Entries(s'.active) == Entries(s.active) + [s.queued[0]];
    assert s.queued == [s.queued[0]] + s'.queued;
    assert Line(s') == Line(s);
  }

  // ------------------------------------------------- advancing an active task

  datatype TaskStep = StepRunning | StepFinished | StepFailedFast

  /** Only spawn attempts of this task, in its current command list, were added to the log. */
  ghost predicate OnlySpawns(log: Log, now: Log, t: ActiveTask) {
    && Extends(log, now, t.entry.ticket)
    && forall i :: |log| <= i < |now| ==>
         && now[i].Spawn? && now[i].entry == t.entry && now[i].phase == t.phase
         && (!t.IsService() ==> now[i].index < |PhaseCommands(t.entry.plan, t.phase)|)
  }

  /** New spawn attempts have the fate the environment gave them. */
  ghost predicate Fated(env: Env, log: Log, now: Log) {
    forall i :: |log| <= i < |now| ==> FateOk(env, now[i], i)
  }

  /** The working directory is about to be found missing. */
  ghost predicate Missing(c: Config, t: ActiveTask) { !t.validated && !CwdOk(c.env, t.entry) }

  /** What one call of `AdvanceTask` does to a task: `t` in log `log` becomes
      `t'` in log `now`, with `rs` added to the results. A finite task finishes
      only with its list used up, and its failures are those of the commands spawned. */
  ghost predicate Stepped(c: Config, failFast: bool, log: Log, t: ActiveTask,
                          now: Log, t': ActiveTask, rs: seq<CommandResult>, step: TaskStep)
  {
    && t' == t.(commands := t'.commands, child := t'.child, current := t'.current,
                failures := t'.failures, validated := true, restartsLeft := t'.restartsLeft)
    && OnlySpawns(log, now, t) && Fated(c.env, log, now)
    && t.failures <= t'.failures
    && (HasErr(rs) <==> !t.deferFailure && t'.failures != t.failures)
    && ProgressOf(now, t.entry.ticket).Commands? && ProgressOf(now, t.entry.ticket).phase == t.phase
    && (step == StepRunning <==> t'.child.Some?)
    && (step == StepRunning ==> InList(now, t') && (failFast ==> t'.failures == t.failures))
    && (!t.IsService() && !Missing(c, t) ==> InList(now, t') && (step == StepFinished ==> t'.commands == []))
    && (!t.IsService() && Missing(c, t) ==>
          step != StepRunning && now == log && t'.failures == t.failures + [CwdMissing] && t'.commands == [])
    && (step == StepFinished && failFast && !(t.IsService() && t.child.Some?) ==> t'.failures == t.failures)
    && (step == StepFailedFast ==> failFast && t'.failures != t.failures)
    && (t.IsService() && t.child.None? ==>
          t'.restartsLeft == t.restartsLeft
          && OkSpawns(now, t.entry.ticket) == OkSpawns(log, t.entry.ticket) + Bit(step == StepRunning))
  }

  /** Spawning is allowed while the token is not set, for tasks of the current stage and services. */
  lemma SpawnsKeepLog(c: Config, s: State, t: ActiveTask, s': State)
    requires LogOk(c, s) && !Cut(c, s) && OnlySpawns(s.log, s'.log, t) && Fated(c.env, s.log, s'.log)
    requires t.entry in s.planned && (t.IsService() || t.entry.stage + 1 == s.popped)
    requires s'.popped == s.popped && s'.now == s.now && s'.planned == s.planned
    ensures LogOk(c, s')
  {
    var log, now := s.log, s'.log;
    assert forall i :: 0 <= i < |log| ==> now[i] == log[i] && now[..i] == log[..i];
    assert CancelSeen !in now;
  }

  /** Recovery phases and terminal records may be logged at any time. */
  lemma RecordKeepsLog(c: Config, s: State, e: Event, s': State)
    requires LogOk(c, s) && (e.RecoveryPhase? || e.Terminal?) && EventOk(c, s.planned, e) && EndOk(c, s.log, e)
    requires s'.log == s.log + [e] && s'.popped == s.popped && s'.now == s.now && s'.planned == s.planned
    ensures LogOk(c, s')
  {
    hide EventOk, EndOk, FateOk;
    GrowsByOne(c, s.planned, s.log, e);
  }

  lemma GrowsByOne(c: Config, planned: seq<Entry>, log: Log, e: Event)
    requires !e.Spawn? && EventOk(c, planned, e) && EndOk(c, log, e)
    requires forall i :: 0 <= i < |log| ==> EventOk(c, planned, log[i])
    requires forall i :: 0 <= i < |log| ==> FateOk(c.env, log[i], i)
    requires forall i :: 0 <= i < |log| ==> EndOk(c, log[..i], log[i])
    ensures forall i :: 0 <= i < |log + [e]| ==> EventOk(c, planned, (log + [e])[i])
    ensures forall i :: 0 <= i < |log + [e]| ==> FateOk(c.env, (log + [e])[i], i)
    ensures forall i :: 0 <= i < |log + [e]| ==> EndOk(c, (log + [e])[..i], (log + [e])[i])
  {
    hide EventOk, EndOk;
    var now := log + [e];
    forall i | 0 <= i < |now| ensures EventOk(c, planned, now[i]) && FateOk(c.env, now[i], i) && EndOk(c, now[..i], now[i]) {
      assert now[..i] == log[..i];
      assert i < |log| ==> now[i] == log[i];
    }
  }

  ghost function Without<T>(ts: seq<T>, i: nat): seq<T>
    requires i < |ts|
  {
    ts[..i] + ts[i + 1..]
  }

  lemma OwesSplit(ts: seq<ActiveTask>, i: nat)
    requires i < |ts|
    ensures AnyOwes(ts) <==> AnyOwes(Without(ts, i)) || Owes(ts[i])
  {
    assert ts == ts[..i] + [ts[i]] + ts[i + 1..];
    assert forall u :: u in ts <==> u in Without(ts, i) || u == ts[i];
  }

  lemma OwesUpdate(ts: seq<ActiveTask>, i: nat, t: ActiveTask)
    requires i < |ts|
    ensures AnyOwes(ts[i := t]) <==> AnyOwes(Without(ts, i)) || Owes(t)
  {
    OwesSplit(ts[i := t], i);
    assert Without(ts[i := t], i) == Without(ts, i);
  }

  lemma ErrAppend(a: seq<CommandResult>, b: seq<CommandResult>)
    ensures HasErr(a + b) <==> HasErr(a) || HasErr(b)
  {
    assert forall r :: r in a + b <==> r in a || r in b;
  }

  /** What the invariant says about the task in one slot. */
  lemma SlotFacts(c: Config, s: State, i: nat)
    requires Inv(c, s) && i < |s.active|
    ensures ActiveOk(c, s.log, s.active[i]) && s.active[i].entry.stage + 1 == s.popped && s.active[i].entry in s.planned
    ensures s.active[i].IsService() ==> !s.active[i].deferFailure && s.active[i].recovery.None?
  {
    assert s.active[i] in s.active;
    PlacesArePlanned(s);
    assert ActiveOk(c, s.log, s.active[i]);
  }

  /** A slot of the current stage spawns: with one slot it is the head of the line. */
  lemma SlotSequenced(c: Config, s: State, i: nat, line: seq<Entry>, now: Log)
    requires Inv(c, s) && i < |s.active| && OnlySpawns(s.log, now, s.active[i]) && Part(line, Line(s)) && s.hand == []
    ensures InLine(s.single, line, now) && Barred(s.planned, now)
  {
    hide HistOk, Conserved, SlotsOk, LogOk, Mirrored, ResultsOk, OutcomesOk, Reports, InLine, Barred, Line, Part, StagesOk;
    SlotFacts(c, s, i);
    OneSlot(s);
    EarlierDone(c, s);
    var x := s.active[i].entry;
    SlotInLine(s, i);
    LineSpawns(s.single, Line(s), s.log, line, now);
    BarredSpawns(s.planned, s.log, now, x);
  }

  lemma SlotInLine(s: State, i: nat)
    requires i < |s.active|
    ensures i < |Line(s)| && Line(s)[i] == s.active[i].entry && Line(s)[i] in Line(s)
  {
  }

  lemma OneSlot(s: State)
    requires SlotsOk(s) && Sequenced(s)
    ensures s.single ==> |s.active| <= 1
  {
  }

  // still running

  ghost predicate Progresses(c: Config, s: State, i: nat, t': ActiveTask, rs: seq<CommandResult>, s': State) {
    && i < |s.active| && !t'.IsService() && !Cut(c, s) && s.hand == []
    && Stepped(c, c.failFast, s.log, s.active[i], s'.log, t', rs, StepRunning)
    && s' == s.(active := s.active[i := t'], log := s'.log, results := s.results + rs)
  }

  lemma ProgressPlaces(c: Config, s: State, i: nat, t': ActiveTask, rs: seq<CommandResult>, s': State)
    requires Places(c, s) && Progresses(c, s, i, t', rs, s')
    ensures Places(c, s')
  {
    hide Conserved, ProgressOf, OkSpawns, Failures, HistOk, OthersStay, MovedOk;
    EntriesUpdate(s.active, i, t');
    SamePlaces(s, s');
    ProgressMoves(c, s, i, t', rs, s');
    HistMove(c, s, s', t'.entry);
  }

  lemma ProgressMoves(c: Config, s: State, i: nat, t': ActiveTask, rs: seq<CommandResult>, s': State)
    requires Places(c, s) && Conserved(s') && Progresses(c, s, i, t', rs, s')
    ensures t'.entry in s.planned && Extends(s.log, s'.log, t'.entry.ticket)
    ensures OthersStay(s, s', t'.entry) && MovedOk(c, s', t'.entry)
  {
    hide Conserved, ProgressOf, OkSpawns, Failures, StartedOk, SettledOk;
    var x := t'.entry;
    PlacesArePlanned(s);
    assert s.active[i] in s.active && s'.active[i] == t' && t' in s'.active;
    OnePlace(s', x);
    forall t | t in s'.active && t.entry == x ensures t == t' {
      var j :| 0 <= j < |s'.active| && s'.active[j] == t;
      if j != i { SlotsDiffer(s', i, j); }
    }
    assert ActiveOk(c, s'.log, t');
  }

  lemma ProgressOrder(c: Config, s: State, i: nat, t': ActiveTask, rs: seq<CommandResult>, s': State)
    requires Order(c, s) && Progresses(c, s, i, t', rs, s') && t'.entry in s.planned
    ensures Order(c, s')
  {
    assert s.active[i] in s.active;
    SpawnsKeepLog(c, s, s.active[i], s');
  }

  lemma ProgressReports(c: Config, s: State, i: nat, t': ActiveTask, rs: seq<CommandResult>, s': State)
    requires Reports(c, s) && Progresses(c, s, i, t', rs, s') && s.active[i].phase == Original
    ensures Reports(c, s')
  {
    ErrAppend(s.results, rs);
    OwesSplit(s.active, i);
    OwesUpdate(s.active, i, t');
  }

  lemma ProgressInv(c: Config, s: State, i: nat, t': ActiveTask, rs: seq<CommandResult>, s': State)
    requires Inv(c, s) && Progresses(c, s, i, t', rs, s')
    ensures Inv(c, s')
  {
    hide Told;
    assert s.active[i] in s.active;
    PlacesArePlanned(s);
    ProgressPlaces(c, s, i, t', rs, s');
    ProgressOrder(c, s, i, t', rs, s');
    ProgressReports(c, s, i, t', rs, s');
    ProgressSequenced(c, s, i, t', rs, s');
    SlotFacts(c, s, i);
    ToldKept(c, s, s', t'.entry.ticket);
  }

  lemma ProgressSequenced(c: Config, s: State, i: nat, t': ActiveTask, rs: seq<CommandResult>, s': State)
    requires Inv(c, s) && Progresses(c, s, i, t', rs, s')
    ensures Sequenced(s')
  {
    hide HistOk, Conserved, StagesOk, SlotsOk, LogOk, Mirrored, ResultsOk, OutcomesOk, Barred;
    EntriesUpdate(s.active, i, t');
    assert Line(s') == Line(s);
    SlotSequenced(c, s, i, Line(s), s'.log);
  }

  // a started service moves to the background

  ghost predicate Backgrounds(c: Config, s: State, i: nat, t': ActiveTask, rs: seq<CommandResult>, s': State) {
    && i < |s.active| && t'.IsService() && !Cut(c, s) && s.hand == []
    && Stepped(c, c.failFast, s.log, s.active[i], s'.log, t', rs, StepRunning)
    && s' == s.(active := Without(s.active, i), services := s.services + [t'], log := s'.log, results := s.results + rs)
  }

  lemma BackgroundConserved(c: Config, s: State, i: nat, t': ActiveTask, rs: seq<CommandResult>, s': State)
    requires Conserved(s) && Backgrounds(c, s, i, t', rs, s')
    ensures Conserved(s')
  {
    EntriesSplit(s.active, i);
    EntriesSnoc(s.services, t');
  }

  lemma BackgroundHist(c: Config, s: State, i: nat, t': ActiveTask, rs: seq<CommandResult>, s': State)
    requires Places(c, s) && Conserved(s') && Backgrounds(c, s, i, t', rs, s')
    ensures HistOk(c, s')
  {
    hide Conserved, ProgressOf, OkSpawns, Failures, HistOk, OthersStay, MovedOk, Stepped;
    BackgroundMoves(c, s, i, t', rs, s');
    HistMove(c, s, s', t'.entry);
  }

  lemma BackgroundMoves(c: Config, s: State, i: nat, t': ActiveTask, rs: seq<CommandResult>, s': State)
    requires Places(c, s) && Conserved(s') && Backgrounds(c, s, i, t', rs, s')
    ensures t'.entry in s.planned && Extends(s.log, s'.log, t'.entry.ticket)
    ensures OthersStay(s, s', t'.entry) && MovedOk(c, s', t'.entry)
  {
    hide Conserved, ProgressOf, OkSpawns, Failures, StartedOk, SettledOk;
    var x := t'.entry;
    PlacesArePlanned(s);
    assert s.active[i] in s.active && t' in s'.services;
    OnePlace(s', x);
    OnePlace(s, x);
    assert ServiceOk(s'.log, t');
  }

  lemma BackgroundOrder(c: Config, s: State, i: nat, t': ActiveTask, rs: seq<CommandResult>, s': State)
    requires Order(c, s) && Backgrounds(c, s, i, t', rs, s') && t'.entry in s.planned
    ensures Order(c, s')
  {
    SpawnsKeepLog(c, s, s.active[i], s');
  }

  lemma BackgroundReports(c: Config, s: State, i: nat, t': ActiveTask, rs: seq<CommandResult>, s': State)
    requires Reports(c, s) && Backgrounds(c, s, i, t', rs, s') && t'.entry in s.planned
    ensures Reports(c, s')
  {
  }

  lemma BackgroundInv(c: Config, s: State, i: nat, t': ActiveTask, rs: seq<CommandResult>, s': State)
    requires Inv(c, s) && Backgrounds(c, s, i, t', rs, s')
    ensures Inv(c, s')
  {
    hide HistOk, Conserved, StagesOk, SlotsOk, LogOk, Mirrored, ResultsOk, OutcomesOk, Told;
    SlotFacts(c, s, i);
    BackgroundConserved(c, s, i, t', rs, s');
    BackgroundHist(c, s, i, t', rs, s');
    BackgroundOrder(c, s, i, t', rs, s');
    BackgroundReports(c, s, i, t', rs, s');
    LineWithout(s, i, s');
    SlotSequenced(c, s, i, Line(s'), s'.log);
    ToldKept(c, s, s', t'.entry.ticket);
  }

  // a finished task is taken out of its slot

  ghost predicate Leaves(c: Config, s: State, i: nat, t': ActiveTask, rs: seq<CommandResult>, step: TaskStep, s': State) {
    && i < |s.active| && s.hand == [] && step != StepRunning && !Cut(c, s)
    && Stepped(c, c.failFast, s.log, s.active[i], s'.log, t', rs, step)
    && s' == s.(active := Without(s.active, i), hand := [t'], log := s'.log, results := s.results + rs)
  }

  lemma LeaveConserved(c: Config, s: State, i: nat, t': ActiveTask, rs: seq<CommandResult>, step: TaskStep, s': State)
    requires Conserved(s) && Leaves(c, s, i, t', rs, step, s')
    ensures Conserved(s')
  {
    EntriesSplit(s.active, i);
    EntriesOne(t');
  }

  lemma LeaveHist(c: Config, s: State, i: nat, t': ActiveTask, rs: seq<CommandResult>, step: TaskStep, s': State)
    requires Places(c, s) && Conserved(s') && Leaves(c, s, i, t', rs, step, s')
    ensures HistOk(c, s')
  {
    hide Conserved, ProgressOf, OkSpawns, Failures, HistOk, OthersStay, MovedOk, Stepped;
    LeaveMoves(c, s, i, t', rs, step, s');
    HistMove(c, s, s', t'.entry);
  }

  lemma LeaveMoves(c: Config, s: State, i: nat, t': ActiveTask, rs: seq<CommandResult>, step: TaskStep, s': State)
    requires Places(c, s) && Conserved(s') && Leaves(c, s, i, t', rs, step, s')
    ensures t'.entry in s.planned && Extends(s.log, s'.log, t'.entry.ticket)
    ensures OthersStay(s, s', t'.entry) && MovedOk(c, s', t'.entry)
  {
    hide Conserved, ProgressOf, OkSpawns, Failures, HistOk, InList, Fated, FateOk, HasErr;
    PlacesArePlanned(s);
    assert s.active[i] in s.active && t' in s'.hand;
    OnePlace(s', t'.entry);
  }

  /** With fixed results the failures of a task are the expected ones. */
  lemma {:induction false} FatedFailures(env: Env, log: Log, e: Entry)
    requires Deterministic(env) && !e.plan.service
    requires forall i :: 0 <= i < |log| ==> FateOk(env, log[i], i) && (About(log[i], e.ticket) ==> log[i].entry == e)
    requires ProgressOf(log, e.ticket).Commands? && ProgressOf(log, e.ticket).phase == Original
    ensures Failures(log, e.ticket, Original) == FailuresUpTo(env, e, ProgressOf(log, e.ticket).next)
  {
    if log != [] {
      var front, last := log[..|log| - 1], log[|log| - 1];
      assert forall i :: 0 <= i < |front| ==> front[i] == log[i];
      if About(last, e.ticket) { assert last.entry == e && FateOk(env, last, |log| - 1); }
      FatedFailures(env, front, e);
    }
  }

  lemma LeaveExpected(c: Config, s: State, i: nat, t': ActiveTask, rs: seq<CommandResult>, step: TaskStep, s': State)
    requires PlannedOk(s) && Leaves(c, s, i, t', rs, step, s') && LogOk(c, s') && Plain(c, s)
    requires ActiveOk(c, s.log, s.active[i]) && t'.entry in s.planned
    ensures t'.failures == ExpectedFailures(c.env, t'.entry)
  {
    hide ProgressOf, Failures;
    var e := t'.entry;
    if CwdOk(c.env, e) {
      forall k | 0 <= k < |s'.log| && About(s'.log[k], e.ticket) ensures s'.log[k].entry == e {
        assert EventOk(c, s.planned, s'.log[k]);
      }
      FatedFailures(c.env, s'.log, e);
    }
  }

  lemma LeaveReports(c: Config, s: State, i: nat, t': ActiveTask, rs: seq<CommandResult>, step: TaskStep, s': State)
    requires Reports(c, s) && Leaves(c, s, i, t', rs, step, s')
    requires s.active[i].phase == Original && t'.entry in s.planned
    requires Plain(c, s) ==> t'.failures == ExpectedFailures(c.env, t'.entry)
    ensures Reports(c, s')
  {
    ErrAppend(s.results, rs);
    OwesSplit(s.active, i);
    OwesSnoc([], t');
    assert [] + [t'] == [t'];
  }

  lemma LeaveOrder(c: Config, s: State, i: nat, t': ActiveTask, rs: seq<CommandResult>, step: TaskStep, s': State)
    requires Order(c, s) && Leaves(c, s, i, t', rs, step, s')
    requires t'.entry in s.planned && t'.entry.stage + 1 == s.popped && s.active[i].phase == Original
    ensures Order(c, s')
  {
    SpawnsKeepLog(c, s, s.active[i], s');
  }

  lemma LeaveInv(c: Config, s: State, i: nat, t': ActiveTask, rs: seq<CommandResult>, step: TaskStep, s': State)
    requires Inv(c, s) && Leaves(c, s, i, t', rs, step, s')
    ensures Inv(c, s')
  {
    hide HistOk, Conserved, StagesOk, SlotsOk, LogOk, Mirrored, ResultsOk, OutcomesOk, Told;
    SlotFacts(c, s, i);
    LeaveConserved(c, s, i, t', rs, step, s');
    LeaveHist(c, s, i, t', rs, step, s');
    LeaveOrder(c, s, i, t', rs, step, s');
    if Plain(c, s) { LeaveExpected(c, s, i, t', rs, step, s'); }
    LeaveReports(c, s, i, t', rs, step, s');
    LineWithout(s, i, s');
    SlotSequenced(c, s, i, Line(s'), s'.log);
    ToldKept(c, s, s', t'.entry.ticket);
  }
}

/** What holds of every run between two calls, read off the invariant that all
    operations of the executor keep. */
module RunTheorems {
  import opened Plan
  import opened RunLog
  import opened RunState
  import opened RunTrace
  import opened RunSteps
  import opened RunSettling
  import opened RunReport

  /** Every planned task is in exactly one place, once. */
  lemma TaskConservation(c: Config, s: State, x: Entry)
    requires Ready(c, s) && x in s.planned
    ensures multiset(Flat(s.stages))[x] + multiset(s.queued)[x] + multiset(Entries(s.active))[x]
          + multiset(Entries(s.pending))[x] + multiset(Entries(s.services))[x]
          + multiset(Snapped(s.snapshots))[x] + multiset(s.retired)[x] == 1
  {
    hide HistOk, Order, Reports, Sequenced;
    Alone(s, x);
    assert Entries(s.hand) == [];
  }

  // -------------------------------------------------------- schedule independence

  /** The same commands give the same results, whatever their timing. */
  ghost predicate SameResults(a: Env, b: Env) {
    (forall site :: a.verdict(site) == b.verdict(site)) && (forall ticket :: a.dirOk(ticket) == b.dirOk(ticket))
  }

  lemma {:induction false} SameFailures(a: Env, b: Env, e: Entry, k: nat)
    requires SameResults(a, b)
    ensures FailuresUpTo(a, e, k) == FailuresUpTo(b, e, k)
  {
    if k > 0 { SameFailures(a, b, e, k - 1); }
  }

  lemma SameRecords(a: Env, b: Env, es: seq<Entry>)
    requires SameResults(a, b)
    ensures ExpectedRecords(a, es) == ExpectedRecords(b, es)
  {
    forall i | 0 <= i < |es| ensures ExpectedRecords(a, es)[i] == ExpectedRecords(b, es)[i] {
      SameFailures(a, b, es[i], |es[i].plan.commands|);
    }
  }

  /** Two finished runs of one plan report the same outcomes, whatever concurrency
      limits they ran under and in whatever order their children exited. */
  lemma ScheduleIndependence(c1: Config, s1: State, c2: Config, s2: State)
    requires Ready(c1, s1) && Over(c1, s1) && !s1.cancelled && s1.retired == [] && Plain(c1, s1)
    requires Ready(c2, s2) && Over(c2, s2) && !s2.cancelled && s2.retired == [] && Plain(c2, s2)
    requires s1.planned == s2.planned && DistinctPositions(s1.planned) && SameResults(c1.env, c2.env)
    ensures SortRecords(s1.outcomes) == SortRecords(s2.outcomes)
  {
    hide Inv, Plain, ExpectedRecords, SortRecords;
    FinishedReport(c1, s1);
    FinishedReport(c2, s2);
    SameRecords(c1.env, c2.env, s1.planned);
  }

  // ---------------------------------------------------------------- order of spawns

  /** Stage barrier: when a finite task spawns a command, every finite task of an
      earlier stage has ended, and the spawns of earlier stages are all behind it. */
  lemma StageBarrier(c: Config, s: State, j: nat, x: Entry)
    requires Ready(c, s) && j < |s.log| && FiniteSpawn(s.log[j])
    requires x in s.planned && !x.plan.service && x.stage < s.log[j].entry.stage
    ensures EndedIn(s.log[..j], x)
    ensures forall phase :: Indices(s.log[..j], x.ticket, phase) == Indices(s.log, x.ticket, phase)
  {
    LogFacts(c, s);
    PlannedOwns(c, s, x);
    hide Inv;
    var k :| 0 <= k < |s.planned| && s.planned[k] == x;
    assert EndedIn(s.log[..j], s.planned[k]);
    EndedForGood(s.log, j, x);
  }

  lemma PlannedOwns(c: Config, s: State, x: Entry)
    requires Inv(c, s) && x in s.planned
    ensures Owns(s.log, x)
  {
    hide HistOk, Conserved, StagesOk, SlotsOk, Reports, Sequenced;
    forall i | 0 <= i < |s.log| && About(s.log[i], x.ticket) ensures s.log[i].entry == x {
      assert EventOk(c, s.planned, s.log[i]);
    }
  }

  /** After its terminal record a task spawns nothing. */
  lemma EndedForGood(log: Log, j: nat, x: Entry)
    requires j <= |log| && EndedIn(log[..j], x) && Owns(log, x) && !x.plan.service && !ProgressOf(log, x.ticket).Broken?
    ensures forall phase :: Indices(log[..j], x.ticket, phase) == Indices(log, x.ticket, phase)
  {
    hide Indices;
    var i :| 0 <= i < j && log[..j][i].Terminal? && log[..j][i].entry == x;
    PrefixAccepted(log, i + 1, x.ticket);
    assert log[..i + 1][..i] == log[..i] && log[..i + 1][i] == log[i];
    assert ProgressOf(log[..i + 1], x.ticket).Done?;
    assert log[..j][..i + 1] == log[..i + 1];
    RankGrows(log[..j], i + 1, x.ticket);
    forall phase ensures Indices(log[..j], x.ticket, phase) == Indices(log, x.ticket, phase) {
      IndicesFrozen(log, j, x, phase);
    }
  }

  // ------------------------------------------------------------------ outcomes

  /** In every run the outcome of a finite task that was neither cancelled nor skipped
      is told by the log: what its verification found; or the failures of its original
      commands, and of its recovery commands if it was recovered; or that its directory
      is missing. These are the failures of exactly the commands it spawned, each with
      the fate that the environment gave it. */
  lemma OutcomesTold(c: Config, s: State, r: Recorded)
    requires Ready(c, s) && r in s.outcomes && !r.entry.plan.service && (r.outcome.TaskPassed? || r.outcome.TaskFailed?)
    ensures var x := r.entry.ticket;
      var own := if CwdOk(c.env, r.entry) then Failures(s.log, x, Original) else [CwdMissing];
      r.outcome == OutcomeOf(
        match LastPhase(s.log, x)
        case Original => own
        case Recovery => own + Failures(s.log, x, Recovery)
        case Verification => Failures(s.log, x, Verification))
    ensures forall i :: 0 <= i < |s.log| ==> FateOk(c.env, s.log[i], i)
  {
    hide ProgressOf, Failures, LastPhase, Conserved, HistOk, StagesOk, SlotsOk, Reports, Sequenced;
    assert Tells(c, s.log, r);
  }

  // ------------------------------------------------------------------ commands run

  /** Of its original commands a finite task spawns 0, 1, 2 and so on; once it has
      ended without being cancelled these are none if its directory is missing,
      otherwise all of them, or a first part when fail-fast ended it. */
  lemma OriginalCommandsRun(c: Config, s: State, x: Entry)
    requires Ready(c, s) && x in s.planned && !x.plan.service
    ensures var p, n := ProgressOf(s.log, x.ticket), |Indices(s.log, x.ticket, Original)|;
      && Indices(s.log, x.ticket, Original) == Range(n) && n <= |x.plan.commands|
      && (p.Done? && p.state != Cancelled ==> Full(c, x, n))
      && (p == Done(Passed) && x.plan.recovery.None? ==> n == |x.plan.commands|)
  {
    LogFacts(c, s);
    PlannedOwns(c, s, x);
    IndicesExact(s.log, x, Original);
    IndicesWithin(c, s, x, Original);
    if ProgressOf(s.log, x.ticket).Done? { EndedFull(c, s, x); }
  }

  lemma EndedFull(c: Config, s: State, x: Entry)
    requires Inv(c, s) && x in s.planned && !x.plan.service && Owns(s.log, x) && ProgressOf(s.log, x.ticket).Done?
    ensures var p, n := ProgressOf(s.log, x.ticket), |Indices(s.log, x.ticket, Original)|;
      && (p.state != Cancelled ==> Full(c, x, n))
      && (p == Done(Passed) && x.plan.recovery.None? ==> n == |x.plan.commands|)
  {
    hide ProgressOf, Indices, HistOk, Conserved, StagesOk, SlotsOk, Reports, Sequenced, Full;
    var i := OriginalsSpawned(s.log, x);
    var front, e := s.log[..i], s.log[i];
    assert e.entry == x && EventOk(c, s.planned, e) && EndOk(c, front, e);
    PrefixAccepted(s.log, i + 1, x.ticket);
    assert s.log[..i + 1] == front + [e];
    Snoc(front, e, x.ticket);
  }

  lemma IndicesWithin(c: Config, s: State, x: Entry, phase: Phase)
    requires Inv(c, s) && x in s.planned && !x.plan.service
    requires Indices(s.log, x.ticket, phase) == Range(|Indices(s.log, x.ticket, phase)|)
    ensures |Indices(s.log, x.ticket, phase)| <= |PhaseCommands(x.plan, phase)|
  {
    hide HistOk, Conserved, StagesOk, SlotsOk, Reports, Sequenced;
    PlannedOwns(c, s, x);
    var n := |Indices(s.log, x.ticket, phase)|;
    if n > 0 {
      assert Indices(s.log, x.ticket, phase)[n - 1] == n - 1;
      IndicesMembers(s.log, x.ticket, phase, n - 1);
      var i :| 0 <= i < |s.log| && SpawnIn(s.log[i], x.ticket, phase) && s.log[i].index == n - 1;
      assert EventOk(c, s.planned, s.log[i]);
    }
  }

  /** The recovery commands, and then the original ones again, are spawned in order
      and at most once; all of them when the list is announced as passed. */
  lemma RecoveryCommandsRun(c: Config, s: State, x: Entry, phase: Phase)
    requires Ready(c, s) && x in s.planned && !x.plan.service && phase != Original
    ensures var n := |Indices(s.log, x.ticket, phase)|;
      && Indices(s.log, x.ticket, phase) == Range(n) && n <= |PhaseCommands(x.plan, phase)|
      && (forall k :: Took(s.log, k, x.ticket, FinishStep(phase)) ==> n == |PhaseCommands(x.plan, phase)|)
  {
    LogFacts(c, s);
    PlannedOwns(c, s, x);
    IndicesExact(s.log, x, phase);
    IndicesWithin(c, s, x, phase);
    hide Inv, Indices, ProgressOf;
    forall k | Took(s.log, k, x.ticket, FinishStep(phase))
      ensures |Indices(s.log, x.ticket, phase)| == |PhaseCommands(x.plan, phase)|
    {
      PassedListSpawned(s.log, k, x, phase);
    }
  }

  lemma OverSettled(c: Config, s: State, x: Entry)
    requires Inv(c, s) && Over(c, s) && x in s.planned && !x.plan.service
    ensures x in Snapped(s.snapshots) && ProgressOf(s.log, x.ticket).Done?
    ensures !c.failFast && !s.cancelled ==> ProgressOf(s.log, x.ticket).state != Cancelled
  {
    hide ProgressOf;
    Alone(s, x);
    assert x !in s.retired;
    assert forall t :: t in s.services ==> ServiceOk(s.log, t) && t.entry.plan.service;
    NotAmong(s.services, x);
    assert x in multiset(Snapped(s.snapshots));
    var i :| 0 <= i < |s.snapshots| && Snapped(s.snapshots)[i] == x;
    assert s.snapshots[i] in s.snapshots;
  }

  /** With one slot and without fail-fast, a finished run has spawned exactly the
      original commands of every finite task that has its directory, in declaration order. */
  lemma SequentialTrace(c: Config, s: State)
    requires Ready(c, s) && Over(c, s) && s.single && !c.failFast && !s.cancelled
    ensures Trace(s.log) == PlanMarks(c.env, s.planned)
  {
    forall i, j | 0 <= i < j < |s.log| && OriginalSpawn(s.log[i]) && OriginalSpawn(s.log[j])
      ensures RunTrace.Earlier(MarkOf(s.log[i]), MarkOf(s.log[j]))
    {
      DeclarationOrder(c, s, i, j);
    }
    hide Inv, Trace, PlanMarks, Indices;
    TraceStrict(s.log);
    PlannedTickets(c, s);
    PlanStrict(c.env, s.planned);
    forall m ensures m in Trace(s.log) <==> m in PlanMarks(c.env, s.planned) {
      PlanMembers(c.env, s.planned, m);
      TraceMember(c, s, m);
    }
    StrictUnique(Trace(s.log), PlanMarks(c.env, s.planned));
  }

  lemma PlannedTickets(c: Config, s: State)
    requires Inv(c, s)
    ensures Ticketed(s.planned)
  {
  }

  lemma TraceMember(c: Config, s: State, m: Mark)
    requires Ready(c, s) && Over(c, s) && !c.failFast && !s.cancelled
    ensures m in Trace(s.log) <==>
      m.ticket < |s.planned| && Runs(c.env, s.planned[m.ticket]) && m.index < |s.planned[m.ticket].plan.commands|
  {
    hide Trace, Indices, ProgressOf, HistOk, Conserved, StagesOk, SlotsOk, Reports, Sequenced;
    TraceMembers(s.log, m);
    if m in Trace(s.log) {
      var i :| 0 <= i < |s.log| && OriginalSpawn(s.log[i]) && MarkOf(s.log[i]) == m;
      assert EventOk(c, s.planned, s.log[i]);
    }
    if m.ticket < |s.planned| && !s.planned[m.ticket].plan.service {
      var x := s.planned[m.ticket];
      OriginalCommandsRun(c, s, x);
      OverSettled(c, s, x);
      PlannedOwns(c, s, x);
      TraceShows(s.log, x, m.index);
      RangeMember(|Indices(s.log, x.ticket, Original)|, m.index);
    }
  }

  lemma RangeMember(n: nat, k: nat)
    ensures k in Range(n) <==> k < n
  {
    if k < n { assert Range(n)[k] == k; }
  }

  /** For a plan of finite tasks without recoveries whose directories exist, the
      commands spawned with one slot are the flattened plan. */
  lemma SequentialCommands(c: Config, s: State)
    requires Ready(c, s) && Over(c, s) && s.single && !c.failFast && !s.cancelled
    requires forall e :: e in s.planned ==> Runs(c.env, e) && e.plan.recovery.None?
    ensures SpawnedCommands(s.log) == TaskCommands(Plans(s.planned))
  {
    SequentialTrace(c, s);
    forall i | 0 <= i < |s.log| && s.log[i].Spawn?
      ensures OriginalSpawn(s.log[i]) && s.log[i].entry in s.planned && s.log[i].index < |s.log[i].entry.plan.commands|
    {
      OnlyOriginals(c, s, i);
    }
    PlannedTickets(c, s);
    hide Inv, Trace, PlanMarks, SpawnedCommands, TaskCommands;
    SpawnedIsTrace(s.log, s.planned);
    PlanMarksCommands(c.env, s.planned, |s.planned|);
    assert s.planned[..|s.planned|] == s.planned;
  }

  lemma OnlyOriginals(c: Config, s: State, i: nat)
    requires Ready(c, s) && i < |s.log| && s.log[i].Spawn?
    requires forall e :: e in s.planned ==> !e.plan.service && e.plan.recovery.None?
    ensures OriginalSpawn(s.log[i]) && s.log[i].entry in s.planned && s.log[i].index < |s.log[i].entry.plan.commands|
  {
    assert EventOk(c, s.planned, s.log[i]);
    if s.log[i].phase != Original {
      var failed, requested, decided := RecoverySafety(c, s, i);
      PhaseNeedsRecovery(c, s, failed);
      assert false;
    }
  }

  lemma PhaseNeedsRecovery(c: Config, s: State, k: nat)
    requires Inv(c, s) && k < |s.log| && s.log[k].RecoveryPhase?
    ensures s.log[k].entry in s.planned && s.log[k].entry.plan.recovery.Some?
  {
    assert EventOk(c, s.planned, s.log[k]);
  }

  /** With one slot, original commands run in declaration order: by task, and
      within a task by command. */
  lemma DeclarationOrder(c: Config, s: State, i: nat, j: nat)
    requires Ready(c, s) && s.single && i < j < |s.log| && OriginalSpawn(s.log[i]) && OriginalSpawn(s.log[j])
    ensures var a, b := s.log[i], s.log[j];
      a.entry.ticket < b.entry.ticket || (a.entry.ticket == b.entry.ticket && a.index < b.index)
  {
    LogFacts(c, s);
    hide Inv;
    if s.log[i].entry.ticket == s.log[j].entry.ticket { SpawnsInOrder(s.log, i, j); }
  }

  /** Everything a plan of finite tasks asks for can and may run. */
  ghost predicate AllRun(env: Env, planned: seq<Entry>) {
    forall e :: e in planned ==> Runs(env, e) && e.plan.recovery.None?
  }

  /** What a finished run without fail-fast has spawned of a plan: of each finite task
      exactly its commands, none without its directory; with one slot exactly the
      flattened plan, in order. */
  lemma FinishedTrace(c: Config, s: State, plan: seq<Stage<TaskPlan>>)
    requires Ready(c, s) && Over(c, s) && !c.failFast && !s.cancelled && s.planned == Flat(Number(plan, 0, 0))
    ensures forall e :: e in s.planned && !e.plan.service ==>
      Indices(s.log, e.ticket, Original) == Range(if CwdOk(c.env, e) then |e.plan.commands| else 0)
    ensures s.single && AllRun(c.env, s.planned) ==> SpawnedCommands(s.log) == PlanCommands(plan)
  {
    forall e | e in s.planned && !e.plan.service
      ensures Indices(s.log, e.ticket, Original) == Range(if CwdOk(c.env, e) then |e.plan.commands| else 0)
    {
      OriginalCommandsRun(c, s, e);
      OverSettled(c, s, e);
    }
    if s.single && AllRun(c.env, s.planned) {
      SequentialCommands(c, s);
      NumberSpec(plan, 0, 0);
      assert Plans(s.planned) == Flat(plan);
      FlatCommands(plan);
    }
  }

  // ---------------------------------------------------------------- recovery safety

  /** A recovery or verification command is spawned only under the `Prompt` policy,
      after failure, request and approval in this order, and before any
      cancellation has been seen. */
  lemma RecoverySafety(c: Config, s: State, i: nat) returns (failed: nat, requested: nat, decided: nat)
    requires Ready(c, s) && i < |s.log| && s.log[i].Spawn? && s.log[i].phase != Original
    ensures c.policy == Prompt
    ensures failed < requested < decided < i
    ensures Took(s.log, failed, s.log[i].entry.ticket, OriginalFailed)
    ensures Took(s.log, requested, s.log[i].entry.ticket, ApprovalRequested)
    ensures Took(s.log, decided, s.log[i].entry.ticket, ApprovalDecided(Approved))
    ensures ReplyAt(c, Asked(s.log[..decided])) == Approved
    ensures forall k :: 0 <= k < i ==> s.log[k] != CancelSeen
  {
    LogFacts(c, s);
    failed, requested, decided := RecoverySpawnWasApproved(s.log, i);
    assert EventOk(c, s.planned, s.log[decided]) && EndOk(c, s.log[..decided], s.log[decided]);
  }

  /** The decision about a task is the answer to a question asked no earlier than its
      request; an approval leads to its recovery, any other answer to none. */
  ghost predicate Answered(c: Config, log: Log, ticket: nat, requested: nat, i: nat) {
    && i < |log| && Took(log, i, ticket, ApprovalDecided(ReplyAt(c, Asked(log[..i])))) && requested < Asked(log[..i])
    && if ReplyAt(c, Asked(log[..i])) == Approved then
         Gains(log[..i], log, ticket, RecoveryStarted) && exists ok :: Gains(log[..i], log, ticket, RecoveryFinished(ok))
       else ProgressOf(log, ticket) == Done(Failed) && NoRecovery(log, ticket)
  }

  /** No decision was made about a task because another recovery failed first. */
  ghost predicate LeftBehind(log: Log, ticket: nat, i: nat) {
    && i < |log| && log[i].Terminal? && log[i].state == Failed && log[i].entry.ticket == ticket
    && GaveUp(log[..i]) && NoRecovery(log, ticket)
    && forall k, d :: !Took(log, k, ticket, ApprovalDecided(d))
  }

  ghost predicate NoRecovery(log: Log, ticket: nat) {
    forall k :: 0 <= k < |log| && log[k].Spawn? && log[k].entry.ticket == ticket ==> log[k].phase == Original
  }

  /** A task whose recovery was requested, and that was not cancelled, was answered:
      it was recovered exactly when the answer was an approval, unless another
      recovery failed before its turn. */
  lemma RequestsAnswered(c: Config, s: State, requested: nat, ticket: nat) returns (i: nat)
    requires Ready(c, s) && Took(s.log, requested, ticket, ApprovalRequested)
    requires ProgressOf(s.log, ticket).Done? && ProgressOf(s.log, ticket) != Done(Cancelled)
    ensures Answered(c, s.log, ticket, requested, i) || LeftBehind(s.log, ticket, i)
  {
    hide ProgressOf, Answered, LeftBehind, HistOk, Conserved, StagesOk, SlotsOk, Reports, Sequenced, EndOk;
    LogFacts(c, s);
    i := AnsweredInLog(c, s.log, requested, ticket);
  }

  lemma AnsweredInLog(c: Config, log: Log, requested: nat, ticket: nat) returns (i: nat)
    requires forall k :: 0 <= k < |log| ==> EndOk(c, log[..k], log[k])
    requires Took(log, requested, ticket, ApprovalRequested)
    requires ProgressOf(log, ticket).Done? && ProgressOf(log, ticket) != Done(Cancelled)
    ensures Answered(c, log, ticket, requested, i) || LeftBehind(log, ticket, i)
  {
    hide ProgressOf, Gains, Asked, Rank, NoRecovery, GaveUp;
    var end := RecordedAt(log, ticket);
    NothingAfter(log, end, ticket);
    var front := log[..end];
    BeforeItsRecord(log, requested, ticket, end);
    if ProgressOf(front, ticket) == Requested {
      i := end;
      assert EndOk(c, log[..i], log[i]);
      UndecidedRecord(log, ticket, end);
    } else {
      i := DecidedAt(front, ticket);
      assert log[i] == front[i] && front[..i] == log[..i];
      assert EndOk(c, log[..i], log[i]);
      RequestedBefore(log, requested, ticket, i, end);
      DecisionFollowed(log, ticket, i, end);
    }
  }

  lemma BeforeItsRecord(log: Log, requested: nat, ticket: nat, end: nat)
    requires Took(log, requested, ticket, ApprovalRequested) && end < |log| && !ProgressOf(log, ticket).Broken?
    requires log[end].Terminal? && log[end].entry.ticket == ticket && log[end].state != Cancelled
    requires MayEnd(log[end].entry.plan, ProgressOf(log[..end], ticket), log[end].state)
    requires forall k :: end < k < |log| ==> !About(log[k], ticket)
    ensures requested < end
    ensures ProgressOf(log[..end], ticket) == Requested || 3 <= Rank(ProgressOf(log[..end], ticket)) <= 7
    ensures ProgressOf(log[..end], ticket) == Requested || ProgressOf(log[..end], ticket) == Decided(false) ==>
      log[end].state == Failed
    ensures ProgressOf(log[..end], ticket) != Decided(true) && !ProgressOf(log[..end], ticket).Commands?
  {
    var front := log[..end];
    assert requested < end by { assert About(log[requested], ticket); }
    PrefixAccepted(log, requested + 1, ticket);
    RankGrows(front, requested + 1, ticket);
    assert front[..requested + 1] == log[..requested + 1] && log[..requested + 1][..requested] == log[..requested];
  }

  lemma UndecidedRecord(log: Log, ticket: nat, end: nat)
    requires end < |log| && log[end].Terminal? && ProgressOf(log[..end], ticket) == Requested
    requires forall k :: end < k < |log| ==> !About(log[k], ticket)
    ensures NoRecovery(log, ticket) && forall k, d :: !Took(log, k, ticket, ApprovalDecided(d))
  {
    hide ProgressOf;
    var front := log[..end];
    UnapprovedSpawns(front, ticket);
    NotDecided(front, ticket);
    forall k: nat, d ensures !Took(log, k, ticket, ApprovalDecided(d)) {
      if k < end { assert !Took(front, k, ticket, ApprovalDecided(d)); }
    }
    OriginalsFrom(log, ticket, end);
  }

  lemma OriginalsFrom(log: Log, ticket: nat, end: nat)
    requires end < |log| && log[end].Terminal? && forall k :: end < k < |log| ==> !About(log[k], ticket)
    requires NoRecovery(log[..end], ticket)
    ensures NoRecovery(log, ticket)
  {
    forall k | 0 <= k < |log| && log[k].Spawn? && log[k].entry.ticket == ticket ensures log[k].phase == Original {
      assert About(log[k], ticket);
      assert log[..end][k] == log[k];
    }
  }

  /** The request came before the decision, and so before the question was closed. */
  lemma RequestedBefore(log: Log, requested: nat, ticket: nat, i: nat, end: nat)
    requires Took(log, requested, ticket, ApprovalRequested) && requested < end <= |log| && i < end
    requires ProgressOf(log[..i], ticket) == Requested && log[i].RecoveryPhase? && log[i].entry.ticket == ticket
    requires log[i].step.ApprovalDecided? && !ProgressOf(log, ticket).Broken?
    ensures requested < Asked(log[..i])
  {
    if requested > i {
      DecidedIsLater(log, i, requested, ticket);
      assert false;
    }
    AskedAfter(log[..i], requested);
  }

  lemma DecidedIsLater(log: Log, i: nat, k: nat, ticket: nat)
    requires i < k < |log| && ProgressOf(log[..i], ticket) == Requested && log[i].RecoveryPhase?
    requires log[i].entry.ticket == ticket && log[i].step.ApprovalDecided? && !ProgressOf(log, ticket).Broken?
    ensures !Took(log, k, ticket, ApprovalRequested)
  {
    PrefixAccepted(log, k + 1, ticket);
    assert log[..k + 1][..k] == log[..k] && log[..i + 1][..i] == log[..i];
    RankGrows(log[..k], i + 1, ticket);
    assert log[..k][..i + 1] == log[..i + 1];
  }

  lemma DecisionFollowed(log: Log, ticket: nat, i: nat, end: nat)
    requires i < end < |log| && ProgressOf(log[..i], ticket) == Requested && log[end].Terminal?
    requires forall k :: end < k < |log| ==> !About(log[k], ticket)
    requires var p := ProgressOf(log[..end], ticket); p == Decided(false) || p.Recovered? || p.Verified?
    ensures var p := ProgressOf(log[..end], ticket);
      && (p == Decided(false) ==> NoRecovery(log, ticket))
      && (p != Decided(false) ==>
            Gains(log[..i], log, ticket, RecoveryStarted) && exists ok :: Gains(log[..i], log, ticket, RecoveryFinished(ok)))
  {
    hide ProgressOf, Gains;
    var front := log[..end];
    var p := ProgressOf(front, ticket);
    if p == Decided(false) {
      UnapprovedSpawns(front, ticket);
      OriginalsFrom(log, ticket, end);
    } else {
      assert log[..i] <= front;
      StepsGained(log[..i], front, ticket);
      GainsLater(log[..i], front, log, ticket);
      assert Gains(log[..i], log, ticket, RecoveryFinished(if p.Recovered? then p.ok else true));
    }
  }

  /** No recovery phase of a task happens twice. */
  lemma RecoveryOnce(c: Config, s: State, i: nat, j: nat)
    requires Ready(c, s) && i < j < |s.log| && s.log[i].RecoveryPhase? && s.log[j].RecoveryPhase?
    requires s.log[i].entry.ticket == s.log[j].entry.ticket
    ensures s.log[i].step != s.log[j].step
  {
    LogFacts(c, s);
    hide Inv;
    PhasesHappenOnce(s.log, i, j);
  }

  // ----------------------------------------------------------------------- services

  /** A background service has a child or a queued command, and never more than its
      budget of successful spawns. */
  lemma ServiceBudget(c: Config, s: State, i: nat)
    requires Ready(c, s) && i < |s.services|
    ensures var t := s.services[i];
      && (t.child.Some? || t.commands != [])
      && OkSpawns(s.log, t.entry.ticket) + t.restartsLeft + (if t.child.None? then 1 else 0) == 1 + SERVICE_MAX_RESTARTS
  {
    hide Order, Reports, Sequenced, Conserved;
    ServiceFacts(c, s, i);
  }

  // --------------------------------------------------------------- concurrency bound

  /** At every point of a run, within calls and between them, the finite tasks that have
      a child number at most the limit in force when the stage was started, at most
      the tasks of the stage, and so at most one in a serial stage; what is in the
      background is a service. */
  lemma ConcurrencyBound(c: Config, s: State)
    requires Inv(c, s)
    ensures var live := LiveFinite(s.active) + LiveFinite(s.pending) + LiveFinite(s.hand);
      && (s.current.None? ==> live == 0)
      && (s.current.Some? ==>
            && live <= s.limit
            && match s.current.value case Serial(_) => live <= 1 case Parallel(_, tasks) => live <= |tasks|)
    ensures forall t :: t in s.services ==> t.IsService()
  {
    hide Conserved, StagesOk, LogOk, Reports, Sequenced, LiveFinite;
    NoneLive(c, s);
    assert forall t :: t in s.services ==> ServiceOk(s.log, t);
  }

  lemma NoneLive(c: Config, s: State)
    requires HistOk(c, s)
    ensures LiveFinite(s.pending) == 0
  {
    assert forall i :: 0 <= i < |s.pending| ==> s.pending[i] in s.pending;
    LiveNone(s.pending);
  }

  /** Whatever calls follow each other, each of which either keeps the stage or
      starts stages under the limit then in force, the limit that bounds the current
      stage is the one in force in the call that started it. */
  lemma {:induction false} BoundOverCalls(states: seq<State>, limits: seq<nat>, i: nat) returns (j: nat)
    requires |states| == |limits| + 1 && i < |states| && states[0].current.None?
    requires forall k :: 0 <= k < |limits| ==> Rebounds(limits[k], states[k], states[k + 1])
    requires states[i].current.Some?
    ensures j < i && states[i].limit == limits[j] && SameStage(states[j + 1], states[i])
    decreases i
  {
    assert Rebounds(limits[i - 1], states[i - 1], states[i]);
    if SameStage(states[i - 1], states[i]) {
      j := BoundOverCalls(states, limits, i - 1);
    } else {
      j := i - 1;
    }
  }

  /** Within a call, the child of a recovery or verification is the only finite one. */
  lemma LoneRecoveryChild(c: Config, s: State, i: nat)
    requires Inv(c, s) && i < |s.hand| && s.hand[i].phase != Original && s.hand[i].child.Some?
    ensures s.active == [] && s.queued == [] && LiveFinite(s.hand) <= 1 && LiveFinite(s.pending) == 0
    ensures i == 0 && forall j :: 0 < j < |s.hand| ==> s.hand[j].child.None?
  {
    hide Conserved, StagesOk, LogOk, Reports, Sequenced, LiveFinite;
    NoneLive(c, s);
    LiveOne(s.hand);
  }
}

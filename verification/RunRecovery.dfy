/** The tasks in hand during one recovery pass. */
module RunRecovery {
  import opened Plan
  import opened RunLog
  import opened RunState
  import opened RunLine
  import opened RunSteps
  import opened RunSettling

  /** Tasks `lo..hi` in hand are untouched deferred failures at the same point of the lifecycle. */
  ghost predicate Lined(c: Config, s: State, lo: nat, hi: nat, p: Progress) {
    hi <= |s.hand| && forall j :: lo <= j < hi ==> Lying(c, s, s.hand[j], p)
  }

  ghost predicate Lying(c: Config, s: State, t: ActiveTask, p: Progress) {
    && Deferred(t) && t.child.None? && !t.IsService() && t.entry.stage + 1 == s.popped
    && ProgressOf(s.log, t.entry.ticket) == p && t.failures == OwnFailures(c, s.log, t.entry)
  }

  lemma HandsDiffer(s: State, i: nat, j: nat)
    requires PlannedOk(s) && Conserved(s) && i < |s.hand| && j < |s.hand| && i != j
    ensures s.hand[i].entry.ticket != s.hand[j].entry.ticket
  {
    PlacesArePlanned(s);
    assert s.hand[i] in s.hand && s.hand[j] in s.hand;
    Alone(s, Entries(s.hand)[i]);
    Alone(s, Entries(s.hand)[j]);
    if i < j { OnceInList(Entries(s.hand), i, j); } else { OnceInList(Entries(s.hand), j, i); }
  }

  lemma LyingStill(c: Config, s: State, s': State, t: ActiveTask, p: Progress, ticket: nat)
    requires Lying(c, s, t, p) && SameHistory(s.log, s'.log, ticket) && t.entry.ticket != ticket && s'.popped == s.popped
    ensures Lying(c, s', t, p)
  {
    hide ProgressOf, Failures, OkSpawns, LastPhase, Deferred;
  }

  /** Working on task `i` leaves the others lying. */
  lemma LinedFrame(c: Config, s: State, i: nat, s': State, lo: nat, hi: nat, p: Progress)
    requires Inv(c, s) && i < |s.hand| && Lined(c, s, lo, hi, p) && (i < lo || hi <= i)
    requires |s'.hand| == |s.hand| && forall j :: 0 <= j < |s.hand| && j != i ==> s'.hand[j] == s.hand[j]
    requires SameHistory(s.log, s'.log, s.hand[i].entry.ticket) && s'.popped == s.popped
    ensures Lined(c, s', lo, hi, p)
  {
    hide Lying, SameHistory, Conserved, HistOk, Order, Reports, Sequenced, Told;
    forall j | lo <= j < hi ensures Lying(c, s', s'.hand[j], p) {
      HandsDiffer(s, i, j);
      LyingStill(c, s, s', s.hand[j], p, s.hand[i].entry.ticket);
    }
  }

  lemma LinedShift(c: Config, s: State, s': State, p: Progress)
    requires Inv(c, s) && s.hand != [] && Lined(c, s, 1, |s.hand|, p)
    requires s'.hand == s.hand[1..] && SameHistory(s.log, s'.log, s.hand[0].entry.ticket) && s'.popped == s.popped
    ensures Lined(c, s', 0, |s'.hand|, p)
  {
    hide Lying, SameHistory, Conserved, HistOk, Order, Reports, Sequenced, Told;
    forall j | 0 <= j < |s'.hand| ensures Lying(c, s', s'.hand[j], p) {
      HandsDiffer(s, 0, j + 1);
      LyingStill(c, s, s', s.hand[j + 1], p, s.hand[0].entry.ticket);
    }
  }

  lemma LinedObserve(c: Config, s: State, s': State, lo: nat, hi: nat, p: Progress)
    requires Observes(c, s, s') && Lined(c, s, lo, hi, p)
    ensures Lined(c, s', lo, hi, p)
  {
    forall j | lo <= j < hi ensures Lying(c, s', s'.hand[j], p) {
      Snoc(s.log, CancelSeen, s.hand[j].entry.ticket);
      assert Lying(c, s, s.hand[j], p);
    }
  }

  /** A recovery phase of the i-th task in hand is announced. */
  ghost predicate Announces(c: Config, s: State, i: nat, step: RecoveryStep, s': State) {
    && i < |s.hand| && step != OriginalFailed && s.hand[i].entry.plan.recovery.Some?
    && Live(Next(ProgressOf(s.log, s.hand[i].entry.ticket), RecoveryPhase(s.hand[i].entry, step)))
    && (step == ApprovalDecided(Approved) ==> c.policy == Prompt)
    && DecisionOk(c, s.log, RecoveryPhase(s.hand[i].entry, step))
    && s' == s.(log := s.log + [RecoveryPhase(s.hand[i].entry, step)])
  }

  lemma AnnounceInv(c: Config, s: State, i: nat, step: RecoveryStep, s': State)
    requires Inv(c, s) && Announces(c, s, i, step, s')
    ensures Inv(c, s')
    ensures ProgressOf(s'.log, s.hand[i].entry.ticket)
         == Next(ProgressOf(s.log, s.hand[i].entry.ticket), RecoveryPhase(s.hand[i].entry, step))
    ensures SameHistory(s.log, s'.log, s.hand[i].entry.ticket)
  {
    hide ProgressOf, OkSpawns, Failures, Conserved, Mirrored, ResultsOk, OutcomesOk;
    var t := s.hand[i];
    var e := RecoveryPhase(t.entry, step);
    assert t in s.hand;
    PlacesArePlanned(s);
    Snoc(s.log, e, t.entry.ticket);
    RecordKeepsLog(c, s, e, s');
    OthersUnchanged(s.log, s'.log, t.entry.ticket);
    assert s.hand[i := t] == s.hand;
    AnnounceHandles(c, s, i, step, s');
    SameLine(s, s');
    QuietSequenced(s, s');
    HandleInv(c, s, i, t, s');
  }

  lemma AnnounceHandles(c: Config, s: State, i: nat, step: RecoveryStep, s': State)
    requires StagesOk(s) && SlotsOk(s) && Announces(c, s, i, step, s')
    ensures Handles(c, s, i, s.hand[i], s')
  {
    assert s.hand[i] in s.hand;
    assert s.hand[i := s.hand[i]] == s.hand;
    Snoc(s.log, RecoveryPhase(s.hand[i].entry, step), s.hand[i].entry.ticket);
  }

  /** The first task in hand is switched to a new command list. */
  function Relisted(t: ActiveTask, phase: Phase): ActiveTask {
    t.(phase := phase, commands := PhaseCommands(t.entry.plan, phase), recovery := None, failures := [],
       current := None, child := None, total := |PhaseCommands(t.entry.plan, phase)|, deferFailure := false)
  }

  lemma RelistInv(c: Config, s: State, phase: Phase, s': State)
    requires Inv(c, s) && s.hand != [] && phase != Original && !Owes(s.hand[0]) && !s.hand[0].IsService() && s.hand[0].validated
    requires s.hand[0].entry.plan.recovery.Some? && s.hand[0].entry.stage + 1 == s.popped
    requires ProgressOf(s.log, s.hand[0].entry.ticket) == Commands(phase, 0)
    requires s' == s.(hand := s.hand[0 := Relisted(s.hand[0], phase)])
    ensures Inv(c, s') && InList(s'.log, s'.hand[0])
  {
    hide ProgressOf, Failures;
    var t := s.hand[0];
    NoFailuresYet(s.log, t.entry.ticket, phase);
    assert Relisted(t, phase).failures + ToCome(Relisted(t, phase)) == [];
    HandleInv(c, s, 0, Relisted(t, phase), s');
  }

  /** A recovery command list advances: the first task in hand has the only child. */
  lemma RecoverInv(c: Config, s: State, t': ActiveTask, rs: seq<CommandResult>, step: TaskStep, s': State)
    requires Inv(c, s) && s.hand != [] && s.hand[0].phase != Original && !Cut(c, s)
    requires s.hand[0].entry.plan.recovery.Some? && s.active == [] && s.queued == []
    requires Lined(c, s, 1, |s.hand|, Requested)
    requires Stepped(c, true, s.log, s.hand[0], s'.log, t', rs, step)
    requires s' == s.(hand := s.hand[0 := t'], log := s'.log)
    ensures Inv(c, s') && SameHistory(s.log, s'.log, t'.entry.ticket)
  {
    assert s.hand[0] in s.hand;
    PlacesArePlanned(s);
    SpawnsKeepLog(c, s, s.hand[0], s');
    OthersUnchanged(s.log, s'.log, t'.entry.ticket);
    assert forall j :: 0 < j < |s.hand| ==> Lying(c, s, s.hand[j], Requested);
    RecoverHandles(c, s, t', rs, step, s');
    RecoverSequenced(c, s, t', s');
    HandleInv(c, s, 0, t', s');
  }

  lemma RecoverSequenced(c: Config, s: State, t': ActiveTask, s': State)
    requires Inv(c, s) && s.hand != [] && s.hand[0].phase != Original && OnlySpawns(s.log, s'.log, s.hand[0])
    requires Lined(c, s, 1, |s.hand|, Requested)
    requires s' == s.(hand := s.hand[0 := t'], log := s'.log)
    ensures Sequenced(s')
  {
    hide Conserved, SlotsOk, Reports, Barred, Mirrored, ResultsOk, OutcomesOk;
    forall t | t in s.hand ensures t.IsService() || t.entry.stage + 1 == s.popped {
      var j :| 0 <= j < |s.hand| && s.hand[j] == t;
      if j > 0 { assert Lying(c, s, s.hand[j], Requested); }
    }
    assert s.hand[0] in s.hand && s.hand[0].entry.stage + 1 == s.popped;
    EarlierDone(c, s);
    BarredSpawns(s.planned, s.log, s'.log, s.hand[0].entry);
    LineKept(s.single, Line(s), s.log, Line(s'), s'.log);
  }

  lemma RecoverHandles(c: Config, s: State, t': ActiveTask, rs: seq<CommandResult>, step: TaskStep, s': State)
    requires StagesOk(s) && s.hand != [] && s.hand[0].phase != Original
    requires s.hand[0].entry.plan.recovery.Some? && s.active == [] && s.queued == []
    requires forall j :: 0 < j < |s.hand| ==> s.hand[j].child.None?
    requires Stepped(c, true, s.log, s.hand[0], s'.log, t', rs, step)
    requires s' == s.(hand := s.hand[0 := t'], log := s'.log)
    ensures Handles(c, s, 0, t', s')
  {
    assert s.hand[0] in s.hand;
  }

  /** Replacing only bookkeeping of a recovering task: child gone, commands or failures rewritten. */
  lemma RewriteInv(c: Config, s: State, t': ActiveTask, s': State)
    requires Inv(c, s) && s.hand != [] && s.hand[0].phase != Original && s.hand[0].entry.plan.recovery.Some?
    requires t' == s.hand[0].(child := None, commands := t'.commands, failures := t'.failures)
    requires s' == s.(hand := s.hand[0 := t'])
    ensures Inv(c, s')
  {
    assert s.hand[0] in s.hand;
    HandleInv(c, s, 0, t', s');
  }

  /** The step that announces how the current list of a task ended. */
  function EndStep(t: ActiveTask): RecoveryStep {
    if t.phase == Recovery then RecoveryFinished(t.failures == []) else VerificationFinished(t.failures == [])
  }

  lemma EndAnnounced(log: Log, t: ActiveTask)
    requires InList(log, t) && t.phase != Original && !t.IsService() && t.child.None? && (t.failures == [] ==> t.commands == [])
    ensures t.failures == Failures(log, t.entry.ticket, t.phase)
    ensures Next(ProgressOf(log, t.entry.ticket), RecoveryPhase(t.entry, EndStep(t)))
         == if t.phase == Recovery then Recovered(t.failures == []) else Verified(t.failures == [])
  {
    hide ProgressOf, Failures;
  }

  /** The first task in hand is being recovered or verified; the others wait. */
  ghost predicate Recovering(c: Config, s: State, task: ActiveTask) {
    && s.hand != [] && s.hand[0] == task && task.phase != Original && task.validated && !task.deferFailure
    && !task.IsService() && task.entry.plan.recovery.Some? && task.entry.stage + 1 == s.popped
    && s.active == [] && s.queued == [] && s.pending == []
    && Lined(c, s, 1, |s.hand|, Requested)
  }

  // ------------------------------------------------------------- an approved pass

  /** An approved job was recovered, and verified if that passed: its outcome and its
      result tell what came of it. */
  ghost predicate Treated(log: Log, now: Log, t: ActiveTask, o: Recorded, r: CommandResult) {
    var x := t.entry.ticket;
    var recovery, found := Failures(now, x, Recovery), Failures(now, x, Verification);
    && ProgressOf(now, x).Done?
    && Gains(log, now, x, ApprovalDecided(Approved)) && Gains(log, now, x, RecoveryStarted)
    && Gains(log, now, x, RecoveryFinished(recovery == []))
    && if recovery != [] then
         o == Recorded(t.entry, TaskFailed(t.failures + recovery)) && r == Err(recovery[|recovery| - 1])
       else
         && Gains(log, now, x, VerificationStarted) && Gains(log, now, x, VerificationFinished(found == []))
         && if found == [] then o == Recorded(t.entry, TaskPassed) && r == Ok
            else o == Recorded(t.entry, TaskFailed(found)) && r == Err(found[|found| - 1])
  }

  /** A job that nothing was decided about keeps the failures of its original run. */
  ghost predicate GivenUp(now: Log, t: ActiveTask, o: Recorded, r: CommandResult) {
    && o == Recorded(t.entry, TaskFailed(t.failures)) && t.failures != [] && r == Err(t.failures[0])
    && forall k, d :: !Took(now, k, t.entry.ticket, ApprovalDecided(d))
  }

  ghost predicate RecoveryPassed(now: Log, t: ActiveTask) { Failures(now, t.entry.ticket, Recovery) == [] }

  /** `n` more outcomes and results, behind those there were. */
  ghost predicate Grown(s: State, s': State, n: nat) {
    && s.log <= s'.log
    && s.outcomes <= s'.outcomes && |s'.outcomes| == |s.outcomes| + n
    && s.results <= s'.results && |s'.results| == |s.results| + n
  }

  ghost predicate JobTreated(s: State, s': State, t: ActiveTask, i: nat)
    requires |s.outcomes| + i < |s'.outcomes| && |s.results| + i < |s'.results|
  {
    Treated(s.log, s'.log, t, s'.outcomes[|s.outcomes| + i], s'.results[|s.results| + i])
  }

  ghost predicate JobGivenUp(s: State, s': State, t: ActiveTask, i: nat)
    requires |s.outcomes| + i < |s'.outcomes| && |s.results| + i < |s'.results|
  {
    GivenUp(s'.log, t, s'.outcomes[|s.outcomes| + i], s'.results[|s.results| + i])
  }

  /** The first `k` jobs were treated, one after the other, and every recovery passed. */
  ghost predicate PassedSoFar(s: State, s': State, tasks: seq<ActiveTask>, k: nat) {
    && k <= |tasks| && Grown(s, s', k)
    && forall i :: 0 <= i < k ==> JobTreated(s, s', tasks[i], i) && RecoveryPassed(s'.log, tasks[i])
  }

  /** A whole approved pass: `k` jobs were treated, and only the last of them may have
      failed its recovery; the jobs behind such a failure were given up. */
  ghost predicate RecoveryPass(s: State, s': State, tasks: seq<ActiveTask>, k: nat) {
    && 1 <= k <= |tasks| && Grown(s, s', |tasks|)
    && (forall i :: 0 <= i < k ==> JobTreated(s, s', tasks[i], i))
    && (forall i :: 0 <= i < k - 1 ==> RecoveryPassed(s'.log, tasks[i]))
    && (k < |tasks| ==> !RecoveryPassed(s'.log, tasks[k - 1]))
    && forall i :: k <= i < |tasks| ==> JobGivenUp(s, s', tasks[i], i)
  }

  /** The pass was cut short: `tasks` are pending again, with no outcome yet. */
  ghost predicate Resumable(s: State, s': State, tasks: seq<ActiveTask>) {
    Onward(s.log, s'.log) && s'.outcomes == s.outcomes && s'.results == s.results && Entries(s'.pending) == Entries(tasks)
  }

  ghost predicate Accepted(log: Log) { forall ticket :: !ProgressOf(log, ticket).Broken? }

  lemma IsAccepted(c: Config, s: State)
    requires Inv(c, s)
    ensures Accepted(s.log)
  {
    LogFacts(c, s);
  }

  lemma TreatedKept(base: Log, log: Log, now: Log, later: Log, t: ActiveTask, o: Recorded, r: CommandResult)
    requires Treated(log, now, t, o, r) && base <= log && now <= later && Accepted(later)
    ensures Treated(base, later, t, o, r) && (RecoveryPassed(later, t) <==> RecoveryPassed(now, t))
  {
    hide ProgressOf, Failures, Gains;
    var x := t.entry.ticket;
    DoneStays(now, later, x);
    GainsLater(log, now, later, x);
    GainsSooner(base, log, later, x);
  }

  lemma GainsSooner(base: Log, log: Log, now: Log, ticket: nat)
    requires base <= log
    ensures forall step :: Gains(log, now, ticket, step) ==> Gains(base, now, ticket, step)
  {
    forall step | Gains(log, now, ticket, step) ensures Gains(base, now, ticket, step) {
      var k :| |log| <= k < |now| && Took(now, k, ticket, step);
    }
  }

  lemma PassNone(s: State, tasks: seq<ActiveTask>)
    ensures PassedSoFar(s, s, tasks, 0)
  {
  }

  /** One more job treated. */
  lemma PassNext(s: State, mid: State, s': State, tasks: seq<ActiveTask>, k: nat)
    requires PassedSoFar(s, mid, tasks, k) && k < |tasks| && Accepted(s'.log)
    requires Grown(mid, s', 1) && JobTreated(mid, s', tasks[k], 0) && RecoveryPassed(s'.log, tasks[k])
    ensures PassedSoFar(s, s', tasks, k + 1)
  {
    hide Treated, RecoveryPassed, Accepted;
    forall i | 0 <= i < k + 1 ensures JobTreated(s, s', tasks[i], i) && RecoveryPassed(s'.log, tasks[i]) {
      JobKept(s, mid, s', tasks, k, i);
    }
  }

  lemma JobKept(s: State, mid: State, s': State, tasks: seq<ActiveTask>, k: nat, i: nat)
    requires PassedSoFar(s, mid, tasks, k) && i <= k < |tasks| && Accepted(s'.log)
    requires mid.outcomes < s'.outcomes && mid.results < s'.results && mid.log <= s'.log
    requires JobTreated(mid, s', tasks[k], 0)
    ensures JobTreated(s, s', tasks[i], i) && (i < k ==> RecoveryPassed(s'.log, tasks[i]))
  {
    hide Treated, RecoveryPassed, Accepted;
    var o, r := s'.outcomes[|s.outcomes| + i], s'.results[|s.results| + i];
    if i < k {
      assert JobTreated(s, mid, tasks[i], i);
      TreatedKept(s.log, s.log, mid.log, s'.log, tasks[i], o, r);
    } else {
      TreatedKept(s.log, mid.log, s'.log, s'.log, tasks[i], o, r);
    }
  }

  /** The next recovery fails, which gives up the rest. */
  lemma PassFails(s: State, mid: State, s': State, tasks: seq<ActiveTask>, k: nat)
    requires PassedSoFar(s, mid, tasks, k) && k < |tasks| && Accepted(s'.log)
    requires RecoveryPass(mid, s', tasks[k..], 1) && !RecoveryPassed(s'.log, tasks[k])
    ensures RecoveryPass(s, s', tasks, k + 1)
  {
    hide Treated, RecoveryPassed, Accepted, GivenUp;
    assert tasks[k..][0] == tasks[k];
    assert JobTreated(mid, s', tasks[k..][0], 0);
    forall i | 0 <= i < k + 1 ensures JobTreated(s, s', tasks[i], i) && (i < k ==> RecoveryPassed(s'.log, tasks[i])) {
      JobKept(s, mid, s', tasks, k, i);
    }
    forall i | k + 1 <= i < |tasks| ensures JobGivenUp(s, s', tasks[i], i) {
      assert JobGivenUp(mid, s', tasks[k..][i - k], i - k);
    }
  }

  lemma PassWhole(s: State, s': State, tasks: seq<ActiveTask>)
    requires PassedSoFar(s, s', tasks, |tasks|) && tasks != []
    ensures RecoveryPass(s, s', tasks, |tasks|)
  {
    hide Treated, RecoveryPassed;
  }

  /** Asking for approval comes before the pass. */
  lemma PassFrom(s: State, s1: State, s': State, tasks: seq<ActiveTask>, k: nat)
    requires s.log <= s1.log && s1.outcomes == s.outcomes && s1.results == s.results && Accepted(s'.log)
    ensures RecoveryPass(s1, s', tasks, k) ==> RecoveryPass(s, s', tasks, k)
    ensures PassedSoFar(s1, s', tasks, k) ==> PassedSoFar(s, s', tasks, k)
  {
    hide Treated, RecoveryPassed, Accepted, GivenUp;
    if RecoveryPass(s1, s', tasks, k) {
      forall i | 0 <= i < k ensures JobTreated(s, s', tasks[i], i) { JobFrom(s, s1, s', tasks[i], i); }
      forall i | k <= i < |tasks| ensures JobGivenUp(s, s', tasks[i], i) { assert JobGivenUp(s1, s', tasks[i], i); }
    }
    if PassedSoFar(s1, s', tasks, k) {
      forall i | 0 <= i < k ensures JobTreated(s, s', tasks[i], i) { JobFrom(s, s1, s', tasks[i], i); }
    }
  }

  lemma JobFrom(s: State, s1: State, s': State, t: ActiveTask, i: nat)
    requires s.log <= s1.log && s1.outcomes == s.outcomes && s1.results == s.results && Accepted(s'.log)
    requires |s.outcomes| + i < |s'.outcomes| && |s.results| + i < |s'.results| && JobTreated(s1, s', t, i)
    ensures JobTreated(s, s', t, i)
  {
    hide Treated, RecoveryPassed, Accepted;
    TreatedKept(s.log, s1.log, s'.log, s'.log, t, s'.outcomes[|s.outcomes| + i], s'.results[|s.results| + i]);
  }

  ghost function FailedEnds(ts: seq<ActiveTask>): (log: Log)
    ensures |log| == |ts|
  {
    seq(|ts|, i requires 0 <= i < |ts| => Terminal(ts[i].entry, Failed))
  }

  lemma FailedEndsNext(log: Log, ts: seq<ActiveTask>, i: nat)
    requires i < |ts| == |FailedEnds(ts)|
    ensures log + FailedEnds(ts)[..i] + [Terminal(ts[i].entry, Failed)] == log + FailedEnds(ts)[..i + 1]
  {
  }

  /** The first `i` jobs were given up. */
  ghost predicate EndedSoFar(s: State, s': State, ts: seq<ActiveTask>, i: nat) {
    i <= |ts| && KeepFailures(s, s', ts[..i]) && s'.log == s.log + FailedEnds(ts)[..i]
  }

  lemma EndedNone(s: State, ts: seq<ActiveTask>)
    ensures EndedSoFar(s, s, ts, 0)
  {
    KeepFailuresNone(s, s);
  }

  lemma EndedNext(s: State, s1: State, s2: State, ts: seq<ActiveTask>, i: nat)
    requires EndedSoFar(s, s1, ts, i) && i < |ts| && KeepFailures(s1, s2, [ts[i]])
    requires s2.log == s1.log + [Terminal(ts[i].entry, Failed)]
    ensures EndedSoFar(s, s2, ts, i + 1)
  {
    hide KeepFailures;
    KeepFailuresThen(s, s1, s2, ts[..i], [ts[i]]);
    assert ts[..i + 1] == ts[..i] + [ts[i]];
    FailedEndsNext(s.log, ts, i);
  }

  lemma EndedAll(s: State, s': State, ts: seq<ActiveTask>)
    requires EndedSoFar(s, s', ts, |ts|)
    ensures KeepFailures(s, s', ts) && s'.log == s.log + FailedEnds(ts)
  {
    assert ts[..|ts|] == ts && FailedEnds(ts)[..|ts|] == FailedEnds(ts);
  }

  lemma RestWaits(c: Config, s: State, tasks: seq<ActiveTask>)
    requires tasks != [] && s.hand == tasks[1..] && Lined(c, s, 0, |s.hand|, Requested)
    ensures forall i :: 0 < i < |tasks| ==> tasks[i].failures != [] && ProgressOf(s.log, tasks[i].entry.ticket) == Requested
  {
    forall i | 0 < i < |tasks| ensures tasks[i].failures != [] && ProgressOf(s.log, tasks[i].entry.ticket) == Requested {
      assert Lying(c, s, s.hand[i - 1], Requested);
    }
  }

  /** A failed recovery of the first job and the others recorded behind it. */
  lemma PassGivenUp(s: State, mid: State, s': State, tasks: seq<ActiveTask>)
    requires tasks != [] && Grown(s, mid, 1) && JobTreated(s, mid, tasks[0], 0) && !RecoveryPassed(mid.log, tasks[0])
    requires forall i :: 0 < i < |tasks| ==> tasks[i].failures != [] && ProgressOf(mid.log, tasks[i].entry.ticket) == Requested
    requires KeepFailures(mid, s', tasks[1..]) && s'.log == mid.log + FailedEnds(tasks[1..]) && Accepted(s'.log)
    ensures RecoveryPass(s, s', tasks, 1) && !RecoveryPassed(s'.log, tasks[0])
  {
    hide Treated, RecoveryPassed, Accepted, ProgressOf;
    FirstErrorsAll(tasks[1..]);
    TreatedKept(s.log, s.log, mid.log, s'.log, tasks[0], mid.outcomes[|s.outcomes|], mid.results[|s.results|]);
    forall i | 1 <= i < |tasks| ensures JobGivenUp(s, s', tasks[i], i) {
      var rest := tasks[1..];
      assert rest[i - 1] == tasks[i];
      assert s'.outcomes[|s.outcomes| + i] == FailedRecords(rest)[i - 1];
      assert s'.results[|s.results| + i] == FirstErrors(rest)[i - 1];
      UndecidedEnd(mid.log, tasks[1..], tasks[i]);
    }
  }

  lemma {:induction false} FirstErrorsAll(ts: seq<ActiveTask>)
    requires forall i :: 0 <= i < |ts| ==> ts[i].failures != []
    ensures |FirstErrors(ts)| == |ts| && forall i :: 0 <= i < |ts| ==> FirstErrors(ts)[i] == Err(ts[i].failures[0])
  {
    if ts != [] { FirstErrorsAll(ts[1..]); }
  }

  lemma UndecidedEnd(log: Log, ts: seq<ActiveTask>, t: ActiveTask)
    requires ProgressOf(log, t.entry.ticket) == Requested
    ensures forall k, d :: !Took(log + FailedEnds(ts), k, t.entry.ticket, ApprovalDecided(d))
  {
    NotDecided(log, t.entry.ticket);
    forall k: nat, d ensures !Took(log + FailedEnds(ts), k, t.entry.ticket, ApprovalDecided(d)) {
      if k < |log| { assert !Took(log, k, t.entry.ticket, ApprovalDecided(d)); }
    }
  }

  /** The log of a pass without an approval: decision and terminal record of each job. */
  ghost function Refusals(ts: seq<ActiveTask>, decision: ApprovalDecision): (log: Log)
    ensures |log| == 2 * |ts|
  {
    if ts == [] then []
    else
      var last := ts[|ts| - 1].entry;
      Refusals(ts[..|ts| - 1], decision) + [RecoveryPhase(last, ApprovalDecided(decision)), Terminal(last, Failed)]
  }

  lemma RefusalsNext(log: Log, ts: seq<ActiveTask>, i: nat, decision: ApprovalDecision)
    requires i < |ts|
    ensures log + Refusals(ts[..i], decision) + [RecoveryPhase(ts[i].entry, ApprovalDecided(decision))]
            + [Terminal(ts[i].entry, Failed)]
         == log + Refusals(ts[..i + 1], decision)
  {
    assert ts[..i + 1][..i] == ts[..i];
  }

  // ------------------------------------------------------------- the pass as a whole

  /** What the approval adapter answers to these jobs. */
  function ReplyTo(c: Config, log: Log, tasks: seq<ActiveTask>): ApprovalDecision { ReplyAt(c, |log| + |tasks|) }

  /** The recovery pass over `tasks` that was not interrupted. */
  ghost predicate Resolved(c: Config, s: State, s': State, tasks: seq<ActiveTask>, treated: nat) {
    if tasks == [] then s'.log == s.log && s'.outcomes == s.outcomes && s'.results == s.results
    else if ReplyTo(c, s.log, tasks) == Approved then RecoveryPass(s, s', tasks, treated)
    else KeepFailures(s, s', tasks) && s'.log == s.log + Requests(tasks) + Refusals(tasks, ReplyTo(c, s.log, tasks))
  }

  /** The pass was interrupted when `k` jobs had been treated; the others are pending again. */
  ghost predicate CutAfter(s: State, s': State, tasks: seq<ActiveTask>, k: nat) {
    PassedSoFar(s, s', tasks, k) && Entries(s'.pending) == Entries(tasks[k..])
  }

  lemma CutAtOnce(s: State, s': State, tasks: seq<ActiveTask>)
    requires s.log <= s'.log && s'.outcomes == s.outcomes && s'.results == s.results && s'.pending == tasks
    ensures CutAfter(s, s', tasks, 0)
  {
    assert tasks[0..] == tasks;
  }

  lemma PassCut(s: State, mid: State, s': State, tasks: seq<ActiveTask>, k: nat)
    requires PassedSoFar(s, mid, tasks, k) && Resumable(mid, s', tasks[k..]) && Accepted(s'.log)
    ensures CutAfter(s, s', tasks, k)
  {
    hide Treated, RecoveryPassed, Accepted;
    forall i | 0 <= i < k ensures JobTreated(s, s', tasks[i], i) && RecoveryPassed(s'.log, tasks[i]) {
      assert JobTreated(s, mid, tasks[i], i);
      TreatedKept(s.log, s.log, mid.log, s'.log, tasks[i], s'.outcomes[|s.outcomes| + i], s'.results[|s.results| + i]);
    }
  }

  lemma CutFrom(s: State, s1: State, s': State, tasks: seq<ActiveTask>, k: nat)
    requires s.log <= s1.log && s1.outcomes == s.outcomes && s1.results == s.results && Accepted(s'.log)
    ensures CutAfter(s1, s', tasks, k) ==> CutAfter(s, s', tasks, k)
  {
    PassFrom(s, s1, s', tasks, k);
  }

  lemma SameEntries(t: ActiveTask, t': ActiveTask, rest: seq<ActiveTask>)
    requires t'.entry == t.entry
    ensures Entries([t'] + rest) == Entries([t] + rest)
  {
  }

  /** The verification of `x` ran between the two logs, and then `x` was recorded. */
  ghost predicate VerifiedIn(log: Log, now: Log, x: Entry, found: seq<Failure>) {
    && log < now && now[|now| - 1] == Terminal(x, StateOf(OutcomeOf(found)))
    && ProgressOf(now[..|now| - 1], x.ticket) == Verified(found == [])
    && found == Failures(now[..|now| - 1], x.ticket, Verification)
    && log <= now[..|now| - 1]
  }

  lemma VerifiedMayEnd(plan: TaskPlan, found: seq<Failure>)
    ensures MayEnd(plan, Verified(found == []), StateOf(OutcomeOf(found)))
  {
  }

  lemma VerifiedThen(log: Log, front: Log, x: Entry, found: seq<Failure>)
    requires log <= front && ProgressOf(front, x.ticket) == Verified(found == [])
    requires found == Failures(front, x.ticket, Verification)
    ensures VerifiedIn(log, front + [Terminal(x, StateOf(OutcomeOf(found)))], x, found)
  {
    hide ProgressOf, Failures;
    var now := front + [Terminal(x, StateOf(OutcomeOf(found)))];
    assert now[..|now| - 1] == front;
  }

  lemma UnrecoveredTreated(base: Log, log: Log, t: ActiveTask, fs: seq<Failure>)
    requires base <= log && ProgressOf(base, t.entry.ticket) == Requested && fs != []
    requires ProgressOf(log, t.entry.ticket) == Recovered(false) && fs == Failures(log, t.entry.ticket, Recovery)
    ensures var now := log + [Terminal(t.entry, Failed)];
      && Treated(base, now, t, Recorded(t.entry, TaskFailed(t.failures + fs)), Err(fs[|fs| - 1]))
      && !RecoveryPassed(now, t)
  {
    hide ProgressOf, Failures, Gains;
    var x, now := t.entry.ticket, log + [Terminal(t.entry, Failed)];
    StepsGained(base, log, x);
    GainsLater(base, log, now, x);
    Snoc(log, Terminal(t.entry, Failed), x);
    assert Failures(now, x, Recovery) == fs && Gains(base, now, x, RecoveryFinished(false));
  }

  lemma VerifiedTreated(base: Log, log: Log, now: Log, t: ActiveTask, found: seq<Failure>)
    requires base <= log && ProgressOf(base, t.entry.ticket) == Requested
    requires Failures(log, t.entry.ticket, Recovery) == [] && ProgressOf(log, t.entry.ticket) == Recovered(true)
    requires VerifiedIn(log, now, t.entry, found)
    ensures RecoveryPassed(now, t)
    ensures Treated(base, now, t, Recorded(t.entry, OutcomeOf(found)), if found == [] then Ok else Err(found[|found| - 1]))
  {
    hide ProgressOf, Failures, Gains;
    var x, front := t.entry.ticket, now[..|now| - 1];
    StepsGained(base, front, x);
    GainsLater(base, front, now, x);
    EndedAs(front, now, t.entry, found);
    ListLeft(log, front, x, Recovery);
    assert Failures(now, x, Recovery) == [] && Failures(now, x, Verification) == found;
    assert Gains(base, now, x, RecoveryFinished(true)) && Gains(base, now, x, VerificationFinished(found == []));
  }

  lemma EndedAs(front: Log, now: Log, x: Entry, found: seq<Failure>)
    requires now == front + [Terminal(x, StateOf(OutcomeOf(found)))] && ProgressOf(front, x.ticket) == Verified(found == [])
    ensures ProgressOf(now, x.ticket).Done? && forall phase :: Failures(now, x.ticket, phase) == Failures(front, x.ticket, phase)
  {
    hide ProgressOf, Failures;
    Snoc(front, now[|now| - 1], x.ticket);
  }

  // ------------------------------------------------------------- decisions

  lemma RequestsAsked(log: Log, ts: seq<ActiveTask>)
    requires ts != []
    ensures Asked(log + Requests(ts)) == |log| + |ts|
  {
    assert IsRequest((log + Requests(ts))[|log| + |ts| - 1]);
  }

  /** A failed recovery lets the jobs behind it fail without a decision. */
  lemma FailureGivesUp(log: Log, now: Log, ticket: nat)
    requires Onward(log, now) && Gains(log, now, ticket, RecoveryFinished(false))
    ensures GaveUp(now)
  {
    AskedBefore(log, now);
    var k :| |log| <= k < |now| && Took(now, k, ticket, RecoveryFinished(false));
  }

  lemma RecoveryGaveUp(s: State, s': State, t: ActiveTask)
    requires Grown(s, s', 1) && JobTreated(s, s', t, 0) && !RecoveryPassed(s'.log, t) && Onward(s.log, s'.log)
    ensures GaveUp(s'.log)
  {
    FailureGivesUp(s.log, s'.log, t.entry.ticket);
  }

  /** The first `i` jobs were refused. */
  ghost predicate RefusedSoFar(s: State, s': State, tasks: seq<ActiveTask>, i: nat, decision: ApprovalDecision) {
    && i <= |tasks| && KeepFailures(s, s', tasks[..i]) && s'.log == s.log + Refusals(tasks[..i], decision)
    && Asked(s'.log) == Asked(s.log)
  }

  lemma RefusedNone(s: State, tasks: seq<ActiveTask>, decision: ApprovalDecision)
    ensures RefusedSoFar(s, s, tasks, 0, decision)
  {
    KeepFailuresNone(s, s);
  }

  lemma RefusedNext(s: State, s1: State, s2: State, tasks: seq<ActiveTask>, i: nat, decision: ApprovalDecision)
    requires RefusedSoFar(s, s1, tasks, i, decision) && i < |tasks| && KeepFailures(s1, s2, [tasks[i]])
    requires s2.log == s1.log + [RecoveryPhase(tasks[i].entry, ApprovalDecided(decision))] + [Terminal(tasks[i].entry, Failed)]
    ensures RefusedSoFar(s, s2, tasks, i + 1, decision)
  {
    hide KeepFailures, Refusals, Asked;
    KeepFailuresThen(s, s1, s2, tasks[..i], [tasks[i]]);
    assert tasks[..i + 1] == tasks[..i] + [tasks[i]];
    RefusalsNext(s.log, tasks, i, decision);
    AskedBefore(s1.log, s2.log);
  }

  lemma RefusedAll(s: State, s': State, tasks: seq<ActiveTask>, decision: ApprovalDecision)
    requires RefusedSoFar(s, s', tasks, |tasks|, decision)
    ensures KeepFailures(s, s', tasks) && s'.log == s.log + Refusals(tasks, decision)
  {
    assert tasks[..|tasks|] == tasks;
  }

  /** What was decided was done. */
  ghost predicate Followed(s: State, s': State, tasks: seq<ActiveTask>, decision: ApprovalDecision, treated: nat) {
    if decision == Approved then RecoveryPass(s, s', tasks, treated)
    else KeepFailures(s, s', tasks) && s'.log == s.log + Refusals(tasks, decision)
  }

  lemma ResolvedFrom(c: Config, s: State, s1: State, s': State, tasks: seq<ActiveTask>, decision: ApprovalDecision, treated: nat)
    requires tasks != [] && s1.log == s.log + Requests(tasks) && decision == ReplyTo(c, s.log, tasks) && Accepted(s'.log)
    requires s1.outcomes == s.outcomes && s1.results == s.results && s1.snapshots == s.snapshots
    requires Followed(s1, s', tasks, decision, treated)
    ensures Resolved(c, s, s', tasks, treated)
  {
    hide RecoveryPass, Refusals, Accepted;
    PassFrom(s, s1, s', tasks, treated);
  }

  lemma NothingResolved(c: Config, s: State, s': State, tasks: seq<ActiveTask>)
    requires tasks == [] && s'.log == s.log && s'.outcomes == s.outcomes && s'.results == s.results
    ensures Resolved(c, s, s', tasks, 0)
  {
  }

  /** Only the log, the outcomes and the results matter to where a pass started. */
  lemma ResolvedSame(c: Config, s: State, s1: State, s': State, tasks: seq<ActiveTask>, treated: nat)
    requires s1.log == s.log && s1.outcomes == s.outcomes && s1.results == s.results && s1.snapshots == s.snapshots
    ensures Resolved(c, s1, s', tasks, treated) ==> Resolved(c, s, s', tasks, treated)
    ensures CutAfter(s1, s', tasks, treated) ==> CutAfter(s, s', tasks, treated)
  {
    hide Treated, GivenUp, RecoveryPassed, Refusals, FirstErrors, ReplyTo;
    if RecoveryPass(s1, s', tasks, treated) { PassSame(s, s1, s', tasks, treated); }
    if PassedSoFar(s1, s', tasks, treated) {
      forall i | 0 <= i < treated ensures JobTreated(s, s', tasks[i], i) { assert JobTreated(s1, s', tasks[i], i); }
    }
  }

  lemma PassSame(s: State, s1: State, s': State, tasks: seq<ActiveTask>, k: nat)
    requires s1.log == s.log && s1.outcomes == s.outcomes && s1.results == s.results && RecoveryPass(s1, s', tasks, k)
    ensures RecoveryPass(s, s', tasks, k)
  {
    hide Treated, GivenUp, RecoveryPassed;
    forall i | 0 <= i < k ensures JobTreated(s, s', tasks[i], i) { assert JobTreated(s1, s', tasks[i], i); }
    forall i | k <= i < |tasks| ensures JobGivenUp(s, s', tasks[i], i) { assert JobGivenUp(s1, s', tasks[i], i); }
  }

  lemma RecoveringStill(c: Config, s: State, s': State, task: ActiveTask)
    requires Recovering(c, s, task) && s' == s.(log := s'.log) && Lined(c, s', 1, |s'.hand|, Requested)
    ensures Recovering(c, s', task)
  {
    hide Lined;
  }
}

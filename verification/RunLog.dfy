/** The observable log of one run: spawn attempts, recovery phases, terminal
    task records and observed cancellations, and what each task's share of the
    log may look like. */
module RunLog {
  import opened Plan

  /** Which command list of the task a command comes from. */
  datatype Phase = Original | Recovery | Verification

  datatype TaskState = Passed | Failed | Cancelled

  datatype ApprovalDecision = Approved | Declined | NoTty | Eof | Invalid | CancelledByToken

  datatype RecoveryStep =
    | OriginalFailed
    | ApprovalRequested
    | ApprovalDecided(decision: ApprovalDecision)
    | RecoveryStarted
    | RecoveryFinished(ok: bool)
    | VerificationStarted
    | VerificationFinished(ok: bool)

  function PhaseCommands(plan: TaskPlan, phase: Phase): seq<CommandLine> {
    match phase
    case Original => plan.commands
    case Recovery => if plan.recovery.Some? then plan.recovery.value else []
    case Verification => plan.commands
  }

  /** What becomes of a command once it is spawned. */
  datatype Verdict = Succeeds | StartFails | ExitFails | WaitFails

  datatype Failure =
    | CwdMissing
    | StartFailed(phase: Phase, index: nat)
    | ExitFailed(phase: Phase, index: nat)
    | WaitFailed(phase: Phase, index: nat)
    | ServiceExhausted
    | RespawnFailed

  /** A spawn attempt is logged with the fate that its command turns out to have. */
  datatype Event =
    | CancelSeen
    | Spawn(entry: Entry, phase: Phase, index: nat, fate: Verdict)
    | RecoveryPhase(entry: Entry, step: RecoveryStep)
    | Terminal(entry: Entry, state: TaskState)

  type Log = seq<Event>

  ghost predicate About(e: Event, ticket: nat) {
    !e.CancelSeen? && e.entry.ticket == ticket
  }

  /** Where a task stands in its lifecycle; `Broken` is the error state. */
  datatype Progress =
    | Commands(phase: Phase, next: nat)
    | FailedOriginal
    | Requested
    | Decided(approved: bool)
    | Recovered(ok: bool)
    | Verified(ok: bool)
    | Done(state: TaskState)
    | Broken

  /** The lifecycle automaton of one task. Commands of a finite task are spawned
      in list order, one after the other; a service may respawn. */
  ghost function Next(p: Progress, e: Event): Progress
    requires !e.CancelSeen?
  {
    match e
    case Spawn(entry, phase, index, _) =>
      if entry.plan.service then (if p == Commands(Original, 0) && phase == Original then p else Broken)
      else if p == Commands(phase, index) then Commands(phase, index + 1) else Broken
    case RecoveryPhase(entry, step) => (
      match step
      case OriginalFailed => if p.Commands? && p.phase == Original then FailedOriginal else Broken
      case ApprovalRequested => if p == FailedOriginal then Requested else Broken
      case ApprovalDecided(d) => if p == Requested then Decided(d == Approved) else Broken
      case RecoveryStarted => if p == Decided(true) then Commands(Recovery, 0) else Broken
      case RecoveryFinished(ok) => if MayFinish(entry.plan, p, Recovery, ok) then Recovered(ok) else Broken
      case VerificationStarted => if p == Recovered(true) then Commands(Verification, 0) else Broken
      case VerificationFinished(ok) => if MayFinish(entry.plan, p, Verification, ok) then Verified(ok) else Broken
    )
    case Terminal(entry, state) => if MayEnd(entry.plan, p, state) then Done(state) else Broken
  }

  /** A command list passes only when every command of it has been spawned. */
  ghost predicate MayFinish(plan: TaskPlan, p: Progress, phase: Phase, ok: bool) {
    p.Commands? && p.phase == phase && (ok ==> p.next == |PhaseCommands(plan, phase)|)
  }

  /** The terminal states a task may be recorded in. A task may be cancelled
      anywhere; it passes after all its original commands or a passed verification,
      and fails after its original commands, without an approval, or after a
      failed recovery or verification. */
  ghost predicate MayEnd(plan: TaskPlan, p: Progress, state: TaskState) {
    match state
    case Cancelled => !p.Done? && !p.Broken?
    case Passed => MayFinish(plan, p, Original, !plan.service) || p == Verified(true)
    case Failed =>
      || (p.Commands? && p.phase == Original)
      || p == Requested || p == Decided(false) || p == Recovered(false) || p == Verified(false)
  }

  /** The progress of one task after a whole log. */
  ghost function ProgressOf(log: Log, ticket: nat): Progress {
    if log == [] then Commands(Original, 0)
    else
      var before := ProgressOf(log[..|log| - 1], ticket);
      var e := log[|log| - 1];
      if About(e, ticket) then Next(before, e) else before
  }

  /** Successful spawns of one task. */
  ghost function OkSpawns(log: Log, ticket: nat): nat {
    if log == [] then 0
    else
      var e := log[|log| - 1];
      OkSpawns(log[..|log| - 1], ticket) + (if About(e, ticket) && e.Spawn? && e.fate != StartFails then 1 else 0)
  }

  /** The failure a spawned command leads to, if any. */
  function FailureOf(fate: Verdict, phase: Phase, index: nat): seq<Failure> {
    match fate
    case Succeeds => []
    case StartFails => [StartFailed(phase, index)]
    case ExitFails => [ExitFailed(phase, index)]
    case WaitFails => [WaitFailed(phase, index)]
  }

  ghost predicate SpawnIn(e: Event, ticket: nat, phase: Phase) {
    e.Spawn? && e.entry.ticket == ticket && e.phase == phase
  }

  /** The failures that the spawned commands of one task and phase lead to, in order. */
  ghost function Failures(log: Log, ticket: nat, phase: Phase): seq<Failure> {
    if log == [] then []
    else
      var e := log[|log| - 1];
      Failures(log[..|log| - 1], ticket, phase) + FailureIn(e, ticket, phase)
  }

  ghost function FailureIn(e: Event, ticket: nat, phase: Phase): seq<Failure> {
    if SpawnIn(e, ticket, phase) then FailureOf(e.fate, phase, e.index) else []
  }

  /** The command list that a task took up last. */
  ghost function LastPhase(log: Log, ticket: nat): Phase {
    if log == [] then Original
    else
      var before, e := LastPhase(log[..|log| - 1], ticket), log[|log| - 1];
      if About(e, ticket) && e.RecoveryPhase? && e.step == RecoveryStarted then Recovery
      else if About(e, ticket) && e.RecoveryPhase? && e.step == VerificationStarted then Verification
      else before
  }

  lemma Snoc(log: Log, e: Event, ticket: nat)
    ensures ProgressOf(log + [e], ticket)
         == if About(e, ticket) then Next(ProgressOf(log, ticket), e) else ProgressOf(log, ticket)
    ensures OkSpawns(log + [e], ticket)
         == OkSpawns(log, ticket) + (if About(e, ticket) && e.Spawn? && e.fate != StartFails then 1 else 0)
    ensures forall phase :: Failures(log + [e], ticket, phase) == Failures(log, ticket, phase) + FailureIn(e, ticket, phase)
    ensures !About(e, ticket) || !e.RecoveryPhase? ==> LastPhase(log + [e], ticket) == LastPhase(log, ticket)
  {
    assert (log + [e])[..|log + [e]| - 1] == log;
  }

  /** `now` extends `log` by events that concern only this ticket (or none). */
  ghost predicate Extends(log: Log, now: Log, ticket: nat) {
    && log <= now
    && forall i :: |log| <= i < |now| ==> now[i].CancelSeen? || About(now[i], ticket)
  }

  /** Events about one task leave the history of every other task as it was. */
  lemma {:induction false} Frame(log: Log, now: Log, ticket: nat, other: nat)
    requires Extends(log, now, ticket) && other != ticket
    ensures ProgressOf(now, other) == ProgressOf(log, other)
    ensures OkSpawns(now, other) == OkSpawns(log, other)
    ensures forall phase :: Failures(now, other, phase) == Failures(log, other, phase)
    ensures LastPhase(now, other) == LastPhase(log, other)
    decreases |now|
  {
    if |now| > |log| {
      Frame(log, now[..|now| - 1], ticket, other);
    } else {
      assert now == log;
    }
  }

  // ---------------------------------------------------------------- approval

  ghost predicate IsRequest(e: Event) { e.RecoveryPhase? && e.step == ApprovalRequested }

  /** How long the log was when approval was last asked for. */
  ghost function Asked(log: Log): (n: nat)
    ensures n <= |log|
  {
    if log == [] then 0
    else if IsRequest(log[|log| - 1]) then |log|
    else Asked(log[..|log| - 1])
  }

  /** `now` extends `log`, and nothing new was asked. */
  ghost predicate Onward(log: Log, now: Log) {
    log <= now && forall i :: |log| <= i < |now| ==> !IsRequest(now[i])
  }

  lemma {:induction false} AskedBefore(log: Log, now: Log)
    requires Onward(log, now)
    ensures Asked(now) == Asked(log)
    decreases |now|
  {
    if |now| > |log| {
      AskedBefore(log, now[..|now| - 1]);
    } else {
      assert now == log;
    }
  }

  lemma {:induction false} AskedAfter(log: Log, r: nat)
    requires r < |log| && IsRequest(log[r])
    ensures r < Asked(log)
  {
    if !IsRequest(log[|log| - 1]) { AskedAfter(log[..|log| - 1], r); }
  }

  /** A recovery failed since approval was last asked for. */
  ghost predicate GaveUp(log: Log) {
    exists k :: Asked(log) <= k < |log| && log[k].RecoveryPhase? && log[k].step == RecoveryFinished(false)
  }

  lemma StillGivenUp(log: Log, now: Log)
    requires Onward(log, now) && GaveUp(log)
    ensures GaveUp(now)
  {
    AskedBefore(log, now);
    var k :| Asked(log) <= k < |log| && log[k].RecoveryPhase? && log[k].step == RecoveryFinished(false);
    assert now[k] == log[k];
  }

  // ---------------------------------------------------------------- barriers

  ghost predicate FiniteSpawn(e: Event) {
    e.Spawn? && !e.entry.plan.service
  }

  /** Stage barrier: finite spawns never go back to an earlier stage, so the log
      is a concatenation of per-stage segments. */
  ghost predicate StageOrdered(log: Log) {
    forall i, j :: 0 <= i < j < |log| && FiniteSpawn(log[i]) && FiniteSpawn(log[j])
      ==> log[i].entry.stage <= log[j].entry.stage
  }

  ghost predicate SpawnedBelow(log: Log, stages: nat) {
    forall i :: 0 <= i < |log| && FiniteSpawn(log[i]) ==> log[i].entry.stage < stages
  }

  /** Once a cancellation has been observed nothing is spawned any more. */
  ghost predicate QuietAfterCancel(log: Log) {
    forall i, j :: 0 <= i < j < |log| && log[i] == CancelSeen ==> !log[j].Spawn?
  }

  // -------------------------------------------- what an accepted log implies

  /** An accepted history was accepted all along. */
  lemma {:induction false} PrefixAccepted(log: Log, k: nat, ticket: nat)
    requires k <= |log| && !ProgressOf(log, ticket).Broken?
    ensures !ProgressOf(log[..k], ticket).Broken?
    decreases |log|
  {
    if k < |log| {
      var shorter := log[..|log| - 1];
      PrefixAccepted(shorter, k, ticket);
      assert shorter[..k] == log[..k];
    } else {
      assert log[..k] == log;
    }
  }

  /** How far along the lifecycle a progress is; spawning within a phase does not move it. */
  ghost function Rank(p: Progress): nat {
    match p
    case Commands(Original, _) => 0
    case FailedOriginal => 1
    case Requested => 2
    case Decided(_) => 3
    case Commands(Recovery, _) => 4
    case Recovered(_) => 5
    case Commands(Verification, _) => 6
    case Verified(_) => 7
    case Done(_) => 8
    case Broken => 9
  }

  lemma {:induction false} RankGrows(log: Log, k: nat, ticket: nat)
    requires k <= |log|
    ensures Rank(ProgressOf(log[..k], ticket)) <= Rank(ProgressOf(log, ticket))
    decreases |log|
  {
    if k < |log| {
      var shorter := log[..|log| - 1];
      RankGrows(shorter, k, ticket);
      assert shorter[..k] == log[..k];
    } else {
      assert log[..k] == log;
    }
  }

  /** The list taken up last is the one that the progress is about. */
  lemma {:induction false} PhaseReached(log: Log, ticket: nat)
    requires Rank(ProgressOf(log, ticket)) <= 7
    ensures LastPhase(log, ticket) ==
      if Rank(ProgressOf(log, ticket)) <= 3 then Original
      else if Rank(ProgressOf(log, ticket)) <= 5 then Recovery
      else Verification
  {
    if log != [] {
      RankGrows(log, |log| - 1, ticket);
      PhaseReached(log[..|log| - 1], ticket);
    }
  }

  /** Once a command list is left, its failures stay as they are. */
  lemma {:induction false} ListLeft(log: Log, now: Log, ticket: nat, phase: Phase)
    requires log <= now && Rank(ProgressOf(log, ticket)) > Rank(Commands(phase, 0)) && !ProgressOf(now, ticket).Broken?
    ensures Failures(now, ticket, phase) == Failures(log, ticket, phase)
    decreases |now|
  {
    hide Next, Rank, FailureOf;
    if now == log { return; }
    var shorter, e := now[..|now| - 1], now[|now| - 1];
    PrefixAccepted(now, |now| - 1, ticket);
    ListLeft(log, shorter, ticket, phase);
    RankGrows(shorter, |log|, ticket);
    assert shorter[..|log|] == log;
    if SpawnIn(e, ticket, phase) { TooLateToSpawn(ProgressOf(shorter, ticket), e); }
    assert FailureIn(e, ticket, phase) == [];
  }

  lemma TooLateToSpawn(p: Progress, e: Event)
    requires e.Spawn? && Rank(p) > Rank(Commands(e.phase, 0))
    ensures Next(p, e) == Broken
  {
  }

  /** A phase that has just begun, or is still to come, has no failures. */
  lemma {:induction false} NoFailuresYet(log: Log, ticket: nat, phase: Phase)
    requires phase != Original
    requires Rank(ProgressOf(log, ticket)) < Rank(Commands(phase, 0)) || ProgressOf(log, ticket) == Commands(phase, 0)
    ensures Failures(log, ticket, phase) == []
  {
    hide FailureOf;
    if log != [] {
      var shorter, e := log[..|log| - 1], log[|log| - 1];
      NoFailuresYet(shorter, ticket, phase);
      assert !SpawnIn(e, ticket, phase);
    }
  }

  /** Event `k` is this step of this task. */
  ghost predicate Took(log: Log, k: nat, ticket: nat, step: RecoveryStep) {
    k < |log| && log[k].RecoveryPhase? && log[k].entry.ticket == ticket && log[k].step == step
  }

  /** The log has grown by this step of this task. */
  ghost predicate Gains(log: Log, now: Log, ticket: nat, step: RecoveryStep) {
    exists k :: |log| <= k < |now| && Took(now, k, ticket, step)
  }

  lemma GainsLater(log: Log, now: Log, later: Log, ticket: nat)
    requires now <= later
    ensures forall step :: Gains(log, now, ticket, step) ==> Gains(log, later, ticket, step)
  {
    forall step | Gains(log, now, ticket, step) ensures Gains(log, later, ticket, step) {
      var k :| |log| <= k < |now| && Took(now, k, ticket, step);
      assert Took(later, k, ticket, step);
    }
  }

  lemma GainsLast(log: Log, now: Log, ticket: nat, step: RecoveryStep)
    requires log < now && Took(now, |now| - 1, ticket, step)
    ensures Gains(log, now, ticket, step)
  {
  }

  /** Whoever gets from a request into a later state has gained the steps on the way. */
  lemma {:induction false} StepsGained(log: Log, now: Log, ticket: nat)
    requires log <= now && Rank(ProgressOf(log, ticket)) <= 2
    ensures var p := ProgressOf(now, ticket);
      && (p == Decided(true) || 4 <= Rank(p) <= 7 ==> Gains(log, now, ticket, ApprovalDecided(Approved)))
      && (4 <= Rank(p) <= 7 ==> Gains(log, now, ticket, RecoveryStarted))
      && (p.Recovered? ==> Gains(log, now, ticket, RecoveryFinished(p.ok)))
      && (6 <= Rank(p) <= 7 ==> Gains(log, now, ticket, RecoveryFinished(true)) && Gains(log, now, ticket, VerificationStarted))
      && (p.Verified? ==> Gains(log, now, ticket, VerificationFinished(p.ok)))
    decreases |now|
  {
    hide Gains;
    if now == log { return; }
    var shorter, e := now[..|now| - 1], now[|now| - 1];
    StepsGained(log, shorter, ticket);
    GainsLater(log, shorter, now, ticket);
    if About(e, ticket) && e.RecoveryPhase? { GainsLast(log, now, ticket, e.step); }
  }

  /** A task that is done has no further events. */
  lemma {:induction false} DoneStays(log: Log, now: Log, ticket: nat)
    requires log <= now && ProgressOf(log, ticket).Done? && !ProgressOf(now, ticket).Broken?
    ensures ProgressOf(now, ticket) == ProgressOf(log, ticket)
    ensures forall phase :: Failures(now, ticket, phase) == Failures(log, ticket, phase)
    decreases |now|
  {
    if now == log { return; }
    var shorter, e := now[..|now| - 1], now[|now| - 1];
    PrefixAccepted(now, |now| - 1, ticket);
    DoneStays(log, shorter, ticket);
    assert !About(e, ticket);
  }

  /** The terminal record of a task that is done, and where it stood before. */
  lemma {:induction false} RecordedAt(log: Log, ticket: nat) returns (i: nat)
    requires ProgressOf(log, ticket).Done?
    ensures i < |log| && log[i].Terminal? && log[i].entry.ticket == ticket && Done(log[i].state) == ProgressOf(log, ticket)
    ensures MayEnd(log[i].entry.plan, ProgressOf(log[..i], ticket), log[i].state) && Onward(log[..i], log[..i + 1])
    decreases |log|
  {
    var shorter, e := log[..|log| - 1], log[|log| - 1];
    if About(e, ticket) {
      i := |log| - 1;
      assert log[..i + 1] == log;
    } else {
      i := RecordedAt(shorter, ticket);
      assert shorter[..i] == log[..i] && shorter[..i + 1] == log[..i + 1];
    }
  }

  /** Nothing about a task comes after its terminal record. */
  lemma NothingAfter(log: Log, i: nat, ticket: nat)
    requires i < |log| && log[i].Terminal? && log[i].entry.ticket == ticket && !ProgressOf(log, ticket).Broken?
    ensures forall k :: i < k < |log| ==> !About(log[k], ticket)
  {
    forall k | i < k < |log| ensures !About(log[k], ticket) {
      PrefixAccepted(log, i + 1, ticket);
      PrefixAccepted(log, k + 1, ticket);
      assert log[..i + 1][..i] == log[..i] && log[..k + 1][..k] == log[..k];
      RankGrows(log[..k], i + 1, ticket);
      assert log[..k][..i + 1] == log[..i + 1];
    }
  }

  /** Without an approval only original commands have been spawned. */
  lemma {:induction false} UnapprovedSpawns(log: Log, ticket: nat)
    requires Rank(ProgressOf(log, ticket)) <= 2 || ProgressOf(log, ticket) == Decided(false)
    ensures forall k :: 0 <= k < |log| && log[k].Spawn? && log[k].entry.ticket == ticket ==> log[k].phase == Original
  {
    if log != [] {
      var shorter := log[..|log| - 1];
      UnapprovedSpawns(shorter, ticket);
      assert forall k :: 0 <= k < |shorter| ==> shorter[k] == log[k];
    }
  }

  /** The decision about a task that has got that far. */
  lemma {:induction false} DecidedAt(log: Log, ticket: nat) returns (i: nat)
    requires 3 <= Rank(ProgressOf(log, ticket)) <= 7
    ensures i < |log| && log[i].RecoveryPhase? && log[i].entry.ticket == ticket && log[i].step.ApprovalDecided?
    ensures log[i].step.decision == Approved <==> ProgressOf(log, ticket) != Decided(false)
    ensures ProgressOf(log[..i], ticket) == Requested
    decreases |log|
  {
    var shorter, e := log[..|log| - 1], log[|log| - 1];
    if About(e, ticket) && e.RecoveryPhase? && e.step.ApprovalDecided? {
      i := |log| - 1;
    } else {
      i := DecidedAt(shorter, ticket);
      assert shorter[..i] == log[..i];
    }
  }

  /** Nobody has decided about a task that has only been requested. */
  lemma {:induction false} NotDecided(log: Log, ticket: nat)
    requires Rank(ProgressOf(log, ticket)) <= 2
    ensures forall k, d :: !Took(log, k, ticket, ApprovalDecided(d))
  {
    if log == [] { return; }
    var shorter, e := log[..|log| - 1], log[|log| - 1];
    NotDecided(shorter, ticket);
    forall k, d ensures !Took(log, k, ticket, ApprovalDecided(d)) {
      assert !Took(shorter, k, ticket, ApprovalDecided(d));
    }
  }

  /** The step that put a task into a waiting state, and its progress just before. */
  lemma {:induction false} LastEntered(log: Log, ticket: nat, step: RecoveryStep) returns (k: nat)
    requires step == OriginalFailed || step == ApprovalRequested || step == ApprovalDecided(Approved)
    requires ProgressOf(log, ticket) == After(step)
    ensures Took(log, k, ticket, step)
    ensures step == ApprovalRequested ==> ProgressOf(log[..k], ticket) == FailedOriginal
    ensures step == ApprovalDecided(Approved) ==> ProgressOf(log[..k], ticket) == Requested
    decreases |log|
  {
    var shorter, e := log[..|log| - 1], log[|log| - 1];
    if About(e, ticket) {
      k := |log| - 1;
    } else {
      k := LastEntered(shorter, ticket, step);
      assert shorter[..k] == log[..k];
    }
  }

  ghost function After(step: RecoveryStep): Progress
    requires step == OriginalFailed || step == ApprovalRequested || step == ApprovalDecided(Approved)
  {
    if step == OriginalFailed then FailedOriginal
    else if step == ApprovalRequested then Requested
    else Decided(true)
  }

  /** A task in recovery or later went through failure, request and approval, in this order. */
  lemma {:induction false} MustHavePassed(log: Log, ticket: nat) returns (failed: nat, requested: nat, decided: nat)
    requires 4 <= Rank(ProgressOf(log, ticket)) <= 7
    ensures failed < requested < decided < |log|
    ensures Took(log, failed, ticket, OriginalFailed)
    ensures Took(log, requested, ticket, ApprovalRequested)
    ensures Took(log, decided, ticket, ApprovalDecided(Approved))
    decreases |log|
  {
    var shorter, e := log[..|log| - 1], log[|log| - 1];
    if About(e, ticket) && e.RecoveryPhase? && e.step == RecoveryStarted {
      decided := LastEntered(shorter, ticket, ApprovalDecided(Approved));
      requested := LastEntered(shorter[..decided], ticket, ApprovalRequested);
      assert shorter[..decided][..requested] == shorter[..requested];
      failed := LastEntered(shorter[..requested], ticket, OriginalFailed);
    } else {
      failed, requested, decided := MustHavePassed(shorter, ticket);
    }
  }

  /** Recovery safety: in an accepted log a recovery (or verification) command of
      a task is spawned only after its original commands failed, approval was
      requested, and the decision was `Approved`, in this order. */
  lemma {:induction false} RecoverySpawnWasApproved(log: Log, i: nat) returns (failed: nat, requested: nat, decided: nat)
    requires i < |log| && log[i].Spawn? && log[i].phase != Original
    requires !ProgressOf(log, log[i].entry.ticket).Broken?
    ensures failed < requested < decided < i
    ensures Took(log, failed, log[i].entry.ticket, OriginalFailed)
    ensures Took(log, requested, log[i].entry.ticket, ApprovalRequested)
    ensures Took(log, decided, log[i].entry.ticket, ApprovalDecided(Approved))
  {
    var ticket := log[i].entry.ticket;
    PrefixAccepted(log, i + 1, ticket);
    assert log[..i + 1][..i] == log[..i];
    failed, requested, decided := MustHavePassed(log[..i], ticket);
  }

  /** Each lifecycle event happens at most once per task: recovery and
      verification each run at most once. */
  lemma {:induction false} PhasesHappenOnce(log: Log, i: nat, j: nat)
    requires i < j < |log| && log[i].RecoveryPhase? && log[j].RecoveryPhase?
    requires log[i].entry.ticket == log[j].entry.ticket
    requires !ProgressOf(log, log[i].entry.ticket).Broken?
    ensures log[i].step != log[j].step
  {
    var ticket := log[i].entry.ticket;
    PrefixAccepted(log, j + 1, ticket);
    PrefixAccepted(log, i + 1, ticket);
    assert log[..i + 1][..i] == log[..i] && log[..j + 1][..j] == log[..j];
    RankGrows(log[..j], i + 1, ticket);
    assert log[..j][..i + 1] == log[..i + 1];
  }

  /** Commands of one task and phase are spawned once each, in list order. */
  lemma {:induction false} SpawnsInOrder(log: Log, i: nat, j: nat)
    requires i < j < |log| && FiniteSpawn(log[i]) && FiniteSpawn(log[j])
    requires log[i].entry.ticket == log[j].entry.ticket && log[i].phase == log[j].phase
    requires !ProgressOf(log, log[i].entry.ticket).Broken?
    ensures log[i].index < log[j].index
  {
    var ticket := log[i].entry.ticket;
    PrefixAccepted(log, j + 1, ticket);
    PrefixAccepted(log, i + 1, ticket);
    Snoc(log[..i], log[i], ticket);
    Snoc(log[..j], log[j], ticket);
    assert log[..i + 1] == log[..i] + [log[i]] && log[..j + 1] == log[..j] + [log[j]];
    assert log[..j][..i + 1] == log[..i + 1];
    NextGrows(log[..j], i + 1, ticket);
  }

  lemma {:induction false} NextGrows(log: Log, k: nat, ticket: nat)
    requires k <= |log|
    requires ProgressOf(log[..k], ticket).Commands? && ProgressOf(log, ticket).Commands?
    requires ProgressOf(log[..k], ticket).phase == ProgressOf(log, ticket).phase
    ensures ProgressOf(log[..k], ticket).next <= ProgressOf(log, ticket).next
    decreases |log|
  {
    if k < |log| {
      var shorter := log[..|log| - 1];
      assert shorter[..k] == log[..k];
      RankGrows(shorter, k, ticket);
      RankGrows(log, |log| - 1, ticket);
      NextGrows(shorter, k, ticket);
    } else {
      assert log[..k] == log;
    }
  }
}

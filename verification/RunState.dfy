/** The state of one run as a value, and the invariant every step keeps. */
module RunState {
  import opened Plan
  import opened RunLog

  /** Bounded service restart attempts on unexpected exit. */
  const SERVICE_MAX_RESTARTS: nat := 3

  type Positive = n: nat | n > 0 witness 1

  // ------------------------------------------------------------- environment

  datatype Poll = StillRunning | WaitError

  /** A child process: what it answers to the next polls, and how it exits once
      those answers are used up. */
  datatype Child = Child(answers: seq<Poll>, success: bool)

  datatype SpawnAnswer = Refused | Spawned(child: Child)

  datatype Site = Site(ticket: nat, phase: Phase, index: nat)

  datatype RecoveryPolicy = Prompt | Skip

  type Reply = d: ApprovalDecision | d != CancelledByToken witness Declined

  /** Everything outside the executor. `spawn` and `reply` may depend on the
      length of the log, so every call may be answered differently; `verdict`
      matters only for environments whose results are fixed; `delay` is the number
      of polls before the approval adapter answers. The cancellation token, if it is
      ever set, is set once more than `cancelAt` observations have been made. */
  datatype Env = Env(
    dirOk: nat -> bool,
    spawn: (Site, nat) -> SpawnAnswer,
    verdict: Site -> Verdict,
    reply: nat -> Reply,
    delay: nat -> nat,
    escalates: nat -> bool,
    cancelAt: Option<nat>)

  predicate TokenSet(env: Env, now: nat) { env.cancelAt.Some? && now > env.cancelAt.value }

  function ChildVerdict(child: Child): Verdict {
    if WaitError in child.answers then WaitFails else if child.success then Succeeds else ExitFails
  }

  function VerdictOf(answer: SpawnAnswer): Verdict {
    match answer
    case Refused => StartFails
    case Spawned(child) => ChildVerdict(child)
  }

  /** Per-command results are fixed by `verdict`: only the timing of a child may vary. */
  ghost predicate Deterministic(env: Env) {
    forall site, n :: VerdictOf(env.spawn(site, n)) == env.verdict(site)
  }

  // ------------------------------------------------------------------- tasks

  datatype ActiveTask = ActiveTask(
    entry: Entry,
    commands: seq<CommandLine>,
    recovery: Option<seq<CommandLine>>,
    child: Option<Child>,
    current: Option<string>,
    failures: seq<Failure>,
    validated: bool,
    phase: Phase,
    total: nat,
    restartsLeft: nat,
    deferFailure: bool)
  {
    /** Index of the next command of the current list. */
    function Consumed(): int { total - |commands| }

    function IsService(): bool { entry.plan.service }
  }

  function Activate(e: Entry): ActiveTask {
    ActiveTask(e, e.plan.commands, e.plan.recovery, None, None, [], false, Original,
               |e.plan.commands|, SERVICE_MAX_RESTARTS, e.plan.recovery.Some?)
  }

  datatype CommandResult = Ok | Err(failure: Failure)

  datatype TaskOutcome = TaskPassed | TaskFailed(failures: seq<Failure>) | TaskCancelled | TaskSkipped

  datatype Recorded = Recorded(entry: Entry, outcome: TaskOutcome)

  datatype Snapshot = Snapshot(entry: Entry, state: TaskState)

  function StateOf(outcome: TaskOutcome): TaskState {
    match outcome
    case TaskPassed => Passed
    case TaskFailed(_) => Failed
    case TaskCancelled => Cancelled
    case TaskSkipped => Cancelled
  }

  function OutcomeOf(failures: seq<Failure>): TaskOutcome {
    if failures == [] then TaskPassed else TaskFailed(failures)
  }

  // ------------------------------------------- expected outcomes (reference)

  /** What one original command of a task contributes to the failure list. */
  ghost function FailureAt(env: Env, e: Entry, index: nat): seq<Failure> {
    FailureOf(env.verdict(Site(e.ticket, Original, index)), Original, index)
  }

  /** Failures of the first `k` commands, in command order. */
  ghost function FailuresUpTo(env: Env, e: Entry, k: nat): seq<Failure> {
    if k == 0 then [] else FailuresUpTo(env, e, k - 1) + FailureAt(env, e, k - 1)
  }

  ghost predicate CwdOk(env: Env, e: Entry) {
    e.plan.cwd.Some? ==> env.dirOk(e.ticket)
  }

  ghost function ExpectedFailures(env: Env, e: Entry): seq<Failure> {
    if CwdOk(env, e) then FailuresUpTo(env, e, |e.plan.commands|) else [CwdMissing]
  }

  // --------------------------------------------------------------- run state

  datatype Config = Config(env: Env, failFast: bool, policy: RecoveryPolicy)

  datatype State = State(
    planned: seq<Entry>,        // every task ever planned, by ticket
    popped: nat,                // number of the next stage when the current one started
    skipped: nat,               // stages skipped since then
    stages: seq<Stage<Entry>>,
    queued: seq<Entry>,
    active: seq<ActiveTask>,
    pending: seq<ActiveTask>,
    hand: seq<ActiveTask>,      // tasks held in local variables
    services: seq<ActiveTask>,
    stageLimit: nat,
    current: Option<Stage<Entry>>, // the stage started last, as it was planned
    limit: nat,                 // the concurrency limit in force when it was started
    results: seq<CommandResult>,
    outcomes: seq<Recorded>,
    snapshots: seq<Snapshot>,
    retired: seq<Entry>,        // services retired by reconciliation
    cancelled: bool,            // `Cancel` has been called
    single: bool,               // no stage so far had more than one slot
    log: Log,
    now: nat)

  function Entries(ts: seq<ActiveTask>): (es: seq<Entry>)
    ensures |es| == |ts| && forall i :: 0 <= i < |ts| ==> es[i] == ts[i].entry
    ensures forall t :: t in ts ==> t.entry in es
  {
    var es := seq(|ts|, i requires 0 <= i < |ts| => ts[i].entry);
    assert forall i :: 0 <= i < |ts| ==> es[i] == ts[i].entry;
    es
  }

  function Snapped(ss: seq<Snapshot>): (es: seq<Entry>)
    ensures |es| == |ss| && forall i :: 0 <= i < |ss| ==> es[i] == ss[i].entry
    ensures forall x :: x in ss ==> x.entry in es
  {
    var es := seq(|ss|, i requires 0 <= i < |ss| => ss[i].entry);
    assert forall i :: 0 <= i < |ss| ==> es[i] == ss[i].entry;
    es
  }

  function Projected(rs: seq<Recorded>): (ss: seq<Snapshot>)
    ensures |ss| == |rs| && forall i :: 0 <= i < |rs| ==> ss[i] == Snapshot(rs[i].entry, StateOf(rs[i].outcome))
  {
    seq(|rs|, i requires 0 <= i < |rs| => Snapshot(rs[i].entry, StateOf(rs[i].outcome)))
  }

  function RetiredSnapshots(es: seq<Entry>): (ss: seq<Snapshot>)
    ensures |ss| == |es| && forall i :: 0 <= i < |es| ==> ss[i] == Snapshot(es[i], Cancelled)
  {
    seq(|es|, i requires 0 <= i < |es| => Snapshot(es[i], Cancelled))
  }

  // ------------------------------------------------- invariant: conservation

  ghost predicate PlannedOk(s: State) {
    forall k :: 0 <= k < |s.planned| ==>
      s.planned[k].ticket == k && (s.planned[k].plan.service ==> s.planned[k].plan.recovery.None?)
  }

  /** Tasks that have no terminal record yet, wherever they are. */
  ghost function Unsettled(s: State): multiset<Entry> {
    multiset(Flat(s.stages)) + multiset(s.queued) + multiset(Entries(s.active))
    + multiset(Entries(s.pending)) + multiset(Entries(s.hand)) + multiset(Entries(s.services))
  }

  ghost function Settled(s: State): multiset<Entry> {
    multiset(Snapped(s.snapshots)) + multiset(s.retired)
  }

  /** Task conservation: every planned task is in exactly one place. */
  ghost predicate Conserved(s: State) {
    Unsettled(s) + Settled(s) == multiset(s.planned)
  }

  /** Until the run is cancelled, outcomes and terminal snapshots tell the same story. */
  ghost predicate Mirrored(s: State) {
    !s.cancelled ==>
      multiset(Projected(s.outcomes)) == multiset(s.snapshots) + multiset(RetiredSnapshots(s.retired))
  }

  // ------------------------------------------------------ invariant: history

  ghost predicate Live(p: Progress) { !p.Done? && !p.Broken? }

  ghost predicate WaitingOk(log: Log, e: Entry) {
    && ProgressOf(log, e.ticket) == Commands(Original, 0) && OkSpawns(log, e.ticket) == 0
    && Failures(log, e.ticket, Original) == []
  }

  /** The failure that a child still running will turn out to have. */
  ghost function ToCome(t: ActiveTask): seq<Failure> {
    if t.child.None? || t.Consumed() <= 0 then [] else FailureOf(ChildVerdict(t.child.value), t.phase, t.Consumed() - 1)
  }

  /** A task in the middle of one of its command lists: the commands popped so far
      have been spawned, and its failures are theirs. */
  ghost predicate InList(log: Log, t: ActiveTask) {
    var list := PhaseCommands(t.entry.plan, t.phase);
    && t.total == |list| && |t.commands| <= t.total
    && (t.child.Some? ==> t.current.Some? && t.Consumed() > 0)
    && (t.IsService() ==>
          t.phase == Original && ProgressOf(log, t.entry.ticket) == Commands(Original, 0))
    && (!t.IsService() ==>
          && t.commands == list[t.Consumed()..]
          && ProgressOf(log, t.entry.ticket) == Commands(t.phase, t.Consumed())
          && t.failures + ToCome(t) == Failures(log, t.entry.ticket, t.phase))
    && (!t.validated ==> t.phase == Original && t.Consumed() == 0 && t.child.None? && t.failures == [])
  }

  ghost predicate ActiveOk(c: Config, log: Log, t: ActiveTask) {
    && InList(log, t)
    && t.phase == Original && t.recovery == t.entry.plan.recovery && t.deferFailure == t.recovery.Some?
    && (c.failFast ==> t.failures == [])
    && (!t.IsService() && t.validated ==> CwdOk(c.env, t.entry))
    && (t.IsService() ==> t.child.None? && UnspawnedService(log, t))
  }

  ghost predicate UnspawnedService(log: Log, t: ActiveTask) {
    t.restartsLeft == SERVICE_MAX_RESTARTS && OkSpawns(log, t.entry.ticket) == 0
  }

  /** What a finite task that is done with its original commands failed with. */
  ghost function OwnFailures(c: Config, log: Log, x: Entry): seq<Failure> {
    if CwdOk(c.env, x) then Failures(log, x.ticket, Original) else [CwdMissing]
  }

  /** What the log says a finite task failed with, once it is over: what verification
      found, or the original failures and those of a failed recovery. */
  ghost function FinalFailures(c: Config, log: Log, x: Entry): seq<Failure> {
    match LastPhase(log, x.ticket)
    case Original => OwnFailures(c, log, x)
    case Recovery => OwnFailures(c, log, x) + Failures(log, x.ticket, Recovery)
    case Verification => Failures(log, x.ticket, Verification)
  }

  /** A task waiting for the recovery pass; once the token is set it may have been cut short anywhere. */
  ghost predicate PendingOk(c: Config, cut: bool, log: Log, t: ActiveTask) {
    && t.child.None? && !t.IsService() && Live(ProgressOf(log, t.entry.ticket))
    && (!cut ==>
          && ProgressOf(log, t.entry.ticket) == FailedOriginal
          && Deferred(t) && t.failures == OwnFailures(c, log, t.entry))
  }

  ghost predicate Deferred(t: ActiveTask) {
    && t.phase == Original && t.failures != [] && t.deferFailure && t.validated
    && t.recovery.Some? && t.recovery == t.entry.plan.recovery
  }

  /** Restart budget: successful spawns, restarts left and a pending respawn
      always add up to one first start plus `SERVICE_MAX_RESTARTS`. */
  ghost predicate ServiceOk(log: Log, t: ActiveTask) {
    && t.IsService() && t.phase == Original && ProgressOf(log, t.entry.ticket) == Commands(Original, 0)
    && OkSpawns(log, t.entry.ticket) + t.restartsLeft + (if t.child.None? then 1 else 0) == 1 + SERVICE_MAX_RESTARTS
    && (t.child.None? ==> t.commands != [])
    && (t.child.Some? ==> t.current.Some?)
  }

  ghost predicate Cut(c: Config, s: State) { TokenSet(c.env, s.now) }

  /** Histories of tasks that wait or are in a slot. */
  ghost predicate UnstartedOk(c: Config, s: State) {
    && (forall e :: e in Flat(s.stages) ==> WaitingOk(s.log, e))
    && (forall e :: e in s.queued ==> WaitingOk(s.log, e))
    && (forall t :: t in s.active ==> ActiveOk(c, s.log, t))
  }

  /** Histories of tasks behind their slot that have no record. */
  ghost predicate StartedOk(c: Config, s: State) {
    && (forall t :: t in s.pending ==> PendingOk(c, Cut(c, s), s.log, t))
    && (forall t :: t in s.hand ==> Live(ProgressOf(s.log, t.entry.ticket)))
    && (forall t :: t in s.services ==> ServiceOk(s.log, t))
  }

  ghost predicate SettledOk(s: State) {
    && (forall x :: x in s.snapshots ==> ProgressOf(s.log, x.entry.ticket) == Done(x.state))
    && (forall e :: e in s.retired ==> e.plan.service && Live(ProgressOf(s.log, e.ticket)))
  }

  ghost predicate HistOk(c: Config, s: State) { UnstartedOk(c, s) && StartedOk(c, s) && SettledOk(s) }

  // ------------------------------------------- invariant: barriers and slots

  ghost predicate StagesOk(s: State) {
    && StagesFrom(s.stages, s.popped + s.skipped)
    && (forall e :: e in s.queued ==> e.stage + 1 == s.popped)
    && (forall t :: t in s.active ==> t.entry.stage + 1 == s.popped)
    && (forall t :: t in s.pending ==> t.entry.stage + 1 == s.popped)
    && (forall t :: t in s.hand && t.phase != Original ==> t.entry.stage + 1 == s.popped)
  }

  function Min(a: nat, b: nat): nat { if a < b then a else b }

  /** The slot bound of a stage, fixed when the stage starts. */
  function StageLimit(stage: Stage<Entry>, limit: nat): nat {
    match stage
    case Serial(_) => 1
    case Parallel(_, tasks) => Min(limit, |tasks|)
  }

  /** Concurrency bound; a recovery or verification child is alone. */
  /** How many finite tasks have a child. */
  ghost function LiveFinite(ts: seq<ActiveTask>): (n: nat)
    ensures n <= |ts|
  {
    if ts == [] then 0 else (if ts[0].child.Some? && !ts[0].IsService() then 1 else 0) + LiveFinite(ts[1..])
  }

  /** The finite tasks in slots and in hand stay within the bound of the stage, and
      a stage that any of them belongs to has a slot. */
  ghost predicate LiveOk(s: State) {
    && |s.active| + LiveFinite(s.hand) <= s.stageLimit
    && (s.pending != [] ==> s.stageLimit > 0)
    && forall t :: t in s.hand && !t.IsService() && t.entry.stage + 1 == s.popped ==> s.stageLimit > 0
  }

  ghost predicate SlotsOk(s: State) {
    && s.stageLimit == (if s.current.None? then 0 else StageLimit(s.current.value, s.limit))
    && LiveOk(s) && (s.queued != [] ==> s.stageLimit > 0) && (s.current.Some? ==> s.limit > 0)
    && forall i :: 0 <= i < |s.hand| && s.hand[i].phase != Original && s.hand[i].child.Some? ==>
         && s.active == [] && s.queued == [] && i == 0
         && forall j :: 0 < j < |s.hand| ==> s.hand[j].child.None?
  }

  /** `n` slots are all a stage may use: one for a serial stage; for a group no more
      than its tasks, no more than the limit, and as many as one of these. */
  ghost predicate AllSlots(stage: Stage<Entry>, limit: nat, n: nat) {
    match stage
    case Serial(_) => n == 1
    case Parallel(_, tasks) => n <= limit && n <= |tasks| && (n == limit || n == |tasks|)
  }

  /** The stage being worked on, and its slot bound, are the same. */
  ghost predicate SameStage(s: State, s': State) {
    s'.current == s.current && s'.limit == s.limit && s'.stageLimit == s.stageLimit
  }

  /** The slot bound changes only when a stage is started, and then with the limit in force. */
  ghost predicate Rebounds(limit: nat, s: State, s': State) {
    SameStage(s, s') || (s'.current.Some? && s'.limit == limit)
  }

  ghost predicate LogOk(c: Config, s: State) {
    && StageOrdered(s.log) && SpawnedBelow(s.log, s.popped) && QuietAfterCancel(s.log)
    && (CancelSeen in s.log ==> Cut(c, s))
    && (forall i :: 0 <= i < |s.log| ==> EventOk(c, s.planned, s.log[i]))
    && (forall i :: 0 <= i < |s.log| ==> FateOk(c.env, s.log[i], i))
    && (forall i :: 0 <= i < |s.log| ==> EndOk(c, s.log[..i], s.log[i]))
  }

  /** Each spawn attempt has the fate that the environment gave it. */
  ghost predicate FateOk(env: Env, e: Event, i: nat) {
    e.Spawn? ==> e.fate == VerdictOf(env.spawn(Site(e.entry.ticket, e.phase, e.index), i))
  }

  /** How many of its original commands a finite task has spawned when it is done
      with them, unless it is cancelled: none without its directory, otherwise all
      of them, or some when fail-fast ended it. */
  ghost predicate Full(c: Config, e: Entry, spawned: nat) {
    if !CwdOk(c.env, e) then spawned == 0 else c.failFast || spawned == |e.plan.commands|
  }

  /** A finite task leaves its original commands only when it is done with them. */
  ghost predicate LeaveOk(c: Config, before: Log, e: Event) {
    LeavesOriginal(e) && !e.entry.plan.service && ProgressOf(before, e.entry.ticket).Commands?
      && ProgressOf(before, e.entry.ticket).phase == Original
    ==> Full(c, e.entry, ProgressOf(before, e.entry.ticket).next)
  }

  /** The answer to what was last asked; without a prompt nobody is asked. */
  function ReplyAt(c: Config, asked: nat): ApprovalDecision {
    if c.policy == Prompt then c.env.reply(asked) else Declined
  }

  /** A decision is the answer that was given. */
  ghost predicate DecisionOk(c: Config, before: Log, e: Event) {
    e.RecoveryPhase? && e.step.ApprovalDecided? ==> e.step.decision == ReplyAt(c, Asked(before))
  }

  /** A job fails without a decision only when another recovery has failed. */
  ghost predicate GiveUpOk(before: Log, e: Event) {
    e.Terminal? && e.state == Failed && ProgressOf(before, e.entry.ticket) == Requested ==> GaveUp(before)
  }

  /** The events that need a reason have it. */
  ghost predicate EndOk(c: Config, before: Log, e: Event) {
    LeaveOk(c, before, e) && DecisionOk(c, before, e) && GiveUpOk(before, e)
  }

  ghost predicate LeavesOriginal(e: Event) {
    (e.Terminal? && e.state != Cancelled) || (e.RecoveryPhase? && e.step == OriginalFailed)
  }

  ghost predicate EventOk(c: Config, planned: seq<Entry>, e: Event) {
    && (!e.CancelSeen? ==> e.entry in planned)
    && (FiniteSpawn(e) ==> e.index < |PhaseCommands(e.entry.plan, e.phase)|)
    && (e.RecoveryPhase? ==> e.entry.plan.recovery.Some?)
    && (e.RecoveryPhase? && e.step == ApprovalDecided(Approved) ==> c.policy == Prompt)
  }

  // -------------------------------------- invariant: results and expectations

  ghost predicate HasErr(rs: seq<CommandResult>) { exists r :: r in rs && r.Err? }

  ghost predicate AnyFailed(os: seq<Recorded>) { exists r :: r in os && r.outcome.TaskFailed? }

  /** A task whose failures are already in `results` but not yet in `outcomes`. */
  ghost predicate Owes(t: ActiveTask) { t.phase == Original && !t.deferFailure && t.failures != [] }

  ghost predicate AnyOwes(ts: seq<ActiveTask>) { exists t :: t in ts && Owes(t) }

  ghost predicate AllFinite(es: seq<Entry>) { forall e :: e in es ==> !e.plan.service }

  ghost predicate ResultsOk(s: State) {
    !s.cancelled && AllFinite(s.planned) ==>
      (HasErr(s.results) <==> AnyFailed(s.outcomes) || AnyOwes(s.active) || AnyOwes(s.hand))
  }

  /** No services, no recoveries, no fail-fast, and fixed per-command results. */
  ghost predicate Plain(c: Config, s: State) {
    Deterministic(c.env) && !c.failFast
    && forall e :: e in s.planned ==> !e.plan.service && e.plan.recovery.None?
  }

  ghost predicate OutcomesOk(c: Config, s: State) {
    Plain(c, s) && !s.cancelled ==>
      && (forall r :: r in s.outcomes ==> r.outcome == OutcomeOf(ExpectedFailures(c.env, r.entry)))
      && (forall t :: t in s.hand ==> t.failures == ExpectedFailures(c.env, t.entry))
  }

  ghost predicate Ran(o: TaskOutcome) { o.TaskPassed? || o.TaskFailed? }

  /** An outcome of a finite task tells what the log says. */
  ghost predicate Tells(c: Config, log: Log, r: Recorded) {
    !r.entry.plan.service && Ran(r.outcome) ==>
      && ProgressOf(log, r.entry.ticket).Done?
      && r.outcome == OutcomeOf(FinalFailures(c, log, r.entry))
  }

  ghost predicate Told(c: Config, s: State) { forall r :: r in s.outcomes ==> Tells(c, s.log, r) }

  /** Who is where, and with what history. */
  ghost predicate Places(c: Config, s: State) {
    PlannedOk(s) && Conserved(s) && HistOk(c, s)
  }

  /** Barriers, slots and the log as a whole. */
  ghost predicate Order(c: Config, s: State) {
    StagesOk(s) && SlotsOk(s) && LogOk(c, s)
  }

  /** Only fail-fast and cancellation cancel a task. */
  ghost predicate Uncancelled(c: Config, s: State) {
    !c.failFast && !s.cancelled ==> forall x :: x in s.snapshots ==> x.state != Cancelled
  }

  /** Results, outcomes and snapshots agree. */
  ghost predicate Reports(c: Config, s: State) {
    Mirrored(s) && ResultsOk(s) && OutcomesOk(c, s) && Uncancelled(c, s)
  }

  // ------------------------------------- invariant: declaration order, barrier

  /** Finite and not started, or in a slot: in the order in which they will be worked on. */
  ghost function Line(s: State): seq<Entry> { Entries(s.active) + s.queued + Flat(s.stages) }

  ghost predicate Ascending(line: seq<Entry>) {
    forall i, j :: 0 <= i < j < |line| ==> line[i].ticket < line[j].ticket
  }

  ghost predicate OriginalSpawn(e: Event) { FiniteSpawn(e) && e.phase == Original }

  /** Original commands are spawned task after task, in declaration order. */
  ghost predicate Declared(log: Log) {
    forall i, j :: 0 <= i < j < |log| && OriginalSpawn(log[i]) && OriginalSpawn(log[j])
      ==> log[i].entry.ticket <= log[j].entry.ticket
  }

  ghost predicate SpawnedBefore(log: Log, line: seq<Entry>) {
    forall i, k :: 0 <= i < |log| && OriginalSpawn(log[i]) && 0 <= k < |line| ==> log[i].entry.ticket <= line[k].ticket
  }

  ghost predicate InLine(single: bool, line: seq<Entry>, log: Log) {
    Ascending(line) && (single ==> Declared(log) && SpawnedBefore(log, line))
  }

  ghost predicate EndedIn(log: Log, e: Entry) {
    exists i :: 0 <= i < |log| && log[i].Terminal? && log[i].entry == e
  }

  /** Stage barrier in the log: when a finite task spawns a command, every finite
      task of an earlier stage already has its terminal record. */
  ghost predicate Barred(planned: seq<Entry>, log: Log) {
    forall j, k :: 0 <= j < |log| && FiniteSpawn(log[j]) && 0 <= k < |planned|
        && !planned[k].plan.service && planned[k].stage < log[j].entry.stage
      ==> EndedIn(log[..j], planned[k])
  }

  ghost predicate Sequenced(s: State) {
    InLine(s.single, Line(s), s.log) && Barred(s.planned, s.log) && (s.single ==> s.stageLimit <= 1)
  }

  ghost predicate Inv(c: Config, s: State) {
    && (forall k :: 0 <= k < |s.planned| ==> s.planned[k].ticket == k)
    && Places(c, s) && Order(c, s) && Reports(c, s) && Sequenced(s) && Told(c, s)
  }

  /** Between two calls on a run: no task is held in a local variable, and tasks
      wait for recovery behind finished slots only when the token interrupted them. */
  ghost predicate Ready(c: Config, s: State) {
    Inv(c, s) && s.hand == []
    && (s.active == [] && s.queued == [] && s.pending != [] ==> Cut(c, s))
  }
}

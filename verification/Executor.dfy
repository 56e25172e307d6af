/** The bounded task execution engine (`src/executor.rs`). */
module Executor {
  import opened Plan
  import opened RunLog
  import opened RunState
  import opened RunSteps
  import opened RunSettling
  import opened RunRecovery
  import opened TaskSteps
  import opened RunWork
  import opened RunReport
  import opened RunTrace
  import opened RunTheorems

  datatype Step = Running | Finished

  /** How the recovery of one task ends for the pass as a whole. */
  datatype RecoveryEnd = Continue | GiveUp | CutShort

  class Run {
    const policy: RecoveryPolicy
    const effectiveConcurrency: Option<Positive>

    var stages: seq<Stage<Entry>>
    var queued: seq<Entry>
    var active: seq<ActiveTask>
    var pending: seq<ActiveTask>
    var services: seq<ActiveTask>
    var stageLimit: nat
    var results: seq<CommandResult>
    var outcomes: seq<Recorded>
    var snapshots: seq<Snapshot>
    var log: Log      // what the event sink and the process runner have seen
    var now: nat      // reads of the cancellation token so far

    // The numbering of tasks and stages; scheduling never looks at it.
    var planned: seq<Entry>
    var popped: nat
    var skipped: nat

    // Bookkeeping of the proof.
    ghost var hand: seq<ActiveTask>
    ghost var retired: seq<Entry>
    ghost var cancelled: bool
    ghost var single: bool
    ghost var current: Option<Stage<Entry>>
    ghost var limit: nat

    ghost function View(): State
      reads this
    {
      State(planned, popped, skipped, stages, queued, active, pending, hand, services, stageLimit, current, limit,
            results, outcomes, snapshots, retired, cancelled, single, log, now)
    }

    constructor (policy: RecoveryPolicy, effectiveConcurrency: Option<Positive>, stages: seq<Stage<Entry>>)
      ensures this.policy == policy && this.effectiveConcurrency == effectiveConcurrency
      ensures View() == State(Flat(stages), 0, 0, stages, [], [], [], [], [], 0, None, 0, [], [], [], [], false, true, [], 0)
    {
      this.policy, this.effectiveConcurrency, this.stages := policy, effectiveConcurrency, stages;
      queued, active, pending, services, stageLimit := [], [], [], [], 0;
      results, outcomes, snapshots, log, now := [], [], [], [], 0;
      planned, popped, skipped, hand, retired, cancelled, single := Flat(stages), 0, 0, [], [], false, true;
      current, limit := None, 0;
    }
  }

  class Executor {
    const env: Env
    const failFast: bool
    var concurrencyLimit: Positive

    constructor (env: Env, failFast: bool, concurrencyLimit: Positive)
      ensures this.env == env && this.failFast == failFast && this.concurrencyLimit == concurrencyLimit
    {
      this.env, this.failFast, this.concurrencyLimit := env, failFast, concurrencyLimit;
    }

    ghost function Conf(run: Run): Config { Config(env, failFast, run.policy) }

    // ------------------------------------------------------- cancellation token

    method CancellationRequested(run: Run) returns (requested: bool)
      requires Inv(Conf(run), run.View())
      modifies run
      ensures Observes(Conf(run), old(run.View()), run.View()) && Inv(Conf(run), run.View())
      ensures requested <==> Cut(Conf(run), run.View())
    {
      hide RunState.Inv;
      ghost var s := run.View();
      run.now := run.now + 1;
      requested := TokenSet(env, run.now);
      if requested { run.log := run.log + [CancelSeen]; }
      ObserveInv(Conf(run), s, run.View());
    }

    // ------------------------------------------------------------ a single task

    /** What spawning the next command of a task leads to at this point of the log. */
    function Answer(t: ActiveTask, log: Log): SpawnAnswer
      requires t.Consumed() >= 0
    {
      env.spawn(Site(t.entry.ticket, t.phase, t.Consumed()), |log|)
    }

    /** Spawns the next command of the list; `step` is absent when the loop goes on. */
    method SpawnNext(run: Run, t: ActiveTask, rs: seq<CommandResult>, failFast: bool, ghost log: Log, ghost t0: ActiveTask)
      returns (t': ActiveTask, rs': seq<CommandResult>, step: Option<TaskStep>)
      requires Underway(Conf(run), failFast, log, t0, run.log, t, rs) && t.child.None? && t.commands != []
      modifies run
      ensures run.View() == old(run.View()).(log := run.log)
      ensures step.None? ==> Underway(Conf(run), failFast, log, t0, run.log, t', rs') && t'.child.None?
      ensures step.Some? ==> Stepped(Conf(run), failFast, log, t0, run.log, t', rs', step.value)
      ensures run.log == old(run.log) + [Spawn(t.entry, t.phase, t.Consumed(), VerdictOf(Answer(t, old(run.log))))]
      ensures t'.commands == t.commands[1..]
      ensures t'.current == if Answer(t, old(run.log)).Spawned? then Some(t.commands[0].Display()) else None
      ensures match Answer(t, old(run.log))
              case Spawned(child) =>
                step == Some(StepRunning) && t'.child == Some(child) && t'.failures == t.failures && rs' == rs
              case Refused =>
                && step == (if failFast then Some(StepFailedFast) else None) && t'.child.None?
                && t'.failures == t.failures + [StartFailed(t.phase, t.Consumed())]
                && rs' == rs + Reported(t, StartFailed(t.phase, t.Consumed()))
      ensures LessWork(t', t)
    {
      ghost var now := run.log;
      var command, index := t.commands[0], t.Consumed();
      t' := t.(commands := t.commands[1..], current := Some(command.Display()));
      rs' := rs;
      var answer := Answer(t, run.log);
      run.log := run.log + [Spawn(t.entry, t.phase, index, VerdictOf(answer))];
      match answer {
        case Spawned(child) =>
          t' := t'.(child := Some(child));
          step := Some(StepRunning);
          SpawnSucceeds(Conf(run), failFast, log, t0, now, t, rs, child, t');
        case Refused =>
          var failure := StartFailed(t.phase, index);
          t' := t'.(failures := t'.failures + [failure], current := None);
          if !t'.deferFailure { rs' := rs + [Err(failure)]; }
          step := if failFast then Some(StepFailedFast) else None;
          SpawnRefused(Conf(run), failFast, log, t0, now, t, rs, t', rs');
      }
    }

    /** Polls the child of a finite task or service once. */
    method PollChild(run: Run, t: ActiveTask, rs: seq<CommandResult>, failFast: bool, ghost log: Log, ghost t0: ActiveTask)
      returns (t': ActiveTask, rs': seq<CommandResult>, step: Option<TaskStep>)
      requires Underway(Conf(run), failFast, log, t0, run.log, t, rs) && t.child.Some?
      ensures step.None? ==> Underway(Conf(run), failFast, log, t0, run.log, t', rs') && t'.child.None?
      ensures step.Some? ==> Stepped(Conf(run), failFast, log, t0, run.log, t', rs', step.value)
      ensures PollEnds(t, t', rs, rs', step, failFast)
      ensures step.None? || step == Some(StepRunning) ==> LessWork(t', t)
    {
      ghost var c := Conf(run);
      var child := t.child.value;
      if child.answers != [] && child.answers[0] == StillRunning {
        t' := t.(child := Some(child.(answers := child.answers[1..])));
        rs', step := rs, Some(StepRunning);
        ChildRuns(c, failFast, log, t0, run.log, t, rs, t');
      } else if child.answers == [] && t.IsService() {
        ServiceExits(c, failFast, log, t0, run.log, t, rs);
        t' := t.(child := None, current := None);
        if child.success {
          rs', step := rs + [Ok], Some(StepFinished);
        } else if t.restartsLeft > 0 {
          t' := Requeued(t', t.current.value);
          rs', step := rs, None;
        } else {
          t' := t'.(failures := t'.failures + [ServiceExhausted]);
          rs', step := rs + [Err(ServiceExhausted)], Some(StepFinished);
        }
      } else if child.answers == [] && child.success {
        t' := t.(child := None, current := None);
        rs', step := rs + [Ok], None;
        ChildSucceeds(c, failFast, log, t0, run.log, t, rs, t');
      } else {
        var failure := if child.answers == [] then ExitFailed(t.phase, t.Consumed() - 1)
                       else WaitFailed(t.phase, t.Consumed() - 1);
        t' := t.(child := None, current := None, failures := t.failures + [failure]);
        rs' := if t.deferFailure then rs else rs + [Err(failure)];
        step := if failFast then Some(StepFailedFast) else None;
        ChildFails(c, failFast, log, t0, run.log, t, rs, failure, t', rs');
      }
    }

    /** Checks the working directory before the first command of a task. */
    method ValidateContext(run: Run, t: ActiveTask, failFast: bool)
      returns (t': ActiveTask, rs: seq<CommandResult>, step: Option<TaskStep>)
      requires InList(run.log, t) && (t.IsService() ==> !t.deferFailure)
      ensures step.Some? <==> Missing(Conf(run), t)
      ensures step.None? ==> Underway(Conf(run), failFast, run.log, t, run.log, t', rs) && t' == t.(validated := true)
      ensures step.Some? ==> Stepped(Conf(run), failFast, run.log, t, run.log, t', rs, step.value) && step != Some(StepRunning)
    {
      t', rs, step := t, [], None;
      if !t'.validated {
        t' := t'.(validated := true);
        if t'.entry.plan.cwd.Some? && !env.dirOk(t'.entry.ticket) {
          t' := t'.(failures := t'.failures + [CwdMissing], commands := []);
          if !t'.deferFailure { rs := [Err(CwdMissing)]; }
          step := Some(if failFast then StepFailedFast else StepFinished);
          CwdFails(Conf(run), failFast, run.log, t, t', rs);
          return;
        }
      }
      Begins(Conf(run), failFast, run.log, t);
    }

    /** One turn of the loop: spawn the next command, poll the child, or end. */
    method TakeTurn(run: Run, t: ActiveTask, rs: seq<CommandResult>, failFast: bool, ghost log: Log, ghost t0: ActiveTask)
      returns (t': ActiveTask, rs': seq<CommandResult>, step: Option<TaskStep>)
      requires Underway(Conf(run), failFast, log, t0, run.log, t, rs)
      modifies run
      ensures run.View() == old(run.View()).(log := run.log)
      ensures step.None? ==> Underway(Conf(run), failFast, log, t0, run.log, t', rs')
      ensures step.Some? ==> Stepped(Conf(run), failFast, log, t0, run.log, t', rs', step.value)
      ensures step != Some(StepFinished) && step != Some(StepFailedFast) ==> LessWork(t', t)
    {
      if t.child.Some? {
        t', rs', step := PollChild(run, t, rs, failFast, log, t0);
      } else if t.commands != [] {
        t', rs', step := SpawnNext(run, t, rs, failFast, log, t0);
      } else {
        t', rs', step := t, rs, Some(StepFinished);
        ListEnds(Conf(run), failFast, log, t0, run.log, t, rs);
      }
    }

    /** Advances a task until its child is still running or it is finished. */
    method AdvanceTask(run: Run, t: ActiveTask, failFast: bool)
      returns (t': ActiveTask, rs: seq<CommandResult>, step: TaskStep)
      requires InList(run.log, t) && (t.IsService() ==> !t.deferFailure)
      modifies run
      ensures run.View() == old(run.View()).(log := run.log)
      ensures Stepped(Conf(run), failFast, old(run.log), t, run.log, t', rs, step)
      ensures step == StepRunning ==> LessWork(t', t)
    {
      ghost var log := run.log;
      var result: Option<TaskStep>;
      t', rs, result := ValidateContext(run, t, failFast);
      while result.None?
        invariant run.View() == old(run.View()).(log := run.log)
        invariant result.None? ==> Underway(Conf(run), failFast, log, t, run.log, t', rs)
        invariant result.Some? ==> Stepped(Conf(run), failFast, log, t, run.log, t', rs, result.value)
        invariant LessWork(t', t) || (result != Some(StepRunning) && (result.None? ==> t' == t.(validated := true)))
        decreases result.None?, Weight(t'), ChildFuel(t')
      {
        t', rs, result := TakeTurn(run, t', rs, failFast, log, t);
      }
      step := result.value;
    }
  
    // ---------------------------------------------------------- terminal records

    /** Pushes one terminal snapshot and its event. */
    method RecordTaskSnapshot(run: Run, entry: Entry, state: TaskState)
      modifies run
      ensures run.View() == old(run.View()).(snapshots := old(run.snapshots) + [Snapshot(entry, state)],
                                             log := old(run.log) + [Terminal(entry, state)])
    {
      run.snapshots := run.snapshots + [Snapshot(entry, state)];
      run.log := run.log + [Terminal(entry, state)];
    }

    /** Records the task in hand with the outcome its failure list gives. `s` is
        the state before the results of this task were pushed. */
    method RecordTaskOutcome(run: Run, task: ActiveTask, ghost s: State, ghost rs: seq<CommandResult>)
      requires Inv(Conf(run), s) && s.hand != [] && s.hand[0] == task
      requires run.View() == s.(results := s.results + rs)
      requires task.IsService() || (task.failures != [] <==> HasErr(rs) || Owes(task))
      requires MayEnd(task.entry.plan, ProgressOf(s.log, task.entry.ticket), StateOf(OutcomeOf(task.failures)))
      requires EndOk(Conf(run), s.log, Terminal(task.entry, StateOf(OutcomeOf(task.failures))))
      requires task.IsService() || task.failures == FinalFailures(Conf(run), s.log, task.entry)
      modifies run
      ensures Inv(Conf(run), run.View())
      ensures run.View() == s.(hand := s.hand[1..], results := s.results + rs,
                               snapshots := s.snapshots + [Snapshot(task.entry, StateOf(OutcomeOf(task.failures)))],
                               outcomes := s.outcomes + [Recorded(task.entry, OutcomeOf(task.failures))],
                               log := s.log + [Terminal(task.entry, StateOf(OutcomeOf(task.failures)))])
      ensures SameHistory(s.log, run.log, task.entry.ticket)
    {
      hide RunState.Inv;
      var state, outcome := Passed, TaskPassed;
      if task.failures != [] { state, outcome := Failed, TaskFailed(task.failures); }
      RecordTaskSnapshot(run, task.entry, state);
      run.outcomes := run.outcomes + [Recorded(task.entry, outcome)];
      run.hand := run.hand[1..];
      RecordInv(Conf(run), s, state, Some(outcome), rs, run.View());
      OthersUnchanged(s.log, run.log, task.entry.ticket);
    }

    /** A finished original run either waits for recovery or is recorded. */
    method DeferOrRecord(run: Run, task: ActiveTask)
      requires Inv(Conf(run), run.View()) && run.hand == [task] && Ended(Conf(run), run.View(), task)
      modifies run
      ensures Inv(Conf(run), run.View()) && run.hand == []
      ensures run.View() ==
        if task.failures != [] && task.recovery.Some? then
          old(run.View()).(pending := old(run.pending) + [task], hand := [],
                           log := old(run.log) + [RecoveryPhase(task.entry, OriginalFailed)])
        else
          old(run.View()).(hand := [], log := old(run.log) + [Terminal(task.entry, StateOf(OutcomeOf(task.failures)))],
                           snapshots := old(run.snapshots) + [Snapshot(task.entry, StateOf(OutcomeOf(task.failures)))],
                           outcomes := old(run.outcomes) + [Recorded(task.entry, OutcomeOf(task.failures))])
    {
      hide RunState.Inv;
      hide RunSettling.Ended;
      hide RunSettling.Defers;
      hide RunState.EndOk;
      hide RunLog.MayEnd;
      hide RunState.FinalFailures;
      ghost var s := run.View();
      if task.failures != [] && task.recovery.Some? {
        run.log := run.log + [RecoveryPhase(task.entry, OriginalFailed)];
        run.pending := run.pending + [task];
        run.hand := [];
        EndedDefers(Conf(run), s, task, run.View());
        DeferInv(Conf(run), s, run.View());
      } else {
        EndedRecordable(Conf(run), s, task);
        if !task.IsService() { EndedOwn(Conf(run), s, task); }
        assert run.View() == s.(results := s.results + []);
        RecordTaskOutcome(run, task, s, []);
      }
    }

    /** Records a service that left the background pool. */
    method RecordService(run: Run, task: ActiveTask, outcome: TaskOutcome, rs: seq<CommandResult>)
      requires Inv(Conf(run), run.View()) && run.hand == [task] && task.IsService()
      requires outcome.TaskPassed? || outcome.TaskFailed?
      requires ProgressOf(run.log, task.entry.ticket).Commands? && ProgressOf(run.log, task.entry.ticket).phase == Original
      modifies run
      ensures Inv(Conf(run), run.View()) && run.hand == []
      ensures run.View() == old(run.View()).(hand := [], results := old(run.results) + rs,
                                             log := old(run.log) + [Terminal(task.entry, StateOf(outcome))],
                                             snapshots := old(run.snapshots) + [Snapshot(task.entry, StateOf(outcome))],
                                             outcomes := old(run.outcomes) + [Recorded(task.entry, outcome)])
    {
      hide RunState.Inv;
      ghost var s := run.View();
      run.results := run.results + rs;
      RecordTaskSnapshot(run, task.entry, StateOf(outcome));
      run.outcomes := run.outcomes + [Recorded(task.entry, outcome)];
      run.hand := [];
      RecordInv(Conf(run), s, StateOf(outcome), Some(outcome), rs, run.View());
    }

    // --------------------------------------------------------------------- slots

    method FillAvailableSlots(run: Run)
      requires Inv(Conf(run), run.View()) && run.hand == []
      modifies run
      ensures Inv(Conf(run), run.View())
      ensures run.View() == old(run.View()).(queued := run.queued, active := run.active)
      ensures Filled(old(run.View()), run.View(), |old(run.queued)| - |run.queued|)
      ensures |run.active| + |run.queued| == |old(run.active)| + |old(run.queued)|
      ensures run.queued == [] || |run.active| >= run.stageLimit
      ensures run.queued == [] || (run.current.Some? && AllSlots(run.current.value, run.limit, |run.active|))
      ensures |run.active| >= |old(run.active)| && NoMore(run.View(), old(run.View()))
    {
      hide RunState.Inv;
      hide RunWork.Budget;
      hide RunWork.PollsLeft;
      hide RunSettling.Filled;
      ghost var s := run.View();
      FilledNone(s);
      ghost var k := 0;
      while |run.active| < run.stageLimit && run.queued != []
        invariant Inv(Conf(run), run.View()) && 0 <= k <= |s.queued|
        invariant run.View() == s.(queued := run.queued, active := run.active)
        invariant Filled(s, run.View(), k) && |run.queued| == |s.queued| - k && |run.active| == |s.active| + k
        invariant NoMore(run.View(), s)
        decreases |run.queued|
      {
        ghost var s1 := run.View();
        var task := run.queued[0];
        run.queued := run.queued[1..];
        run.active := run.active + [Activate(task)];
        FillSlotInv(Conf(run), s1, run.View());
        FillWork(s1, run.View());
        FilledNext(s, s1, run.View(), k);
        k := k + 1;
      }
      FilledFrame(s, run.View(), k);
      if run.queued != [] { SlotsTaken(Conf(run), run.View()); }
    }

    // ------------------------------------------------------- fail-fast and cancel

    /** Terminates the child of a task, if any, and forgets its commands. */
    method ShutdownTask(task: ActiveTask) returns (task': ActiveTask, escalated: bool)
      ensures task' == task.(child := None, commands := [])
      ensures escalated <==> task.child.Some? && env.escalates(task.entry.ticket)
    {
      escalated := task.child.Some? && env.escalates(task.entry.ticket);
      task' := task.(child := None, commands := []);
    }

    function AnyEscalates(tasks: seq<ActiveTask>): bool {
      tasks != [] && ((tasks[0].child.Some? && env.escalates(tasks[0].entry.ticket)) || AnyEscalates(tasks[1..]))
    }

    /** Shuts every task of a list down; escalated when any child had to be killed. */
    method ShutdownAll(tasks: seq<ActiveTask>) returns (escalated: bool)
      ensures escalated == AnyEscalates(tasks)
    {
      escalated := false;
      var rest := tasks;
      while rest != []
        invariant AnyEscalates(tasks) == (escalated || AnyEscalates(rest))
        decreases |rest|
      {
        var _, forced := ShutdownTask(rest[0]);
        escalated := escalated || forced;
        rest := rest[1..];
      }
    }

    /** Records the first task in hand as cancelled or skipped. */
    method RecordCancelled(run: Run, entry: Entry, outcome: Option<TaskOutcome>)
      requires Inv(Conf(run), run.View()) && run.hand != [] && run.hand[0].entry == entry
      requires outcome.None? ==> run.cancelled
      requires outcome.Some? ==>
                 failFast && (outcome.value.TaskCancelled? || outcome.value.TaskSkipped?) && !Owes(run.hand[0])
      modifies run
      ensures Inv(Conf(run), run.View())
      ensures run.hand == old(run.hand)[1..] && Marks(old(run.View()), run.View(), [entry], outcome)
      ensures run.View() == old(run.View()).(hand := run.hand, snapshots := run.snapshots,
                                             outcomes := run.outcomes, log := run.log)
    {
      hide RunState.Inv;
      ghost var s := run.View();
      HandFacts(Conf(run), s);
      RecordTaskSnapshot(run, entry, Cancelled);
      if outcome.Some? { run.outcomes := run.outcomes + [Recorded(entry, outcome.value)]; }
      run.hand := run.hand[1..];
      assert run.results == s.results + [];
      RecordInv(Conf(run), s, Cancelled, outcome, [], run.View());
      assert RetiredSnapshots([entry]) == [Snapshot(entry, Cancelled)] && Ends([entry]) == [Terminal(entry, Cancelled)];
      if outcome.Some? { assert Given([entry], outcome) == [Recorded(entry, outcome.value)]; }
    }

    /** Shuts every task in hand down and records it as cancelled. */
    method RecordAllCancelled(run: Run, tasks: seq<ActiveTask>, outcome: Option<TaskOutcome>) returns (escalated: bool)
      requires Inv(Conf(run), run.View()) && run.hand == tasks
      requires outcome.None? ==> run.cancelled
      requires outcome.Some? ==>
                 failFast && outcome.value.TaskCancelled? && forall i :: 0 <= i < |tasks| ==> !Owes(tasks[i])
      modifies run
      ensures Inv(Conf(run), run.View()) && run.hand == [] && Marks(old(run.View()), run.View(), Entries(tasks), outcome)
      ensures run.View() == old(run.View()).(hand := run.hand, snapshots := run.snapshots,
                                             outcomes := run.outcomes, log := run.log)
      ensures escalated == AnyEscalates(tasks)
    {
      hide RunState.Inv;
      hide RunSettling.Marks;
      escalated := ShutdownAll(tasks);
      ghost var s, es := run.View(), Entries(tasks);
      MarksNone(s, s, outcome);
      var i := 0;
      while i < |tasks|
        invariant 0 <= i <= |tasks| && run.hand == tasks[i..]
        invariant Inv(Conf(run), run.View()) && Marks(s, run.View(), es[..i], outcome)
        invariant run.View() == s.(hand := run.hand, snapshots := run.snapshots, outcomes := run.outcomes, log := run.log)
      {
        ghost var s1 := run.View();
        RecordCancelled(run, tasks[i].entry, outcome);
        MarksThen(s, s1, run.View(), es[..i], [es[i]], outcome);
        assert es[..i + 1] == es[..i] + [es[i]];
        i := i + 1;
      }
      assert es[..i] == es;
    }

    method RecordAllWaiting(run: Run, waiting: seq<Entry>, outcome: Option<TaskOutcome>)
      requires Inv(Conf(run), run.View()) && run.hand == Activated(waiting)
      requires if outcome.None? then run.cancelled else failFast && outcome.value.TaskSkipped?
      modifies run
      ensures Inv(Conf(run), run.View()) && run.hand == [] && Marks(old(run.View()), run.View(), waiting, outcome)
      ensures run.View() == old(run.View()).(hand := run.hand, snapshots := run.snapshots,
                                             outcomes := run.outcomes, log := run.log)
    {
      hide RunState.Inv;
      hide RunSettling.Marks;
      ghost var s := run.View();
      MarksNone(s, s, outcome);
      var i := 0;
      while i < |waiting|
        invariant 0 <= i <= |waiting| && run.hand == Activated(waiting)[i..]
        invariant Inv(Conf(run), run.View()) && Marks(s, run.View(), waiting[..i], outcome)
        invariant run.View() == s.(hand := run.hand, snapshots := run.snapshots, outcomes := run.outcomes, log := run.log)
      {
        ghost var s1 := run.View();
        assert run.hand[0] == Activate(waiting[i]);
        RecordCancelled(run, waiting[i], outcome);
        MarksThen(s, s1, run.View(), waiting[..i], [waiting[i]], outcome);
        assert waiting[..i + 1] == waiting[..i] + [waiting[i]];
        i := i + 1;
      }
      assert waiting[..i] == waiting;
    }

    /** Takes the queue out of the run. */
    method TakeQueue(run: Run) returns (waiting: seq<Entry>)
      requires Inv(Conf(run), run.View()) && run.hand == [] && (failFast || run.cancelled)
      modifies run
      ensures Inv(Conf(run), run.View()) && run.hand == Activated(waiting) && waiting == old(run.queued)
      ensures run.View() == old(run.View()).(queued := [], hand := run.hand)
    {
      hide RunState.Inv;
      ghost var s := run.View();
      waiting := run.queued;
      run.queued, run.hand := [], Activated(waiting);
      TakeWaitingInv(Conf(run), s, run.View());
    }

    /** Takes the next stage out of the run without starting it. */
    method TakeStage(run: Run) returns (waiting: seq<Entry>)
      requires Inv(Conf(run), run.View()) && run.hand == [] && (failFast || run.cancelled) && run.stages != []
      modifies run
      ensures Inv(Conf(run), run.View()) && run.hand == Activated(waiting) && waiting == StageTasks(old(run.stages)[0])
      ensures run.View() == old(run.View()).(stages := old(run.stages)[1..], skipped := run.skipped, hand := run.hand)
    {
      hide RunState.Inv;
      ghost var s := run.View();
      waiting := StageTasks(run.stages[0]);
      run.stages, run.skipped, run.hand := run.stages[1..], run.skipped + 1, Activated(waiting);
      TakeWaitingInv(Conf(run), s, run.View());
    }

    /** Records the queue and then every remaining stage, in order. */
    method SkipWaiting(run: Run, outcome: Option<TaskOutcome>)
      requires Inv(Conf(run), run.View()) && run.hand == []
      requires if outcome.None? then run.cancelled else failFast && outcome.value.TaskSkipped?
      modifies run
      ensures Inv(Conf(run), run.View())
      ensures run.View() == old(run.View()).(queued := [], stages := [], skipped := run.skipped,
                                             snapshots := run.snapshots, outcomes := run.outcomes, log := run.log)
      ensures Marks(old(run.View()), run.View(), old(run.queued) + Flat(old(run.stages)), outcome)
    {
      hide RunState.Inv;
      hide RunSettling.Marks;
      ghost var s, all := run.View(), run.queued + Flat(run.stages);
      var waiting := TakeQueue(run);
      ghost var s1, gone := run.View(), waiting;
      MarksNone(s, s1, outcome);
      RecordAllWaiting(run, waiting, outcome);
      MarksThen(s, s1, run.View(), [], waiting, outcome);
      assert [] + waiting == gone;
      while run.stages != []
        invariant Inv(Conf(run), run.View())
        invariant run.View() == s.(queued := [], stages := run.stages, skipped := run.skipped,
                                   snapshots := run.snapshots, outcomes := run.outcomes, log := run.log)
        invariant Marks(s, run.View(), gone, outcome) && gone + Flat(run.stages) == all
        decreases |run.stages|
      {
        gone := SkipStage(run, outcome, s, gone);
      }
      assert Flat(run.stages) == [];
      assert gone == gone + [] == all;
    }

    /** Records every task of the next stage. */
    method SkipStage(run: Run, outcome: Option<TaskOutcome>, ghost s: State, ghost gone: seq<Entry>)
      returns (ghost gone': seq<Entry>)
      requires Inv(Conf(run), run.View()) && run.hand == [] && run.stages != [] && Marks(s, run.View(), gone, outcome)
      requires if outcome.None? then run.cancelled else failFast && outcome.value.TaskSkipped?
      modifies run
      ensures Inv(Conf(run), run.View()) && Marks(s, run.View(), gone', outcome)
      ensures gone' + Flat(run.stages) == gone + Flat(old(run.stages))
      ensures run.View() == old(run.View()).(stages := old(run.stages)[1..], skipped := run.skipped,
                                             snapshots := run.snapshots, outcomes := run.outcomes, log := run.log)
    {
      hide RunState.Inv;
      hide RunSettling.Marks;
      ghost var before := run.View();
      var waiting := TakeStage(run);
      ghost var s1 := run.View();
      MarksNone(before, s1, outcome);
      MarksThen(s, before, s1, gone, [], outcome);
      RecordAllWaiting(run, waiting, outcome);
      MarksThen(s, s1, run.View(), gone + [], waiting, outcome);
      gone' := gone + [] + waiting;
      assert Flat(before.stages) == waiting + Flat(run.stages);
    }

    /** Takes all active tasks out of their slots. */
    method TakeActive(run: Run) returns (tasks: seq<ActiveTask>)
      requires Inv(Conf(run), run.View()) && run.hand == [] && (failFast || run.cancelled)
      modifies run
      ensures Inv(Conf(run), run.View()) && run.hand == tasks == old(run.active)
      ensures run.View() == old(run.View()).(active := [], hand := run.hand)
      ensures failFast ==> forall i :: 0 <= i < |tasks| ==> !Owes(tasks[i])
    {
      ghost var s := run.View();
      tasks := run.active;
      run.active, run.hand := [], tasks;
      TakeActiveInv(Conf(run), s, run.View());
      forall i | 0 <= i < |tasks| && failFast ensures !Owes(tasks[i]) {
        assert tasks[i] in s.active;
        assert ActiveOk(Conf(run), s.log, tasks[i]);
      }
    }

    /** Fail-fast: active tasks are cancelled, everything not yet started is skipped. */
    method StopAfterFailure(run: Run)
      requires Inv(Conf(run), run.View()) && run.hand == [] && failFast
      modifies run
      ensures Inv(Conf(run), run.View())
      ensures run.View() == old(run.View()).(active := [], queued := [], stages := [], skipped := run.skipped,
                                             snapshots := run.snapshots, outcomes := run.outcomes, log := run.log)
      ensures run.outcomes == old(run.outcomes) + Given(Entries(old(run.active)), Some(TaskCancelled))
                              + Given(old(run.queued) + Flat(old(run.stages)), Some(TaskSkipped))
      ensures run.snapshots == old(run.snapshots) + RetiredSnapshots(Entries(old(run.active)))
                               + RetiredSnapshots(old(run.queued) + Flat(old(run.stages)))
    {
      hide RunState.Inv;
      var tasks := TakeActive(run);
      var _ := RecordAllCancelled(run, tasks, Some(TaskCancelled));
      SkipWaiting(run, Some(TaskSkipped));
    }

    /** Takes the background services out of the run. */
    method TakeServices(run: Run) returns (tasks: seq<ActiveTask>)
      requires Inv(Conf(run), run.View()) && run.hand == [] && run.cancelled
      modifies run
      ensures Inv(Conf(run), run.View()) && run.hand == tasks == old(run.services)
      ensures run.View() == old(run.View()).(services := [], hand := run.hand)
    {
      hide RunState.Inv;
      ghost var s := run.View();
      tasks := run.services;
      run.services, run.hand := [], tasks;
      TakeServicesInv(Conf(run), s, run.View());
    }

    /** Takes the pending recoveries out of the run, ordered by position. */
    method TakePending(run: Run) returns (tasks: seq<ActiveTask>)
      requires Inv(Conf(run), run.View()) && run.hand == [] && (!Cut(Conf(run), run.View()) || run.cancelled)
      modifies run
      ensures Inv(Conf(run), run.View()) && run.hand == tasks == SortByPosition(old(run.pending))
      ensures SameTasks(old(run.pending), tasks) && ByPosition(tasks)
      ensures run.View() == old(run.View()).(pending := [], hand := run.hand)
    {
      hide RunState.Inv;
      ghost var s := run.View();
      tasks := SortByPosition(run.pending);
      SortKeepsTasks(run.pending);
      SortOrders(run.pending);
      run.pending, run.hand := [], tasks;
      TakePendingInv(Conf(run), s, run.View());
    }

    /** Shuts down and records active tasks, services and pending recoveries. */
    method CancelStarted(run: Run) returns (escalated: bool)
      requires Inv(Conf(run), run.View()) && run.hand == [] && run.cancelled
      modifies run
      ensures Inv(Conf(run), run.View())
      ensures run.View() == old(run.View()).(active := [], services := [], pending := [],
                                             snapshots := run.snapshots, log := run.log)
      ensures Marks(old(run.View()), run.View(),
                    Entries(old(run.active)) + Entries(old(run.services)) + Entries(old(run.pending)), None)
      ensures escalated == (AnyEscalates(old(run.active)) || AnyEscalates(old(run.services)))
    {
      hide RunState.Inv;
      hide RunSettling.Marks;
      ghost var s := run.View();
      escalated := CancelSlots(run);
      ghost var s1 := run.View();
      var forced := CancelServices(run);
      escalated := escalated || forced;
      ghost var s2 := run.View();
      forced := CancelPending(run);
      escalated := escalated || forced;
      MarksThen(s, s1, s2, Entries(s.active), Entries(s.services), None);
      MarksThen(s, s2, run.View(), Entries(s.active) + Entries(s.services), Entries(s.pending), None);
    }

    method CancelServices(run: Run) returns (escalated: bool)
      requires Inv(Conf(run), run.View()) && run.hand == [] && run.cancelled
      modifies run
      ensures Inv(Conf(run), run.View())
      ensures run.View() == old(run.View()).(services := [], snapshots := run.snapshots, log := run.log)
      ensures Marks(old(run.View()), run.View(), Entries(old(run.services)), None) && escalated == AnyEscalates(old(run.services))
    {
      hide RunState.Inv;
      var tasks := TakeServices(run);
      escalated := RecordAllCancelled(run, tasks, None);
    }

    method CancelSlots(run: Run) returns (escalated: bool)
      requires Inv(Conf(run), run.View()) && run.hand == [] && run.cancelled
      modifies run
      ensures Inv(Conf(run), run.View())
      ensures run.View() == old(run.View()).(active := [], snapshots := run.snapshots, log := run.log)
      ensures Marks(old(run.View()), run.View(), Entries(old(run.active)), None) && escalated == AnyEscalates(old(run.active))
    {
      hide RunState.Inv;
      var tasks := TakeActive(run);
      escalated := RecordAllCancelled(run, tasks, None);
    }

    /** Tasks waiting for recovery have no child left to kill. */
    method CancelPending(run: Run) returns (escalated: bool)
      requires Inv(Conf(run), run.View()) && run.hand == [] && run.cancelled
      modifies run
      ensures Inv(Conf(run), run.View())
      ensures run.View() == old(run.View()).(pending := [], snapshots := run.snapshots, log := run.log)
      ensures Marks(old(run.View()), run.View(), Entries(old(run.pending)), None) && !escalated
    {
      hide RunState.Inv;
      ghost var s := run.View();
      PendingChildless(Conf(run), s);
      var tasks := run.pending;
      run.pending, run.hand := [], tasks;
      TakePendingInv(Conf(run), s, run.View());
      NoneEscalates(tasks);
      escalated := RecordAllCancelled(run, tasks, None);
    }

    lemma {:induction false} NoneEscalates(tasks: seq<ActiveTask>)
      requires forall t :: t in tasks ==> t.child.None?
      ensures !AnyEscalates(tasks)
    {
      if tasks != [] { NoneEscalates(tasks[1..]); }
    }

    /** Cancels the run from any state between two calls: every planned task ends
        with exactly one terminal snapshot, except services retired earlier. */
    method Cancel(run: Run) returns (escalated: bool)
      requires Ready(Conf(run), run.View())
      modifies run
      ensures Ready(Conf(run), run.View()) && run.cancelled
      ensures SameStage(old(run.View()), run.View())
      ensures Unsettled(run.View()) == multiset{} && Settled(run.View()) == multiset(run.planned)
      ensures run.planned == old(run.planned) && run.retired == old(run.retired) && run.outcomes == old(run.outcomes)
      ensures Marks(old(run.View()), run.View(),
                    Entries(old(run.active)) + Entries(old(run.services)) + Entries(old(run.pending))
                    + (old(run.queued) + Flat(old(run.stages))), None)
      ensures escalated == (AnyEscalates(old(run.active)) || AnyEscalates(old(run.services)))
    {
      ghost var s := run.View();
      run.cancelled := true;
      MarkCancelledInv(Conf(run), s, run.View());
      ghost var s0 := run.View();
      escalated := CancelStarted(run);
      ghost var s1 := run.View();
      SkipWaiting(run, None);
      AllSettled(run.View());
      MarksThen(s0, s1, run.View(), Entries(s.active) + Entries(s.services) + Entries(s.pending),
                s.queued + Flat(s.stages), None);
    }

    // ------------------------------------------------------------------ services

    /** A service leaves the pool with a final outcome; its failure, if any, is reported. */
    method DropService(run: Run, index: nat, service: ActiveTask, outcome: TaskOutcome, rs: seq<CommandResult>, ghost s: State)
      requires Inv(Conf(run), s) && s.hand == [] && index < |s.services| && !Cut(Conf(run), s)
      requires run.View() == s.(log := run.log)
      requires service.entry == s.services[index].entry && service.phase == Original
      requires
        || run.log == s.log
        || (OnlySpawns(s.log, run.log, service) && ProgressOf(run.log, service.entry.ticket) == Commands(Original, 0))
      requires Fated(env, s.log, run.log)
      requires outcome.TaskPassed? || outcome.TaskFailed?
      requires Weight(s.services[index]) + ChildFuel(s.services[index]) > 0
      modifies run
      ensures Inv(Conf(run), run.View()) && Less(run.View(), s)
      ensures run.View() == s.(services := Without(s.services, index), results := s.results + rs,
                               log := old(run.log) + [Terminal(service.entry, StateOf(outcome))],
                               snapshots := s.snapshots + [Snapshot(service.entry, StateOf(outcome))],
                               outcomes := s.outcomes + [Recorded(service.entry, outcome)])
    {
      hide RunState.Inv;
      run.services := run.services[..index] + run.services[index + 1..];
      run.hand := [service];
      ServiceFacts(Conf(run), s, index);
      StopInv(Conf(run), s, index, service, run.View());
      RecordService(run, service, outcome, rs);
      ServiceWork(s, index, service, run.View());
    }

    /** A service stays in the pool, polled, restarted or respawned. */
    method KeepService(run: Run, index: nat, service: ActiveTask, ghost s: State)
      requires Inv(Conf(run), s) && index < |s.services| && !Cut(Conf(run), s)
      requires run.View() == s.(log := run.log)
      requires service.entry == s.services[index].entry && OnlySpawns(s.log, run.log, service) && ServiceOk(run.log, service)
      requires Fated(env, s.log, run.log)
      requires LessWork(service, s.services[index])
      modifies run
      ensures Inv(Conf(run), run.View()) && Less(run.View(), s)
      ensures run.View() == s.(services := s.services[index := service], log := old(run.log))
    {
      hide RunState.Inv;
      run.services := run.services[index := service];
      PollInv(Conf(run), s, index, service, run.View());
      ServiceWork(s, index, service, run.View());
    }

    /** Polls one background service; `kept` when it stays in the pool. */
    method PollService(run: Run, index: nat) returns (kept: bool)
      requires Inv(Conf(run), run.View()) && run.hand == [] && index < |run.services| && !Cut(Conf(run), run.View())
      modifies run
      ensures Inv(Conf(run), run.View())
      ensures run.View() == old(run.View()).(services := run.services, results := run.results, log := run.log,
                                             snapshots := run.snapshots, outcomes := run.outcomes)
      ensures old(run.services)[index].child.Some? ==> ServicePolled(old(run.View()), run.View(), index, kept)
      ensures PollReplaces(old(run.services), run.services, index, kept)
      ensures |run.services| == |old(run.services)| - (if kept then 0 else 1)
      ensures Less(run.View(), old(run.View()))
    {
      hide RunState.Inv;
      hide RunWork.Less;
      hide RunSettling.ServicePolled;
      ghost var s := run.View();
      var service := run.services[index];
      ServiceFacts(Conf(run), s, index);
      if service.child.None? {
        kept := RespawnService(run, index, service);
      } else if service.child.value.answers == [] {
        kept := ServiceExited(run, index, service);
      } else {
        var child := service.child.value;
        service := service.(child := Some(child.(answers := child.answers[1..])));
        KeepService(run, index, service, s);
        StillServing(s, run.View(), index);
        kept := true;
      }
    }

    /** The child of a service has exited: a deliberate stop, a restart, or the end of its budget. */
    method ServiceExited(run: Run, index: nat, service: ActiveTask) returns (kept: bool)
      requires Inv(Conf(run), run.View()) && run.hand == [] && index < |run.services| && !Cut(Conf(run), run.View())
      requires service == run.services[index] && service.child.Some? && service.child.value.answers == []
      requires ServiceOk(run.log, service)
      modifies run
      ensures Inv(Conf(run), run.View())
      ensures run.View() == old(run.View()).(services := run.services, results := run.results, log := run.log,
                                             snapshots := run.snapshots, outcomes := run.outcomes)
      ensures ServicePolled(old(run.View()), run.View(), index, kept)
      ensures PollReplaces(old(run.services), run.services, index, kept)
      ensures |run.services| == |old(run.services)| - (if kept then 0 else 1)
      ensures Less(run.View(), old(run.View()))
    {
      hide RunState.Inv;
      hide RunWork.Less;
      hide RunReport.PollReplaces;
      hide RunReport.PolledOnce;
      ghost var s := run.View();
      ExitPolls(service);
      kept := !service.child.value.success && service.restartsLeft > 0;
      if service.child.value.success {
        DropService(run, index, service.(child := None, current := None), TaskPassed, [], s);
        GoneReplaces(s.services, run.services, index);
      } else if kept {
        var service' := Requeued(service.(child := None, current := None), service.current.value);
        KeepService(run, index, service', s);
        KeptReplaces(s.services, run.services, index, service');
      } else {
        var failures := service.failures + [ServiceExhausted];
        DropService(run, index, service.(child := None, current := None, failures := failures), TaskFailed(failures),
                    [Err(ServiceExhausted)], s);
        GoneReplaces(s.services, run.services, index);
      }
    }

    /** Respawns a service whose command was queued for the next attempt. */
    method RespawnService(run: Run, index: nat, service: ActiveTask) returns (kept: bool)
      requires Inv(Conf(run), run.View()) && run.hand == [] && index < |run.services| && !Cut(Conf(run), run.View())
      requires service == run.services[index] && service.child.None? && ServiceOk(run.log, service)
      modifies run
      ensures Inv(Conf(run), run.View())
      ensures run.View() == old(run.View()).(services := run.services, results := run.results, log := run.log,
                                             snapshots := run.snapshots, outcomes := run.outcomes)
      ensures kept ==> run.outcomes == old(run.outcomes) && run.results == old(run.results)
                       && |run.services| == |old(run.services)| && run.services[index].child.Some?
      ensures !kept ==>
        && run.outcomes == old(run.outcomes) + [Recorded(service.entry, TaskFailed(service.failures + [RespawnFailed]))]
        && run.results == old(run.results) + [Err(RespawnFailed)]
      ensures kept <==> env.spawn(Site(service.entry.ticket, Original, 0), |old(run.log)|).Spawned?
      ensures kept ==>
        && Spawned(run.services[index].child.value) == env.spawn(Site(service.entry.ticket, Original, 0), |old(run.log)|)
        && service.commands != [] && run.services[index].current == Some(service.commands[0].Display())
      ensures PollReplaces(old(run.services), run.services, index, kept)
      ensures |run.services| == |old(run.services)| - (if kept then 0 else 1)
      ensures Less(run.View(), old(run.View()))
    {
      hide RunState.Inv;
      hide RunWork.Less;
      hide RunReport.PollReplaces;
      hide RunState.ServiceOk;
      ghost var s := run.View();
      ServiceQueued(s.log, service);
      var command := service.commands[0];
      var answer := env.spawn(Site(service.entry.ticket, Original, 0), |run.log|);
      run.log := run.log + [Spawn(service.entry, Original, 0, VerdictOf(answer))];
      kept := answer.Spawned?;
      match answer {
        case Spawned(child) => Respawned(run, index, service, child, s);
        case Refused => RespawnRefused(run, index, service, s);
      }
    }

    method Respawned(run: Run, index: nat, service: ActiveTask, child: Child, ghost s: State)
      requires Inv(Conf(run), s) && s.hand == [] && index < |s.services| && !Cut(Conf(run), s)
      requires service == s.services[index] && service.child.None? && service.commands != [] && ServiceOk(s.log, service)
      requires run.View() == s.(log := s.log + [Spawn(service.entry, Original, 0, VerdictOf(Spawned(child)))])
      requires Fated(env, s.log, run.log)
      modifies run
      ensures Inv(Conf(run), run.View()) && Less(run.View(), s)
      ensures run.View() == s.(services := run.services, log := run.log)
      ensures |run.services| == |s.services| && run.services[index].child == Some(child)
      ensures run.services[index].current == Some(service.commands[0].Display())
      ensures PollReplaces(s.services, run.services, index, true)
    {
      hide RunState.Inv;
      hide RunWork.Less;
      hide RunReport.PollReplaces;
      var service' := service.(commands := service.commands[1..], current := Some(service.commands[0].Display()),
                               child := Some(child));
      ChildStarted(child);
      RespawnLogged(s.log, service, service', VerdictOf(Spawned(child)), run.log);
      KeepService(run, index, service', s);
      RespawnPolls(service, service');
      KeptReplaces(s.services, run.services, index, service');
    }

    method RespawnRefused(run: Run, index: nat, service: ActiveTask, ghost s: State)
      requires Inv(Conf(run), s) && s.hand == [] && index < |s.services| && !Cut(Conf(run), s)
      requires service == s.services[index] && service.child.None? && service.commands != [] && ServiceOk(s.log, service)
      requires run.View() == s.(log := s.log + [Spawn(service.entry, Original, 0, StartFails)])
      requires Fated(env, s.log, run.log)
      modifies run
      ensures Inv(Conf(run), run.View()) && Less(run.View(), s)
      ensures run.View() == s.(services := run.services, results := s.results + [Err(RespawnFailed)], log := run.log,
                               snapshots := run.snapshots,
                               outcomes := s.outcomes + [Recorded(service.entry, TaskFailed(service.failures + [RespawnFailed]))])
      ensures |run.services| == |s.services| - 1 && PollReplaces(s.services, run.services, index, false)
    {
      hide RunState.Inv;
      hide RunWork.Less;
      hide RunReport.PollReplaces;
      var service' := service.(commands := service.commands[1..], current := Some(service.commands[0].Display()),
                               failures := service.failures + [RespawnFailed]);
      RespawnLogged(s.log, service, service', StartFails, run.log);
      DropService(run, index, service', TaskFailed(service'.failures), [Err(RespawnFailed)], s);
      GoneReplaces(s.services, run.services, index);
    }

    /** Polls every service once, in order; `polled` is what became of each. */
    method AdvanceServices(run: Run) returns (ghost polled: seq<Option<ActiveTask>>)
      requires Inv(Conf(run), run.View()) && run.hand == [] && !Cut(Conf(run), run.View()) && run.services != []
      modifies run
      ensures Inv(Conf(run), run.View()) && Less(run.View(), old(run.View()))
      ensures run.View() == old(run.View()).(services := run.services, results := run.results, log := run.log,
                                             snapshots := run.snapshots, outcomes := run.outcomes)
      ensures |polled| == |old(run.services)| && run.services == Remaining(polled)
      ensures forall i :: 0 <= i < |polled| ==> PolledOnce(old(run.services)[i], polled[i])
    {
      hide RunState.Inv;
      hide RunWork.Budget;
      hide RunWork.PollsLeft;
      hide RunReport.Swept;
      ghost var before := run.services;
      polled := [];
      SweptNone(before);
      var index := 0;
      while index < |run.services|
        invariant Inv(Conf(run), run.View()) && index <= |run.services|
        invariant run.View() == old(run.View()).(services := run.services, results := run.results, log := run.log,
                                                 snapshots := run.snapshots, outcomes := run.outcomes)
        invariant Swept(before, run.services, index, polled)
        invariant Less(run.View(), old(run.View())) || (index == 0 && run.services == old(run.services))
        invariant NoMore(run.View(), old(run.View()))
        decreases |run.services| - index
      {
        ghost var now := run.services;
        var kept := PollService(run, index);
        SweptNext(before, now, run.services, index, polled, kept);
        polled := polled + [if kept then Some(run.services[index]) else None];
        if kept { index := index + 1; }
      }
      SweptAll(before, run.services, index, polled);
    }

    // ------------------------------------------------------------------ recovery

    method Announce(run: Run, i: nat, entry: Entry, step: RecoveryStep)
      requires Inv(Conf(run), run.View()) && i < |run.hand| && run.hand[i].entry == entry
      requires Live(Next(ProgressOf(run.log, entry.ticket), RecoveryPhase(entry, step)))
      requires step != OriginalFailed && entry.plan.recovery.Some?
      requires step == ApprovalDecided(Approved) ==> run.policy == Prompt
      requires DecisionOk(Conf(run), run.log, RecoveryPhase(entry, step))
      modifies run
      ensures Inv(Conf(run), run.View())
      ensures run.View() == old(run.View()).(log := old(run.log) + [RecoveryPhase(entry, step)])
      ensures ProgressOf(run.log, entry.ticket) == Next(ProgressOf(old(run.log), entry.ticket), RecoveryPhase(entry, step))
      ensures SameHistory(old(run.log), run.log, entry.ticket)
      ensures forall phase :: Failures(run.log, entry.ticket, phase) == Failures(old(run.log), entry.ticket, phase)
      ensures OwnFailures(Conf(run), run.log, entry) == OwnFailures(Conf(run), old(run.log), entry)
    {
      hide RunState.Inv;
      ghost var s := run.View();
      run.log := run.log + [RecoveryPhase(entry, step)];
      AnnounceInv(Conf(run), s, i, step, run.View());
      Snoc(s.log, RecoveryPhase(entry, step), entry.ticket);
    }

    method RequestApproval(run: Run, tasks: seq<ActiveTask>)
      requires Inv(Conf(run), run.View()) && run.hand == tasks && Lined(Conf(run), run.View(), 0, |tasks|, FailedOriginal)
      modifies run
      ensures Inv(Conf(run), run.View()) && Lined(Conf(run), run.View(), 0, |tasks|, Requested)
      ensures run.View() == old(run.View()).(log := old(run.log) + Requests(tasks))
    {
      hide RunState.Inv;
      hide RunState.OwnFailures;
      assert Lined(Conf(run), run.View(), 0, 0, Requested);
      hide RunRecovery.Lined;
      hide RunSettling.Requests;
      var i := 0;
      while i < |tasks|
        invariant 0 <= i <= |tasks| && Inv(Conf(run), run.View())
        invariant run.View() == old(run.View()).(log := old(run.log) + Requests(tasks)[..i])
        invariant Lined(Conf(run), run.View(), 0, i, Requested) && Lined(Conf(run), run.View(), i, |tasks|, FailedOriginal)
      {
        RequestOne(run, i, tasks[i]);
        RequestsNext(tasks, i);
        i := i + 1;
      }
      assert Requests(tasks)[..i] == Requests(tasks);
    }

    method RequestOne(run: Run, i: nat, task: ActiveTask)
      requires Inv(Conf(run), run.View()) && i < |run.hand| && run.hand[i] == task
      requires Lined(Conf(run), run.View(), 0, i, Requested) && Lined(Conf(run), run.View(), i, |run.hand|, FailedOriginal)
      modifies run
      ensures Inv(Conf(run), run.View())
      ensures run.View() == old(run.View()).(log := old(run.log) + [RecoveryPhase(task.entry, ApprovalRequested)])
      ensures Lined(Conf(run), run.View(), 0, i + 1, Requested) && Lined(Conf(run), run.View(), i + 1, |run.hand|, FailedOriginal)
    {
      hide RunState.Inv;
      hide RunState.OwnFailures;
      ghost var s := run.View();
      assert Lying(Conf(run), s, task, FailedOriginal);
      Announce(run, i, task.entry, ApprovalRequested);
      LinedFrame(Conf(run), s, i, run.View(), 0, i, Requested);
      LinedFrame(Conf(run), s, i, run.View(), i + 1, |s.hand|, FailedOriginal);
      assert Lying(Conf(run), run.View(), task, Requested);
    }

    /** Reads the token; nothing else about the tasks in hand changes. */
    method Interrupted(run: Run, ghost lo: nat, ghost hi: nat, ghost p: Progress) returns (requested: bool)
      requires Inv(Conf(run), run.View()) && Lined(Conf(run), run.View(), lo, hi, p)
      modifies run
      ensures Inv(Conf(run), run.View()) && Lined(Conf(run), run.View(), lo, hi, p)
      ensures run.View() == old(run.View()).(log := run.log, now := run.now)
      ensures requested <==> Cut(Conf(run), run.View())
      ensures !requested ==> run.log == old(run.log)
      ensures Onward(old(run.log), run.log)
    {
      hide RunState.Inv;
      ghost var s := run.View();
      requested := CancellationRequested(run);
      LinedObserve(Conf(run), s, run.View(), lo, hi, p);
    }

    /** Waits for the approval adapter, watching the token; both adapters answer
        `CancelledByToken` when they see the token first. */
    method AwaitDecision(run: Run) returns (decision: ApprovalDecision)
      requires Inv(Conf(run), run.View()) && Lined(Conf(run), run.View(), 0, |run.hand|, Requested) && !Cut(Conf(run), run.View())
      modifies run
      ensures Inv(Conf(run), run.View()) && Lined(Conf(run), run.View(), 0, |run.hand|, Requested)
      ensures run.View() == old(run.View()).(log := run.log, now := run.now)
      ensures decision == CancelledByToken <==> Cut(Conf(run), run.View())
      ensures decision == Approved ==> run.policy == Prompt
      ensures Onward(old(run.log), run.log)
      ensures !Cut(Conf(run), run.View()) ==>
        run.log == old(run.log) && decision == ReplyAt(Conf(run), |run.log|)
    {
      hide RunState.Inv;
      hide RunState.OwnFailures;
      decision := Declined;
      if run.policy == Prompt {
        var polls := env.delay(|run.log|);
        while polls > 0
          invariant Inv(Conf(run), run.View()) && Lined(Conf(run), run.View(), 0, |run.hand|, Requested)
          invariant !Cut(Conf(run), run.View())
          invariant run.View() == old(run.View()).(now := run.now)
        {
          var stop := Interrupted(run, 0, |run.hand|, Requested);
          if stop { return CancelledByToken; }
          polls := polls - 1;
        }
        var seen := Interrupted(run, 0, |run.hand|, Requested);
        if seen { return CancelledByToken; }
        decision := env.reply(|run.log|);
      }
      var late := Interrupted(run, 0, |run.hand|, Requested);
      if late { decision := CancelledByToken; }
    }

    /** Puts the tasks in hand back when the token interrupts the recovery pass. */
    method PutBack(run: Run, tasks: seq<ActiveTask>)
      requires Inv(Conf(run), run.View()) && run.hand == tasks && run.pending == [] && Cut(Conf(run), run.View())
      requires forall t :: t in tasks ==> t.child.None? && !t.IsService() && t.entry.stage + 1 == run.popped && !Owes(t)
      modifies run
      ensures Inv(Conf(run), run.View())
      ensures run.View() == old(run.View()).(pending := tasks, hand := [])
    {
      hide RunState.Inv;
      ghost var s := run.View();
      run.pending, run.hand := tasks, [];
      ReturnInv(Conf(run), s, run.View());
    }

    /** Records the first task in hand as failed with its first original failure. */
    method FailFirst(run: Run, task: ActiveTask, ghost p: Progress)
      requires Inv(Conf(run), run.View()) && run.hand != [] && run.hand[0] == task
      requires Lying(Conf(run), run.View(), task, p) && !p.Commands? && MayEnd(task.entry.plan, p, Failed)
      requires Lined(Conf(run), run.View(), 1, |run.hand|, Requested)
      requires Rank(p) <= 3 && (p == Requested ==> GaveUp(run.log))
      modifies run
      ensures Inv(Conf(run), run.View()) && run.hand == old(run.hand)[1..]
      ensures Lined(Conf(run), run.View(), 0, |run.hand|, Requested)
      ensures run.View() == old(run.View()).(hand := run.hand, results := run.results, log := run.log,
                                             snapshots := run.snapshots, outcomes := run.outcomes)
      ensures KeepFailures(old(run.View()), run.View(), [task]) && run.log == old(run.log) + [Terminal(task.entry, Failed)]
    {
      hide RunState.Inv;
      hide RunState.FinalFailures;
      hide RunState.OwnFailures;
      ghost var s := run.View();
      ghost var rs := [Err(task.failures[0])];
      assert rs[0] in rs;
      run.results := run.results + [Err(task.failures[0])];
      FinalOriginal(Conf(run), s.log, task.entry);
      RecordTaskOutcome(run, task, s, rs);
      LinedShift(Conf(run), s, run.View(), Requested);
      KeepFailuresOne(s, run.View(), task);
    }

    method DeclineFirst(run: Run, task: ActiveTask, decision: ApprovalDecision)
      requires Inv(Conf(run), run.View()) && run.hand != [] && run.hand[0] == task && decision != Approved
      requires Lined(Conf(run), run.View(), 0, |run.hand|, Requested)
      requires decision == ReplyAt(Conf(run), Asked(run.log))
      modifies run
      ensures Inv(Conf(run), run.View()) && run.hand == old(run.hand)[1..]
      ensures Lined(Conf(run), run.View(), 0, |run.hand|, Requested)
      ensures run.View() == old(run.View()).(hand := run.hand, results := run.results, log := run.log,
                                             snapshots := run.snapshots, outcomes := run.outcomes)
      ensures KeepFailures(old(run.View()), run.View(), [task])
      ensures run.log == old(run.log) + [RecoveryPhase(task.entry, ApprovalDecided(decision))] + [Terminal(task.entry, Failed)]
    {
      hide RunState.Inv;
      hide RunState.OwnFailures;
      ghost var s := run.View();
      assert Lying(Conf(run), s, task, Requested);
      Announce(run, 0, task.entry, ApprovalDecided(decision));
      LinedFrame(Conf(run), s, 0, run.View(), 1, |run.hand|, Requested);
      FailFirst(run, task, Decided(false));
    }

    /** No approval: every failed task is recorded as it was. */
    method DeclineAll(run: Run, tasks: seq<ActiveTask>, decision: ApprovalDecision)
      requires Inv(Conf(run), run.View()) && run.hand == tasks && Lined(Conf(run), run.View(), 0, |tasks|, Requested)
      requires decision != Approved
      requires decision == ReplyAt(Conf(run), Asked(run.log))
      modifies run
      ensures Inv(Conf(run), run.View()) && run.hand == []
      ensures run.View() == old(run.View()).(hand := [], results := run.results, log := run.log,
                                             snapshots := run.snapshots, outcomes := run.outcomes)
      ensures KeepFailures(old(run.View()), run.View(), tasks) && run.log == old(run.log) + Refusals(tasks, decision)
    {
      hide RunState.Inv;
      hide RunState.ReplyAt;
      hide RunSettling.KeepFailures;
      hide RunRecovery.Lined;
      hide RunRecovery.Refusals;
      hide RunRecovery.RefusedSoFar;
      ghost var s := run.View();
      RefusedNone(s, tasks, decision);
      var i := 0;
      while i < |tasks|
        invariant 0 <= i <= |tasks| && run.hand == tasks[i..] && RefusedSoFar(s, run.View(), tasks, i, decision)
        invariant Inv(Conf(run), run.View()) && Lined(Conf(run), run.View(), 0, |run.hand|, Requested)
        invariant decision == ReplyAt(Conf(run), Asked(run.log))
        invariant run.View() == old(run.View()).(hand := run.hand, results := run.results, log := run.log,
                                                 snapshots := run.snapshots, outcomes := run.outcomes)
      {
        ghost var s1 := run.View();
        DeclineFirst(run, tasks[i], decision);
        AskedBefore(s1.log, run.log);
        RefusedNext(s, s1, run.View(), tasks, i, decision);
        i := i + 1;
      }
      RefusedAll(s, run.View(), tasks, decision);
    }
  
    /** Works the first task in hand through its current command list, failing
        fast and watching the token. The task's results are thrown away. */
    method WorkThrough(run: Run, task: ActiveTask) returns (task': ActiveTask, interrupted: bool)
      requires Inv(Conf(run), run.View()) && !Cut(Conf(run), run.View()) && Recovering(Conf(run), run.View(), task)
      requires InList(run.log, task)
      modifies run
      ensures Inv(Conf(run), run.View()) && Recovering(Conf(run), run.View(), task') && task'.child.None?
      ensures run.View() == old(run.View()).(hand := run.hand, log := run.log, now := run.now)
      ensures task' == task.(commands := task'.commands, child := None, current := task'.current,
                             failures := task'.failures, restartsLeft := task'.restartsLeft)
      ensures run.hand == [task'] + old(run.hand)[1..]
      ensures interrupted <==> Cut(Conf(run), run.View())
      ensures Onward(old(run.log), run.log)
      ensures !interrupted ==> InList(run.log, task') && (task'.failures == [] ==> task'.commands == [])
    {
      hide RunState.Inv;
      hide RunState.InList;
      hide RunState.OwnFailures;
      task' := task;
      while true
        invariant Inv(Conf(run), run.View()) && !Cut(Conf(run), run.View()) && Recovering(Conf(run), run.View(), task')
        invariant run.View() == old(run.View()).(hand := run.hand, log := run.log, now := run.now)
        invariant InList(run.log, task') && Onward(old(run.log), run.log)
        invariant run.hand == [task'] + old(run.hand)[1..]
        invariant task' == task.(commands := task'.commands, child := task'.child, current := task'.current,
                                 failures := task'.failures, restartsLeft := task'.restartsLeft)
        decreases Weight(task'), ChildFuel(task')
      {
        var step;
        task', step := RecoveryTurn(run, task');
        if step != StepRunning { return task', false; }
        ghost var s := run.View();
        interrupted := Interrupted(run, 1, |run.hand|, Requested);
        if interrupted {
          task' := StopRecovering(run, task');
          return;
        }
        assert run.log == s.log;
      }
    }

    method RecoveryTurn(run: Run, task: ActiveTask) returns (task': ActiveTask, step: TaskStep)
      requires Inv(Conf(run), run.View()) && !Cut(Conf(run), run.View()) && Recovering(Conf(run), run.View(), task)
      requires InList(run.log, task)
      modifies run
      ensures Inv(Conf(run), run.View()) && Recovering(Conf(run), run.View(), task')
      ensures run.View() == old(run.View()).(hand := run.hand, log := run.log)
      ensures run.hand == [task'] + old(run.hand)[1..] && Onward(old(run.log), run.log)
      ensures task' == task.(commands := task'.commands, child := task'.child, current := task'.current,
                             failures := task'.failures, restartsLeft := task'.restartsLeft)
      ensures step == StepRunning ==> InList(run.log, task') && LessWork(task', task)
      ensures step != StepRunning ==>
                && task'.child.None? && InList(run.log, task') && (task'.failures == [] ==> task'.commands == [])
    {
      hide RunState.Inv;
      hide RunState.InList;
      ghost var s := run.View();
      var thrownAway;
      task', thrownAway, step := AdvanceTask(run, task, true);
      run.hand := run.hand[0 := task'];
      RecoverInv(Conf(run), s, task', thrownAway, step, run.View());
      LinedFrame(Conf(run), s, 0, run.View(), 1, |s.hand|, Requested);
    }

    /** Cancellation cuts a recovering task short: its child goes, it stays in hand. */
    method StopRecovering(run: Run, task: ActiveTask) returns (task': ActiveTask)
      requires Inv(Conf(run), run.View()) && Recovering(Conf(run), run.View(), task)
      modifies run
      ensures Inv(Conf(run), run.View()) && Recovering(Conf(run), run.View(), task')
      ensures task' == task.(child := None, commands := [])
      ensures run.View() == old(run.View()).(hand := run.hand)
      ensures run.hand == [task'] + old(run.hand)[1..]
    {
      hide RunState.Inv;
      ghost var s := run.View();
      var escalated;
      task', escalated := ShutdownTask(task);
      run.hand := run.hand[0 := task'];
      RewriteInv(Conf(run), s, task', run.View());
      LinedFrame(Conf(run), s, 0, run.View(), 1, |s.hand|, Requested);
    }
  
    /** Announces a step of the first task in hand; the others keep lying. */
    method AnnounceHead(run: Run, task: ActiveTask, step: RecoveryStep)
      requires Inv(Conf(run), run.View()) && run.hand != [] && run.hand[0] == task
      requires step == ApprovalDecided(Approved) ==> run.policy == Prompt
      requires DecisionOk(Conf(run), run.log, RecoveryPhase(task.entry, step))
      requires Live(Next(ProgressOf(run.log, task.entry.ticket), RecoveryPhase(task.entry, step)))
      requires step != OriginalFailed && task.entry.plan.recovery.Some?
      requires Lined(Conf(run), run.View(), 1, |run.hand|, Requested)
      modifies run
      ensures Inv(Conf(run), run.View()) && Lined(Conf(run), run.View(), 1, |run.hand|, Requested)
      ensures run.View() == old(run.View()).(log := old(run.log) + [RecoveryPhase(task.entry, step)])
      ensures ProgressOf(run.log, task.entry.ticket)
           == Next(ProgressOf(old(run.log), task.entry.ticket), RecoveryPhase(task.entry, step))
      ensures forall phase :: Failures(run.log, task.entry.ticket, phase) == Failures(old(run.log), task.entry.ticket, phase)
    {
      hide RunState.Inv;
      hide RunState.OwnFailures;
      ghost var s := run.View();
      Announce(run, 0, task.entry, step);
      LinedFrame(Conf(run), s, 0, run.View(), 1, |run.hand|, Requested);
    }

    /** Announces the approval of the first task in hand and the start of its recovery. */
    method AnnounceApproval(run: Run, task: ActiveTask)
      requires Inv(Conf(run), run.View()) && run.hand != [] && run.hand[0] == task && run.policy == Prompt
      requires Lined(Conf(run), run.View(), 0, |run.hand|, Requested) && ReplyAt(Conf(run), Asked(run.log)) == Approved
      modifies run
      ensures Inv(Conf(run), run.View()) && Lined(Conf(run), run.View(), 1, |run.hand|, Requested)
      ensures run.View() == old(run.View()).(log := run.log) && Onward(old(run.log), run.log)
      ensures ProgressOf(run.log, task.entry.ticket) == Commands(Recovery, 0)
      ensures Deferred(task) && !task.IsService() && task.entry.stage + 1 == run.popped
    {
      hide RunState.Inv;
      assert Lying(Conf(run), run.View(), task, Requested);
      AnnounceHead(run, task, ApprovalDecided(Approved));
      AnnounceHead(run, task, RecoveryStarted);
    }

    /** An approved task switches from its failed original run to its recovery commands. */
    method BeginRecovery(run: Run, task: ActiveTask) returns (task': ActiveTask)
      requires Inv(Conf(run), run.View()) && run.hand != [] && run.hand[0] == task && run.policy == Prompt
      requires Lined(Conf(run), run.View(), 0, |run.hand|, Requested) && run.active == [] && run.queued == [] && run.pending == []
      requires ReplyAt(Conf(run), Asked(run.log)) == Approved
      modifies run
      ensures Inv(Conf(run), run.View()) && Recovering(Conf(run), run.View(), task') && InList(run.log, task')
      ensures task' == Relisted(task, Recovery) && run.View() == old(run.View()).(hand := run.hand, log := run.log)
      ensures run.hand == [task'] + old(run.hand)[1..] && Onward(old(run.log), run.log)
    {
      hide RunState.Inv;
      hide RunState.InList;
      hide RunRecovery.Lined;
      AnnounceApproval(run, task);
      task' := SwitchList(run, task, Recovery);
    }

    /** The first task in hand takes up another of its command lists. */
    method SwitchList(run: Run, task: ActiveTask, phase: Phase) returns (task': ActiveTask)
      requires Inv(Conf(run), run.View()) && run.hand != [] && run.hand[0] == task && phase != Original
      requires !Owes(task) && !task.IsService() && task.validated
      requires task.entry.plan.recovery.Some? && task.entry.stage + 1 == run.popped
      requires ProgressOf(run.log, task.entry.ticket) == Commands(phase, 0)
      requires Lined(Conf(run), run.View(), 1, |run.hand|, Requested) && run.active == [] && run.queued == [] && run.pending == []
      modifies run
      ensures Inv(Conf(run), run.View()) && Recovering(Conf(run), run.View(), task') && InList(run.log, task')
      ensures task' == Relisted(task, phase) && run.View() == old(run.View()).(hand := run.hand)
      ensures run.hand == [task'] + old(run.hand)[1..]
    {
      hide RunState.Inv;
      ghost var s := run.View();
      task' := Relisted(task, phase);
      run.hand := run.hand[0 := task'];
      RelistInv(Conf(run), s, phase, run.View());
      LinedFrame(Conf(run), s, 0, run.View(), 1, |s.hand|, Requested);
    }

    /** After a passed recovery the original commands are run once more. */
    method BeginVerification(run: Run, task: ActiveTask) returns (task': ActiveTask)
      requires Inv(Conf(run), run.View()) && Recovering(Conf(run), run.View(), task)
      requires ProgressOf(run.log, task.entry.ticket) == Recovered(true)
      modifies run
      ensures Inv(Conf(run), run.View()) && Recovering(Conf(run), run.View(), task') && InList(run.log, task')
      ensures task' == Relisted(task, Verification) && run.View() == old(run.View()).(hand := run.hand, log := run.log)
      ensures run.hand == [task'] + old(run.hand)[1..] && Onward(old(run.log), run.log)
    {
      hide RunState.Inv;
      AnnounceHead(run, task, VerificationStarted);
      task' := SwitchList(run, task, Verification);
    }

    /** Records the recovered task with one combined result. */
    method RecordRecovered(run: Run, task: ActiveTask, result: CommandResult)
      requires Inv(Conf(run), run.View()) && Recovering(Conf(run), run.View(), task)
      requires result.Err? <==> task.failures != []
      requires MayEnd(task.entry.plan, ProgressOf(run.log, task.entry.ticket), StateOf(OutcomeOf(task.failures)))
      requires ProgressOf(run.log, task.entry.ticket).Recovered? || ProgressOf(run.log, task.entry.ticket).Verified?
      requires task.failures == FinalFailures(Conf(run), run.log, task.entry)
      modifies run
      ensures Inv(Conf(run), run.View()) && run.hand == old(run.hand)[1..]
      ensures Lined(Conf(run), run.View(), 0, |run.hand|, Requested)
      ensures run.View() == old(run.View()).(hand := run.hand, results := old(run.results) + [result],
                snapshots := old(run.snapshots) + [Snapshot(task.entry, StateOf(OutcomeOf(task.failures)))],
                outcomes := old(run.outcomes) + [Recorded(task.entry, OutcomeOf(task.failures))],
                log := old(run.log) + [Terminal(task.entry, StateOf(OutcomeOf(task.failures)))])
    {
      hide RunState.Inv;
      hide RunState.FinalFailures;
      hide RunState.OwnFailures;
      ghost var s := run.View();
      assert result in [result];
      run.results := run.results + [result];
      RecordTaskOutcome(run, task, s, [result]);
      LinedShift(Conf(run), s, run.View(), Requested);
    }

    /** A failed recovery keeps the original failures in front of its own. */
    method RecordUnrecovered(run: Run, task: ActiveTask, original: seq<Failure>)
      requires Inv(Conf(run), run.View()) && Recovering(Conf(run), run.View(), task) && task.failures != [] && task.child.None?
      requires ProgressOf(run.log, task.entry.ticket) == Recovered(false)
      requires task.failures == Failures(run.log, task.entry.ticket, Recovery)
      requires original == OwnFailures(Conf(run), run.log, task.entry)
      modifies run
      ensures Inv(Conf(run), run.View()) && run.hand == old(run.hand)[1..]
      ensures Lined(Conf(run), run.View(), 0, |run.hand|, Requested)
      ensures run.View() == old(run.View()).(hand := run.hand,
                results := old(run.results) + [Err(task.failures[|task.failures| - 1])],
                snapshots := old(run.snapshots) + [Snapshot(task.entry, Failed)],
                outcomes := old(run.outcomes) + [Recorded(task.entry, TaskFailed(original + task.failures))],
                log := old(run.log) + [Terminal(task.entry, Failed)])
    {
      hide RunState.Inv;
      hide RunState.FinalFailures;
      hide RunState.OwnFailures;
      ghost var s := run.View();
      FinalRecovery(Conf(run), s.log, task.entry);
      var task' := task.(failures := original + task.failures);
      run.hand := run.hand[0 := task'];
      RewriteInv(Conf(run), s, task', run.View());
      LinedFrame(Conf(run), s, 0, run.View(), 1, |s.hand|, Requested);
      assert run.hand[1..] == s.hand[1..];
      RecordRecovered(run, task', Err(task'.failures[|task'.failures| - 1]));
    }

    method FailWaiting(run: Run, task: ActiveTask)
      requires Inv(Conf(run), run.View()) && run.hand != [] && run.hand[0] == task
      requires Lined(Conf(run), run.View(), 0, |run.hand|, Requested)
      requires GaveUp(run.log)
      modifies run
      ensures Inv(Conf(run), run.View()) && run.hand == old(run.hand)[1..]
      ensures Lined(Conf(run), run.View(), 0, |run.hand|, Requested)
      ensures run.View() == old(run.View()).(hand := run.hand, results := run.results, log := run.log,
                                             snapshots := run.snapshots, outcomes := run.outcomes)
      ensures KeepFailures(old(run.View()), run.View(), [task]) && run.log == old(run.log) + [Terminal(task.entry, Failed)]
    {
      hide RunState.Inv;
      hide RunState.OwnFailures;
      assert Lying(Conf(run), run.View(), task, Requested);
      FailFirst(run, task, Requested);
    }

    /** Every task still waiting is recorded as failed. */
    method FailRemaining(run: Run, tasks: seq<ActiveTask>)
      requires Inv(Conf(run), run.View()) && run.hand == tasks && Lined(Conf(run), run.View(), 0, |tasks|, Requested)
      requires GaveUp(run.log)
      modifies run
      ensures Inv(Conf(run), run.View())
      ensures run.View() == old(run.View()).(hand := [], results := run.results, log := run.log,
                                             snapshots := run.snapshots, outcomes := run.outcomes)
      ensures KeepFailures(old(run.View()), run.View(), tasks) && run.log == old(run.log) + FailedEnds(tasks)
    {
      hide RunState.Inv;
      hide RunSettling.KeepFailures;
      hide RunRecovery.Lined;
      hide RunRecovery.EndedSoFar;
      hide RunLog.GaveUp;
      ghost var s := run.View();
      EndedNone(s, tasks);
      var i := 0;
      while i < |tasks|
        invariant 0 <= i <= |tasks| && run.hand == tasks[i..] && GaveUp(run.log) && EndedSoFar(s, run.View(), tasks, i)
        invariant Inv(Conf(run), run.View()) && Lined(Conf(run), run.View(), 0, |run.hand|, Requested)
        invariant run.View() == old(run.View()).(hand := run.hand, results := run.results, log := run.log,
                                                 snapshots := run.snapshots, outcomes := run.outcomes)
      {
        ghost var s1 := run.View();
        FailWaiting(run, tasks[i]);
        StillGivenUp(s1.log, run.log);
        EndedNext(s, s1, run.View(), tasks, i);
        i := i + 1;
      }
      EndedAll(s, run.View(), tasks);
    }

    /** Announces how a command list of the task in recovery ended. */
    method AnnounceEnd(run: Run, task: ActiveTask)
      requires Inv(Conf(run), run.View()) && Recovering(Conf(run), run.View(), task)
      requires InList(run.log, task) && task.child.None? && (task.failures == [] ==> task.commands == [])
      modifies run
      ensures Inv(Conf(run), run.View()) && Recovering(Conf(run), run.View(), task)
      ensures run.View() == old(run.View()).(log := run.log) && Onward(old(run.log), run.log)
      ensures ProgressOf(run.log, task.entry.ticket)
           == if task.phase == Recovery then Recovered(task.failures == []) else Verified(task.failures == [])
      ensures task.failures == Failures(run.log, task.entry.ticket, task.phase)
    {
      hide RunState.Inv;
      hide RunState.OwnFailures;
      hide RunState.InList;
      hide RunLog.Next;
      hide RunRecovery.Lined;
      EndAnnounced(run.log, task);
      hide RunLog.ProgressOf;
      hide RunLog.Failures;
      hide RunState.Deferred;
      ghost var before := run.View();
      AnnounceHead(run, task, EndStep(task));
      RecoveringStill(Conf(run), before, run.View(), task);
    }

    /** Works through the current list and announces how it ended. */
    method WorkAndAnnounce(run: Run, task: ActiveTask) returns (task': ActiveTask, cut: bool)
      requires Inv(Conf(run), run.View()) && !Cut(Conf(run), run.View()) && Recovering(Conf(run), run.View(), task)
      requires InList(run.log, task)
      modifies run
      ensures Inv(Conf(run), run.View()) && Recovering(Conf(run), run.View(), task') && task'.child.None?
      ensures task'.entry == task.entry
      ensures run.View() == old(run.View()).(hand := run.hand, log := run.log, now := run.now)
      ensures run.hand == [task'] + old(run.hand)[1..] && Onward(old(run.log), run.log)
      ensures cut <==> Cut(Conf(run), run.View())
      ensures !cut ==>
                ProgressOf(run.log, task'.entry.ticket)
                == if task.phase == Recovery then Recovered(task'.failures == []) else Verified(task'.failures == [])
      ensures !cut ==> task'.failures == Failures(run.log, task.entry.ticket, task.phase)
    {
      hide RunState.Inv;
      task', cut := WorkThrough(run, task);
      if !cut { AnnounceEnd(run, task'); }
    }

    /** Runs the recovery commands of the first task in hand. */
    method Recover(run: Run, task: ActiveTask) returns (task': ActiveTask, cut: bool)
      requires Inv(Conf(run), run.View()) && run.hand != [] && run.hand[0] == task && run.policy == Prompt
      requires Lined(Conf(run), run.View(), 0, |run.hand|, Requested) && !Cut(Conf(run), run.View())
      requires run.active == [] && run.queued == [] && run.pending == []
      requires ReplyAt(Conf(run), Asked(run.log)) == Approved
      modifies run
      ensures Inv(Conf(run), run.View()) && Recovering(Conf(run), run.View(), task') && task'.child.None?
      ensures task'.entry == task.entry
      ensures run.View() == old(run.View()).(hand := run.hand, log := run.log, now := run.now)
      ensures run.hand == [task'] + old(run.hand)[1..] && Onward(old(run.log), run.log)
      ensures cut <==> Cut(Conf(run), run.View())
      ensures !cut ==> ProgressOf(run.log, task'.entry.ticket) == Recovered(task'.failures == [])
      ensures !cut ==> task'.failures == Failures(run.log, task.entry.ticket, Recovery)
    {
      hide RunState.Inv;
      task' := BeginRecovery(run, task);
      task', cut := WorkAndAnnounce(run, task');
    }

    /** Runs the original commands of a recovered task once more. */
    method Verify(run: Run, task: ActiveTask) returns (task': ActiveTask, cut: bool)
      requires Inv(Conf(run), run.View()) && Recovering(Conf(run), run.View(), task) && !Cut(Conf(run), run.View())
      requires ProgressOf(run.log, task.entry.ticket) == Recovered(true)
      modifies run
      ensures Inv(Conf(run), run.View()) && Recovering(Conf(run), run.View(), task') && task'.child.None?
      ensures task'.entry == task.entry
      ensures run.View() == old(run.View()).(hand := run.hand, log := run.log, now := run.now)
      ensures run.hand == [task'] + old(run.hand)[1..] && Onward(old(run.log), run.log)
      ensures cut <==> Cut(Conf(run), run.View())
      ensures !cut ==> ProgressOf(run.log, task'.entry.ticket) == Verified(task'.failures == [])
      ensures !cut ==> task'.failures == Failures(run.log, task.entry.ticket, Verification)
    {
      hide RunState.Inv;
      task' := BeginVerification(run, task);
      task', cut := WorkAndAnnounce(run, task');
    }

    /** Recovers and verifies the first task in hand, with `rest` waiting behind it.
        A failed recovery gives the whole pass up; a cancellation puts everything
        back among the pending recoveries. */
    method RecoverFirst(run: Run, task: ActiveTask, rest: seq<ActiveTask>) returns (end: RecoveryEnd)
      requires Inv(Conf(run), run.View()) && run.hand == [task] + rest && run.policy == Prompt
      requires Lined(Conf(run), run.View(), 0, |run.hand|, Requested) && !Cut(Conf(run), run.View())
      requires run.active == [] && run.queued == [] && run.pending == []
      requires ReplyAt(Conf(run), Asked(run.log)) == Approved
      modifies run
      ensures Inv(Conf(run), run.View())
      ensures run.View() == old(run.View()).(hand := run.hand, pending := run.pending, results := run.results, log := run.log,
                                             now := run.now, snapshots := run.snapshots, outcomes := run.outcomes)
      ensures end == CutShort <==> Cut(Conf(run), run.View())
      ensures end == CutShort ==> run.hand == [] && Resumable(old(run.View()), run.View(), [task] + rest)
      ensures end != CutShort ==> run.hand == rest && Lined(Conf(run), run.View(), 0, |run.hand|, Requested) && run.pending == []
      ensures end != CutShort ==> Grown(old(run.View()), run.View(), 1) && JobTreated(old(run.View()), run.View(), task, 0)
      ensures Onward(old(run.log), run.log)
      ensures end != CutShort ==> (end == Continue <==> RecoveryPassed(run.log, task))
    {
      hide RunState.Inv;
      hide RunState.InList;
      hide RunRecovery.Treated;
      hide RunRecovery.RecoveryPassed;
      hide RunRecovery.VerifiedIn;
      hide RunState.Entries;
      hide RunState.OwnFailures;
      ghost var s := run.View();
      assert Lying(Conf(run), s, run.hand[0], Requested);
      var task', cut := Recover(run, task);
      if cut {
        KeepCutShort(run, [task'] + rest);
        SameEntries(task, task', rest);
        end := CutShort;
      } else {
        end := AfterRecovery(run, task, task', rest, s);
      }
    }

    /** Records a task whose recovery failed, or verifies it. */
    method AfterRecovery(run: Run, task: ActiveTask, recovered: ActiveTask, rest: seq<ActiveTask>, ghost s: State)
        returns (end: RecoveryEnd)
      requires Inv(Conf(run), run.View()) && Recovering(Conf(run), run.View(), recovered) && !Cut(Conf(run), run.View())
      requires run.hand == [recovered] + rest && recovered.child.None? && recovered.entry == task.entry
      requires ProgressOf(run.log, task.entry.ticket) == Recovered(recovered.failures == [])
      requires recovered.failures == Failures(run.log, task.entry.ticket, Recovery)
      requires run.View() == s.(hand := run.hand, log := run.log, now := run.now) && Onward(s.log, run.log)
      requires ProgressOf(s.log, task.entry.ticket) == Requested
      requires task.failures == OwnFailures(Conf(run), s.log, task.entry)
      modifies run
      ensures Inv(Conf(run), run.View())
      ensures run.View() == s.(hand := run.hand, pending := run.pending, results := run.results, log := run.log,
                               now := run.now, snapshots := run.snapshots, outcomes := run.outcomes)
      ensures end == CutShort <==> Cut(Conf(run), run.View())
      ensures end == CutShort ==> run.hand == [] && Resumable(s, run.View(), [task] + rest)
      ensures end != CutShort ==> run.hand == rest && Lined(Conf(run), run.View(), 0, |run.hand|, Requested) && run.pending == []
      ensures end != CutShort ==> Grown(s, run.View(), 1) && JobTreated(s, run.View(), task, 0)
      ensures Onward(s.log, run.log)
      ensures end != CutShort ==> (end == Continue <==> RecoveryPassed(run.log, task))
    {
      hide RunState.Inv;
      hide RunState.InList;
      hide RunRecovery.Treated;
      hide RunRecovery.RecoveryPassed;
      hide RunRecovery.VerifiedIn;
      hide RunState.Entries;
      hide RunState.OwnFailures;
      ghost var log := run.log;
      OwnStays(Conf(run), s.log, log, task.entry);
      if recovered.failures != [] {
        RecordUnrecovered(run, recovered, task.failures);
        UnrecoveredTreated(s.log, log, task, recovered.failures);
        end := GiveUp;
      } else {
        var found;
        end, found := VerifyFirst(run, recovered, rest);
        if end == CutShort {
          SameEntries(task, recovered, rest);
        } else {
          VerifiedTreated(s.log, log, run.log, task, found);
        }
      }
    }

    /** Verifies a recovered task and records it. */
    method VerifyFirst(run: Run, task: ActiveTask, rest: seq<ActiveTask>) returns (end: RecoveryEnd, found: seq<Failure>)
      requires Inv(Conf(run), run.View()) && Recovering(Conf(run), run.View(), task) && !Cut(Conf(run), run.View())
      requires run.hand == [task] + rest && ProgressOf(run.log, task.entry.ticket) == Recovered(true)
      modifies run
      ensures Inv(Conf(run), run.View())
      ensures run.View() == old(run.View()).(hand := run.hand, pending := run.pending, results := run.results, log := run.log,
                                             now := run.now, snapshots := run.snapshots, outcomes := run.outcomes)
      ensures end == (if Cut(Conf(run), run.View()) then CutShort else Continue)
      ensures end == CutShort ==> run.hand == [] && Resumable(old(run.View()), run.View(), [task] + rest)
      ensures end == Continue ==> run.hand == rest && Lined(Conf(run), run.View(), 0, |run.hand|, Requested) && run.pending == []
      ensures Onward(old(run.log), run.log)
      ensures end == Continue ==>
        && VerifiedIn(old(run.log), run.log, task.entry, found)
        && run.outcomes == old(run.outcomes) + [Recorded(task.entry, OutcomeOf(found))]
        && run.results == old(run.results) + [if found == [] then Ok else Err(found[|found| - 1])]
    {
      hide RunState.Inv;
      hide RunState.Entries;
      hide RunRecovery.VerifiedIn;
      hide RunLog.MayEnd;
      ghost var before := run.log;
      hide RunState.FinalFailures;
      hide RunState.OwnFailures;
      var task', cut := Verify(run, task);
      end, found := CutShort, task'.failures;
      if cut {
        KeepCutShort(run, [task'] + rest);
        SameEntries(task, task', rest);
      } else {
        FinalVerification(Conf(run), run.log, task.entry);
        VerifiedThen(before, run.log, task.entry, found);
        VerifiedMayEnd(task.entry.plan, found);
        RecordRecovered(run, task', if found == [] then Ok else Err(found[|found| - 1]));
        end := Continue;
      }
    }

    /** Recovers the approved tasks one after the other, in position order. */
    method RecoverAll(run: Run, tasks: seq<ActiveTask>) returns (interrupted: bool, ghost treated: nat)
      requires Inv(Conf(run), run.View()) && run.hand == tasks && tasks != [] && run.policy == Prompt
      requires Lined(Conf(run), run.View(), 0, |tasks|, Requested) && !Cut(Conf(run), run.View())
      requires run.active == [] && run.queued == [] && run.pending == []
      requires ReplyAt(Conf(run), Asked(run.log)) == Approved
      modifies run
      ensures Inv(Conf(run), run.View()) && run.hand == []
      ensures run.View() == old(run.View()).(hand := [], pending := run.pending, results := run.results, log := run.log,
                                             now := run.now, snapshots := run.snapshots, outcomes := run.outcomes)
      ensures interrupted <==> Cut(Conf(run), run.View())
      ensures !interrupted ==> run.pending == [] && RecoveryPass(old(run.View()), run.View(), tasks, treated)
      ensures interrupted ==> CutAfter(old(run.View()), run.View(), tasks, treated)
    {
      hide RunState.Inv;
      hide RunRecovery.PassedSoFar;
      hide RunRecovery.JobTreated;
      hide RunRecovery.Treated;
      hide RunRecovery.RecoveryPassed;
      hide RunRecovery.Resumable;
      hide RunRecovery.Accepted;
      hide RunRecovery.CutAfter;
      hide RunRecovery.RecoveryPass;
      ghost var s := run.View();
      PassNone(s, tasks);
      var rest := tasks;
      treated := 0;
      while rest != []
        invariant treated <= |tasks| && rest == tasks[treated..] && run.hand == rest && run.pending == []
        invariant Inv(Conf(run), run.View()) && Lined(Conf(run), run.View(), 0, |rest|, Requested) && !Cut(Conf(run), run.View())
        invariant run.View() == old(run.View()).(hand := rest, results := run.results, log := run.log,
                                                 now := run.now, snapshots := run.snapshots, outcomes := run.outcomes)
        invariant ReplyAt(Conf(run), Asked(run.log)) == Approved
        invariant PassedSoFar(s, run.View(), tasks, treated)
        decreases |rest|
      {
        ghost var mid := run.View();
        var end := RecoverNext(run, rest);
        IsAccepted(Conf(run), run.View());
        if end == CutShort {
          PassCut(s, mid, run.View(), tasks, treated);
          return true, treated;
        }
        if end == GiveUp {
          PassFails(s, mid, run.View(), tasks, treated);
          return false, treated + 1;
        }
        AskedBefore(mid.log, run.log);
        PassNext(s, mid, run.View(), tasks, treated);
        rest, treated := rest[1..], treated + 1;
      }
      PassWhole(s, run.View(), tasks);
      interrupted := false;
    }

    /** Recovers the first task; when that fails the others are given up with it. */
    method RecoverNext(run: Run, tasks: seq<ActiveTask>) returns (end: RecoveryEnd)
      requires Inv(Conf(run), run.View()) && run.hand == tasks && tasks != [] && run.policy == Prompt
      requires Lined(Conf(run), run.View(), 0, |tasks|, Requested) && !Cut(Conf(run), run.View())
      requires run.active == [] && run.queued == [] && run.pending == []
      requires ReplyAt(Conf(run), Asked(run.log)) == Approved
      modifies run
      ensures Inv(Conf(run), run.View())
      ensures run.View() == old(run.View()).(hand := run.hand, pending := run.pending, results := run.results, log := run.log,
                                             now := run.now, snapshots := run.snapshots, outcomes := run.outcomes)
      ensures end == CutShort <==> Cut(Conf(run), run.View())
      ensures end == CutShort ==> Resumable(old(run.View()), run.View(), tasks)
      ensures end != Continue ==> run.hand == []
      ensures Onward(old(run.log), run.log)
      ensures end != CutShort ==> run.pending == []
      ensures end == Continue ==>
        && run.hand == tasks[1..] && Lined(Conf(run), run.View(), 0, |run.hand|, Requested)
        && Grown(old(run.View()), run.View(), 1) && JobTreated(old(run.View()), run.View(), tasks[0], 0)
        && RecoveryPassed(run.log, tasks[0])
      ensures end == GiveUp ==> RecoveryPass(old(run.View()), run.View(), tasks, 1) && !RecoveryPassed(run.log, tasks[0])
    {
      hide RunState.Inv;
      hide RunState.OwnFailures;
      hide RunRecovery.JobTreated;
      hide RunRecovery.RecoveryPassed;
      hide RunRecovery.RecoveryPass;
      hide RunSettling.KeepFailures;
      hide RunRecovery.Lined;
      hide RunLog.GaveUp;
      hide RunRecovery.Resumable;
      ghost var s := run.View();
      assert [tasks[0]] + tasks[1..] == tasks;
      end := RecoverFirst(run, tasks[0], tasks[1..]);
      if end == GiveUp {
        ghost var s1 := run.View();
        RestWaits(Conf(run), s1, tasks);
        RecoveryGaveUp(s, s1, tasks[0]);
        FailRemaining(run, tasks[1..]);
        IsAccepted(Conf(run), run.View());
        PassGivenUp(s, s1, run.View(), tasks);
      }
    }

    /** The interrupted task and the waiting ones become pending again. */
    method KeepCutShort(run: Run, tasks: seq<ActiveTask>)
      requires Inv(Conf(run), run.View()) && Cut(Conf(run), run.View()) && run.hand == tasks
      requires tasks != [] && Recovering(Conf(run), run.View(), tasks[0]) && tasks[0].child.None?
      modifies run
      ensures Inv(Conf(run), run.View())
      ensures run.View() == old(run.View()).(hand := [], pending := tasks)
    {
      hide RunState.Inv;
      hide RunState.OwnFailures;
      ghost var s := run.View();
      forall t | t in s.hand ensures t.child.None? && !t.IsService() && t.entry.stage + 1 == s.popped && !Owes(t) {
        var j :| 0 <= j < |s.hand| && s.hand[j] == t;
        if j > 0 { assert Lying(Conf(run), s, t, Requested); }
      }
      PutBack(run, tasks);
    }

    /** One bounded recovery pass over the pending tasks, in position order.
        `interrupted` when the token stopped it; then the tasks are pending again. */
    method ResolveRecoveries(run: Run) returns (interrupted: bool, ghost treated: nat)
      requires Inv(Conf(run), run.View()) && run.hand == [] && !Cut(Conf(run), run.View())
      requires run.active == [] && run.queued == []
      modifies run
      ensures Inv(Conf(run), run.View())
      ensures run.View() == old(run.View()).(pending := run.pending, results := run.results, log := run.log,
                                             now := run.now, snapshots := run.snapshots, outcomes := run.outcomes)
      ensures interrupted <==> Cut(Conf(run), run.View())
      ensures !interrupted ==>
        run.pending == [] && Owners(run.outcomes) == Owners(old(run.outcomes)) + Entries(SortByPosition(old(run.pending)))
      ensures !interrupted ==> Resolved(Conf(run), old(run.View()), run.View(), SortByPosition(old(run.pending)), treated)
      ensures interrupted ==> CutAfter(old(run.View()), run.View(), SortByPosition(old(run.pending)), treated)
    {
      hide RunState.Inv;
      hide RunSettling.SortByPosition;
      hide RunRecovery.Resolved;
      hide RunRecovery.Lined;
      hide RunReport.Owners;
      hide RunRecovery.PassedSoFar;
      hide RunRecovery.CutAfter;
      ghost var s := run.View();
      treated := 0;
      var tasks := TakePendingLined(run);
      if tasks == [] {
        NothingResolved(Conf(run), s, run.View(), tasks);
        ResolvedOwners(Conf(run), s, run.View(), tasks, 0);
        return false, 0;
      }
      interrupted := Interrupted(run, 0, |tasks|, FailedOriginal);
      if interrupted {
        PutBackLined(run, tasks, FailedOriginal);
        CutAtOnce(s, run.View(), tasks);
        return;
      }
      ghost var s1 := run.View();
      interrupted, treated := Ask(run, tasks);
      ResolvedSame(Conf(run), s, s1, run.View(), tasks, treated);
      if !interrupted { ResolvedOwners(Conf(run), s, run.View(), tasks, treated); }
    }

    /** Asks for the approval of the waiting tasks and does what is answered. */
    method Ask(run: Run, tasks: seq<ActiveTask>) returns (interrupted: bool, ghost treated: nat)
      requires Inv(Conf(run), run.View()) && run.hand == tasks && tasks != [] && !Cut(Conf(run), run.View())
      requires Lined(Conf(run), run.View(), 0, |tasks|, FailedOriginal)
      requires run.active == [] && run.queued == [] && run.pending == []
      modifies run
      ensures Inv(Conf(run), run.View())
      ensures run.View() == old(run.View()).(hand := [], pending := run.pending, results := run.results, log := run.log,
                                             now := run.now, snapshots := run.snapshots, outcomes := run.outcomes)
      ensures interrupted <==> Cut(Conf(run), run.View())
      ensures !interrupted ==> run.pending == [] && Resolved(Conf(run), old(run.View()), run.View(), tasks, treated)
      ensures interrupted ==> CutAfter(old(run.View()), run.View(), tasks, treated)
    {
      hide RunState.Inv;
      hide RunSettling.KeepFailures;
      hide RunRecovery.Resolved;
      hide RunRecovery.Followed;
      hide RunState.ReplyAt;
      hide RunRecovery.RecoveryPass;
      hide RunRecovery.Accepted;
      hide RunRecovery.Lined;
      hide RunLog.Asked;
      hide RunRecovery.Refusals;
      hide RunRecovery.PassedSoFar;
      hide RunRecovery.CutAfter;
      ghost var s := run.View();
      RequestApproval(run, tasks);
      RequestsAsked(s.log, tasks);
      var decision := AwaitDecision(run);
      ghost var s1 := run.View();
      interrupted, treated := Follow(run, tasks, decision);
      IsAccepted(Conf(run), run.View());
      CutFrom(s, s1, run.View(), tasks, treated);
      if !interrupted { ResolvedFrom(Conf(run), s, s1, run.View(), tasks, decision, treated); }
    }

    /** Does with the waiting tasks what was decided about them. */
    method Follow(run: Run, tasks: seq<ActiveTask>, decision: ApprovalDecision) returns (interrupted: bool, ghost treated: nat)
      requires Inv(Conf(run), run.View()) && run.hand == tasks && tasks != []
      requires Lined(Conf(run), run.View(), 0, |tasks|, Requested)
      requires decision == CancelledByToken <==> Cut(Conf(run), run.View())
      requires decision == Approved ==> run.policy == Prompt
      requires run.active == [] && run.queued == [] && run.pending == []
      requires decision == CancelledByToken || decision == ReplyAt(Conf(run), Asked(run.log))
      modifies run
      ensures Inv(Conf(run), run.View())
      ensures run.View() == old(run.View()).(hand := [], pending := run.pending, results := run.results, log := run.log,
                                             now := run.now, snapshots := run.snapshots, outcomes := run.outcomes)
      ensures interrupted <==> Cut(Conf(run), run.View())
      ensures !interrupted ==> run.pending == [] && decision != CancelledByToken
      ensures !interrupted ==> Followed(old(run.View()), run.View(), tasks, decision, treated)
      ensures interrupted ==> CutAfter(old(run.View()), run.View(), tasks, treated)
    {
      hide RunState.Inv;
      hide RunSettling.KeepFailures;
      hide RunRecovery.RecoveryPass;
      hide RunRecovery.CutAfter;
      hide RunRecovery.Lined;
      interrupted, treated := false, 0;
      if decision == CancelledByToken {
        ghost var s := run.View();
        PutBackLined(run, tasks, Requested);
        CutAtOnce(s, run.View(), tasks);
        interrupted := true;
      } else if decision != Approved {
        DeclineAll(run, tasks, decision);
      } else {
        interrupted, treated := RecoverAll(run, tasks);
      }
    }

    method TakePendingLined(run: Run) returns (tasks: seq<ActiveTask>)
      requires Inv(Conf(run), run.View()) && run.hand == [] && !Cut(Conf(run), run.View())
      modifies run
      ensures Inv(Conf(run), run.View()) && run.hand == tasks && Lined(Conf(run), run.View(), 0, |tasks|, FailedOriginal)
      ensures tasks == SortByPosition(old(run.pending))
      ensures run.View() == old(run.View()).(pending := [], hand := run.hand)
    {
      ghost var s := run.View();
      tasks := TakePending(run);
      forall j | 0 <= j < |tasks| ensures Lying(Conf(run), run.View(), tasks[j], FailedOriginal) {
        assert tasks[j] in s.pending;
        assert PendingOk(Conf(run), Cut(Conf(run), s), s.log, tasks[j]);
      }
    }

    method PutBackLined(run: Run, tasks: seq<ActiveTask>, ghost p: Progress)
      requires Inv(Conf(run), run.View()) && run.hand == tasks && run.pending == [] && Cut(Conf(run), run.View())
      requires Lined(Conf(run), run.View(), 0, |tasks|, p)
      modifies run
      ensures Inv(Conf(run), run.View())
      ensures run.View() == old(run.View()).(pending := tasks, hand := [])
    {
      hide RunState.Inv;
      forall t | t in tasks ensures Lying(Conf(run), run.View(), t, p) {
        var j :| 0 <= j < |tasks| && tasks[j] == t;
      }
      PutBack(run, tasks);
    }
  
    // ------------------------------------------------------------------- advance

    /** Advances the task in one slot; a settled task is deferred or recorded. */
    method AdvanceSlot(run: Run, index: nat) returns (end: SlotEnd)
      requires Inv(Conf(run), run.View()) && run.hand == [] && index < |run.active| && !Cut(Conf(run), run.View())
      modifies run
      ensures Inv(Conf(run), run.View())
      ensures run.View() == old(run.View()).(active := run.active, pending := run.pending, services := run.services,
                                             results := run.results, outcomes := run.outcomes,
                                             snapshots := run.snapshots, log := run.log)
      ensures |run.active| == |old(run.active)| - (if end == Stays then 0 else 1)
      ensures SlotEnded(Conf(run), old(run.View()), run.View(), index, end)
      ensures end == FailsFast ==> failFast
      ensures if end == Stays || end == Backgrounded then Less(run.View(), old(run.View()))
              else NoMore(run.View(), old(run.View()))
    {
      hide RunState.Inv;
      hide RunWork.Budget;
      hide RunWork.PollsLeft;
      hide RunWork.Less;
      hide RunWork.NoMore;
      ghost var s := run.View();
      SlotFacts(Conf(run), s, index);
      var task, rs, step := AdvanceTask(run, run.active[index], failFast);
      run.results := run.results + rs;
      end := Place(run, index, task, rs, step, s);
    }

    /** Where an advanced task goes. */
    method Place(run: Run, index: nat, task: ActiveTask, ghost rs: seq<CommandResult>, step: TaskStep, ghost s: State)
        returns (end: SlotEnd)
      requires Inv(Conf(run), s) && s.hand == [] && index < |s.active| && !Cut(Conf(run), s)
      requires Stepped(Conf(run), failFast, s.log, s.active[index], run.log, task, rs, step)
      requires step == StepRunning ==> LessWork(task, s.active[index])
      requires run.View() == s.(log := run.log, results := s.results + rs)
      modifies run
      ensures Inv(Conf(run), run.View())
      ensures run.View() == s.(active := run.active, pending := run.pending, services := run.services,
                               results := run.results, outcomes := run.outcomes,
                               snapshots := run.snapshots, log := run.log)
      ensures |run.active| == |s.active| - (if end == Stays then 0 else 1)
      ensures SlotEnded(Conf(run), s, run.View(), index, end)
      ensures end == FailsFast ==> failFast
      ensures if end == Stays || end == Backgrounded then Less(run.View(), s) else NoMore(run.View(), s)
    {
      hide RunState.Inv;
      hide RunWork.Less;
      hide RunWork.NoMore;
      if step == StepRunning && task.IsService() {
        MoveToBackground(run, index, task, rs, s);
        end := Backgrounded;
      } else if step == StepRunning {
        StayInSlot(run, index, task, rs, s);
        end := Stays;
      } else {
        LeaveSlot(run, index, task, rs, step, s);
        end := if step == StepFinished then Settles else FailsFast;
      }
    }

    /** A running finite task keeps its slot. */
    method StayInSlot(run: Run, index: nat, task: ActiveTask, ghost rs: seq<CommandResult>, ghost s: State)
      requires Inv(Conf(run), s) && s.hand == [] && index < |s.active| && !Cut(Conf(run), s) && !task.IsService()
      requires Stepped(Conf(run), failFast, s.log, s.active[index], run.log, task, rs, StepRunning)
      requires LessWork(task, s.active[index])
      requires run.View() == s.(log := run.log, results := s.results + rs)
      modifies run
      ensures Inv(Conf(run), run.View()) && Less(run.View(), s)
      ensures run.View() == s.(active := s.active[index := task], log := run.log, results := run.results)
    {
      hide RunState.Inv;
      run.active := run.active[index := task];
      ProgressInv(Conf(run), s, index, task, rs, run.View());
      StayWork(s, index, task, run.View());
    }

    /** A service that has been spawned never blocks later stages. */
    method MoveToBackground(run: Run, index: nat, task: ActiveTask, ghost rs: seq<CommandResult>, ghost s: State)
      requires Inv(Conf(run), s) && s.hand == [] && index < |s.active| && !Cut(Conf(run), s) && task.IsService()
      requires Stepped(Conf(run), failFast, s.log, s.active[index], run.log, task, rs, StepRunning)
      requires LessWork(task, s.active[index])
      requires run.View() == s.(log := run.log, results := s.results + rs)
      modifies run
      ensures Inv(Conf(run), run.View()) && Less(run.View(), s)
      ensures run.View() == s.(active := Without(s.active, index), services := s.services + [task],
                               log := run.log, results := run.results)
    {
      hide RunState.Inv;
      run.active := run.active[..index] + run.active[index + 1..];
      run.services := run.services + [task];
      BackgroundInv(Conf(run), s, index, task, rs, run.View());
      BackgroundWork(s, index, task, run.View());
    }

    /** A task that is done with its commands leaves its slot. */
    method LeaveSlot(run: Run, index: nat, task: ActiveTask, ghost rs: seq<CommandResult>, step: TaskStep, ghost s: State)
      requires Inv(Conf(run), s) && s.hand == [] && index < |s.active| && !Cut(Conf(run), s) && step != StepRunning
      requires Stepped(Conf(run), failFast, s.log, s.active[index], run.log, task, rs, step)
      requires run.View() == s.(log := run.log, results := s.results + rs)
      modifies run
      ensures Inv(Conf(run), run.View()) && NoMore(run.View(), s)
      ensures run.View() == s.(active := Without(s.active, index), pending := run.pending, results := run.results,
                               outcomes := run.outcomes, snapshots := run.snapshots, log := run.log)
      ensures SettledLast(Conf(run), s, run.View(), task.entry)
    {
      hide RunState.Inv;
      run.active := run.active[..index] + run.active[index + 1..];
      run.hand := [task];
      LeaveInv(Conf(run), s, index, task, rs, step, run.View());
      LeftIsEnded(Conf(run), s, index, task, rs, step, run.View());
      ghost var s1 := run.View();
      DeferOrRecord(run, task);
      LeaveWork(s, index, run.View());
      SettledOne(Conf(run), s, s1, run.View(), task, run.log[|s1.log|]);
    }

    /** Fail-fast stops the run: only waiting recoveries are still resolved. */
    method EndFast(run: Run) returns (step: Step)
      requires Inv(Conf(run), run.View()) && run.hand == [] && failFast && !Cut(Conf(run), run.View())
      modifies run
      ensures Inv(Conf(run), run.View()) && run.hand == [] && Stopped(Conf(run), run.View(), step == Finished)
      ensures run.planned == old(run.planned) && run.retired == old(run.retired) && run.cancelled == old(run.cancelled)
      ensures run.single == old(run.single) && SameStage(old(run.View()), run.View())
    {
      hide RunState.Inv;
      StopAfterFailure(run);
      var interrupted, _ := ResolveRecoveries(run);
      step := if interrupted then Running else Finished;
    }

    /** Advances every slot once, in order; `ends` says what became of each, and
        `ended` when fail-fast stops the run. */
    method AdvanceActive(run: Run) returns (finished: bool, ended: Option<Step>, ghost ends: seq<SlotEnd>)
      requires Inv(Conf(run), run.View()) && run.hand == [] && !Cut(Conf(run), run.View())
      modifies run
      ensures Inv(Conf(run), run.View()) && run.hand == []
      ensures run.planned == old(run.planned) && run.retired == old(run.retired) && run.cancelled == old(run.cancelled)
      ensures run.single == old(run.single) && SameStage(old(run.View()), run.View())
      ensures ended.None? ==>
                && run.View() == old(run.View()).(active := run.active, pending := run.pending, services := run.services,
                                                  results := run.results, outcomes := run.outcomes,
                                                  snapshots := run.snapshots, log := run.log)
                && |run.active| <= |old(run.active)| && (finished ==> |run.active| < |old(run.active)|)
                && NoMore(run.View(), old(run.View()))
                && (run.active != [] || (!finished && old(run.active) != []) ==> Less(run.View(), old(run.View())))
      ensures ended.None? ==> Advanced(old(run.active), run.active, |run.active|, ends) && |ends| == |old(run.active)|
      ensures ended.None? ==> FailsFast !in ends && (finished <==> Settles in ends)
      ensures ended.Some? ==> failFast && Stopped(Conf(run), run.View(), ended.value == Finished)
      ensures ended.Some? ==> ends != [] && |ends| <= |old(run.active)| && ends[|ends| - 1] == FailsFast
    {
      hide RunState.Inv;
      hide RunWork.Budget;
      hide RunWork.PollsLeft;
      hide RunReport.Advanced;
      hide RunReport.SlotEnded;
      finished, ended, ends := false, None, [];
      ghost var before := run.active;
      AdvancedNone(before);
      var index := 0;
      while index < |run.active|
        invariant Inv(Conf(run), run.View())
        invariant run.View() == old(run.View()).(active := run.active, pending := run.pending, services := run.services,
                                                 results := run.results, outcomes := run.outcomes,
                                                 snapshots := run.snapshots, log := run.log)
        invariant index <= |run.active| <= |before| && (finished ==> |run.active| < |before|)
        invariant Advanced(before, run.active, index, ends) && FailsFast !in ends && (finished <==> Settles in ends)
        invariant NoMore(run.View(), old(run.View()))
        invariant Less(run.View(), old(run.View())) || (index == 0 && (finished || run.active == before))
        decreases |run.active| - index
      {
        ghost var s := run.View();
        var end := AdvanceSlot(run, index);
        AdvancedNext(Conf(run), before, s, run.View(), index, ends, end);
        ends := ends + [end];
        match end {
          case Stays => index := index + 1;
          case Backgrounded =>
          case Settles => finished := true;
          case FailsFast =>
            var step := EndFast(run);
            ended := Some(step);
            return;
        }
      }
      AdvancedAll(before, run.active, index, ends);
    }

    /** The slot bound in force now: the run's own override, or the configured limit. */
    ghost function SlotLimit(run: Run): (limit: Positive)
      reads this
    {
      LimitFor(run.effectiveConcurrency)
    }

    ghost function LimitFor(override: Option<Positive>): (limit: Positive)
      reads this
    {
      if override.Some? then override.value else concurrencyLimit
    }

    /** Starts the next stage; its slot bound is fixed here. */
    method StartStage(run: Run)
      requires Working(Conf(run), run.View()) && run.stages != [] && run.queued == [] && run.active == []
      modifies run
      ensures Working(Conf(run), run.View())
      ensures StartsStage(old(run.View()), SlotLimit(run), run.View()) && NoMore(run.View(), old(run.View()))
      ensures SlotLimit(run) == 1 ==> run.single == old(run.single)
      ensures run.current == Some(old(run.stages)[0]) && run.limit == SlotLimit(run)
      ensures AllSlots(old(run.stages)[0], SlotLimit(run), run.stageLimit)
    {
      hide RunState.Inv;
      hide RunWork.NoMore;
      hide Plan.StageTasks;
      ghost var s := run.View();
      var stage := run.stages[0];
      var limit := if run.effectiveConcurrency.Some? then run.effectiveConcurrency.value else concurrencyLimit;
      PopStage(run, stage, limit);
      ghost var s' := run.View();
      StartStageInv(Conf(run), s, limit, s');
      StartWork(s, limit, s');
      OneSlotEnough(stage, limit);
    }

    method PopStage(run: Run, stage: Stage<Entry>, limit: Positive)
      requires run.stages != [] && stage == run.stages[0]
      modifies run
      ensures run.View() == old(run.View()).(stages := old(run.stages)[1..], popped := old(run.popped) + old(run.skipped) + 1,
                                             skipped := 0, queued := StageTasks(stage), stageLimit := StageLimit(stage, limit),
                                             current := Some(stage), limit := limit,
                                             single := old(run.single) && StageLimit(stage, limit) <= 1)
    {
      hide Plan.StageTasks;
      hide RunState.StageLimit;
      CountStage(run, stage, limit);
      run.stages := run.stages[1..];
      run.stageLimit := StageLimit(stage, limit);
      run.queued := StageTasks(stage);
    }

    /** The numbering moves on to the stage being started. */
    method CountStage(run: Run, stage: Stage<Entry>, limit: Positive)
      modifies run
      ensures run.View() == old(run.View()).(popped := old(run.popped) + old(run.skipped) + 1, skipped := 0,
                                             current := Some(stage), limit := limit,
                                             single := old(run.single) && StageLimit(stage, limit) <= 1)
    {
      hide RunState.StageLimit;
      run.popped := run.popped + run.skipped + 1;
      run.skipped := 0;
      Bookkeep(run, stage, limit);
    }

    ghost method Bookkeep(run: Run, stage: Stage<Entry>, limit: Positive)
      modifies run
      ensures run.View() == old(run.View()).(current := Some(stage), limit := limit,
                                             single := old(run.single) && StageLimit(stage, limit) <= 1)
    {
      hide RunState.StageLimit;
      run.current := Some(stage);
      run.limit := limit;
      run.single := run.single && StageLimit(stage, limit) <= 1;
    }

    /** One turn of the scheduler loop; `step` is absent when the loop goes on. */
    method Turn(run: Run) returns (step: Option<Step>)
      requires Working(Conf(run), run.View())
      modifies run
      ensures run.planned == old(run.planned) && run.retired == old(run.retired) && run.cancelled == old(run.cancelled)
      ensures run.single == old(run.single) && SameStage(old(run.View()), run.View())
      ensures step.None? ==> Working(Conf(run), run.View())
      ensures step.None? ==>
                && run.stages == old(run.stages)
                && ((old(run.active) == [] && old(run.queued) == [])
                    || |run.active| + |run.queued| < |old(run.active)| + |old(run.queued)|)
      ensures step.Some? ==> Ready(Conf(run), run.View()) && (step.value == Finished ==> failFast && Over(Conf(run), run.View()))
      ensures step.None? ==> NoMore(run.View(), old(run.View()))
      ensures step == Some(Running) && !Cut(Conf(run), run.View()) ==> Less(run.View(), old(run.View()))
    {
      hide RunState.Inv;
      hide RunWork.Budget;
      hide RunSettling.Filled;
      hide RunWork.PollsLeft;
      SlotsPositive(Conf(run), run.View());
      FillAvailableSlots(run);
      var finished, ended, ends := AdvanceActive(run);
      if ended.Some? { return ended; }
      step := CloseTurn(run, finished);
    }

    /** After the slots: services are polled, a finished stage resolves its
        recoveries, and the loop goes on when there is something to start. */
    method CloseTurn(run: Run, finished: bool) returns (step: Option<Step>)
      requires Inv(Conf(run), run.View()) && run.hand == [] && !Cut(Conf(run), run.View())
      modifies run
      ensures run.planned == old(run.planned) && run.retired == old(run.retired) && run.cancelled == old(run.cancelled)
      ensures run.single == old(run.single) && SameStage(old(run.View()), run.View())
      ensures run.stages == old(run.stages) && run.active == old(run.active) && run.queued == old(run.queued)
      ensures run.stageLimit == old(run.stageLimit)
      ensures step.None? ==> Working(Conf(run), run.View()) && NoMore(run.View(), old(run.View()))
      ensures step.None? ==> finished || (run.active == [] && run.queued == [])
      ensures step.Some? ==> step.value == Running && Ready(Conf(run), run.View()) && NoMore(run.View(), old(run.View()))
      ensures step.Some? && !Cut(Conf(run), run.View()) ==>
                Less(run.View(), old(run.View())) || run.active != [] || (run.queued != [] && !(finished && run.stageLimit > 0))
    {
      hide RunState.Inv;
      hide RunWork.Budget;
      hide RunWork.PollsLeft;
      if run.services != [] { var polled := AdvanceServices(run); }
      if run.active == [] && run.queued == [] {
        if run.pending != [] {
          ghost var s := run.View();
          var interrupted, _ := ResolveRecoveries(run);
          SameWork(s, run.View());
          return if interrupted then Some(Running) else None;
        }
        return if run.services == [] then None else Some(Running);
      }
      step := if finished && |run.active| < run.stageLimit && run.queued != [] then None else Some(Running);
    }

    /** One scheduler step. `Finished` only when nothing finite is left. */
    method Advance(run: Run) returns (step: Step)
      requires Ready(Conf(run), run.View())
      modifies run
      ensures Ready(Conf(run), run.View())
      ensures run.planned == old(run.planned) && run.retired == old(run.retired) && run.cancelled == old(run.cancelled)
      ensures SlotLimit(run) == 1 ==> run.single == old(run.single)
      ensures Rebounds(SlotLimit(run), old(run.View()), run.View())
      ensures step == Finished ==> Over(Conf(run), run.View()) && (failFast || run.services == [])
      ensures step == Running && !Cut(Conf(run), run.View()) ==> Less(run.View(), old(run.View()))
    {
      hide RunState.Inv;
      hide RunWork.Budget;
      hide RunWork.PollsLeft;
      ghost var s := run.View();
      var requested := CancellationRequested(run);
      if requested { return Running; }
      SameWork(s, run.View());
      step := Schedule(run);
    }

    /** The scheduler loop: starts stages and turns slots until something runs. */
    method Schedule(run: Run) returns (step: Step)
      requires Working(Conf(run), run.View())
      modifies run
      ensures Ready(Conf(run), run.View())
      ensures run.planned == old(run.planned) && run.retired == old(run.retired) && run.cancelled == old(run.cancelled)
      ensures SlotLimit(run) == 1 ==> run.single == old(run.single)
      ensures Rebounds(SlotLimit(run), old(run.View()), run.View())
      ensures step == Finished ==> Over(Conf(run), run.View()) && (failFast || run.services == [])
      ensures step == Running && !Cut(Conf(run), run.View()) ==> Less(run.View(), old(run.View()))
    {
      hide RunState.Inv;
      hide RunWork.Budget;
      hide RunWork.PollsLeft;
      hide RunState.SameStage;
      hide RunState.Rebounds;
      ghost var s := run.View();
      ReboundsSame(SlotLimit(run), s);
      var result: Option<Step> := None;
      while result.None?
        invariant result.None? ==> Working(Conf(run), run.View()) && NoMore(run.View(), s)
        invariant result.Some? ==> Ready(Conf(run), run.View())
        invariant run.planned == s.planned && run.retired == s.retired && run.cancelled == s.cancelled
        invariant SlotLimit(run) == 1 ==> run.single == s.single
        invariant Rebounds(SlotLimit(run), s, run.View())
        invariant result == Some(Finished) ==> Over(Conf(run), run.View()) && (failFast || run.services == [])
        invariant result == Some(Running) && !Cut(Conf(run), run.View()) ==> Less(run.View(), s)
        decreases result.None?, |run.stages|, |run.active| + |run.queued|
      {
        ghost var s1 := run.View();
        result := Round(run);
        ReboundsAgain(SlotLimit(run), s, s1, run.View());
      }
      step := result.value;
    }

    /** Starts the next stage when the last one is done, then takes one turn. */
    method Round(run: Run) returns (result: Option<Step>)
      requires Working(Conf(run), run.View())
      modifies run
      ensures result.None? ==> Working(Conf(run), run.View()) && NoMore(run.View(), old(run.View()))
      ensures result.Some? ==> Ready(Conf(run), run.View())
      ensures run.planned == old(run.planned) && run.retired == old(run.retired) && run.cancelled == old(run.cancelled)
      ensures SlotLimit(run) == 1 ==> run.single == old(run.single)
      ensures Rebounds(SlotLimit(run), old(run.View()), run.View())
      ensures result == Some(Finished) ==> Over(Conf(run), run.View()) && (failFast || run.services == [])
      ensures result == Some(Running) && !Cut(Conf(run), run.View()) ==> Less(run.View(), old(run.View()))
      ensures result.None? ==>
        |run.stages| < |old(run.stages)|
        || (|run.stages| == |old(run.stages)| && |run.active| + |run.queued| < |old(run.active)| + |old(run.queued)|)
    {
      hide RunState.Inv;
      hide RunWork.Budget;
      hide RunWork.PollsLeft;
      hide RunState.SameStage;
      hide RunState.Rebounds;
      ghost var s := run.View();
      ReboundsSame(SlotLimit(run), s);
      if run.active == [] && run.queued == [] {
        if run.stages == [] {
          result := Idle(run);
          ReboundsThen(SlotLimit(run), s, s, run.View());
          return;
        }
        StartStage(run);
        ReboundsStart(SlotLimit(run), s, run.View());
      }
      ghost var s1 := run.View();
      result := Turn(run);
      ReboundsThen(SlotLimit(run), s, s1, run.View());
    }

    /** No stage is left: background services keep the run alive. */
    method Idle(run: Run) returns (step: Option<Step>)
      requires Working(Conf(run), run.View()) && run.active == [] && run.queued == [] && run.stages == []
      modifies run
      ensures Ready(Conf(run), run.View()) && step.Some?
      ensures run.planned == old(run.planned) && run.retired == old(run.retired) && run.cancelled == old(run.cancelled)
      ensures run.single == old(run.single) && SameStage(old(run.View()), run.View())
      ensures step == Some(Finished) ==> Over(Conf(run), run.View()) && run.services == []
      ensures step == Some(Running) ==> Less(run.View(), old(run.View()))
    {
      hide RunState.Inv;
      if run.services != [] {
        var polled := AdvanceServices(run);
        return Some(Running);
      }
      step := Some(Finished);
    }
  
    // ------------------------------------------------------- starting and changing

    method Start(policy: RecoveryPolicy, effectiveConcurrency: Option<Positive>, plan: seq<Stage<TaskPlan>>) returns (run: Run)
      requires ValidPlan(plan)
      ensures fresh(run) && run.policy == policy && run.effectiveConcurrency == effectiveConcurrency
      ensures Ready(Conf(run), run.View()) && !run.cancelled && run.retired == []
      ensures run.planned == Flat(Number(plan, 0, 0)) && run.now == 0 && run.log == [] && run.single
    {
      hide RunState.Inv;
      var stages := Number(plan, 0, 0);
      run := new Run(policy, effectiveConcurrency, stages);
      StartInv(Conf(run), plan, stages, run.View());
    }

    /** Appends the stages of a plan to a running generation. */
    method AppendPlan(run: Run, plan: seq<Stage<TaskPlan>>)
      requires Ready(Conf(run), run.View()) && ValidPlan(plan)
      modifies run
      ensures Ready(Conf(run), run.View())
      ensures run.View() == old(run.View()).(planned := run.planned, stages := run.stages)
      ensures |run.planned| == |old(run.planned)| + |Flat(plan)| && old(run.planned) <= run.planned
      ensures forall i :: 0 <= i < |Flat(plan)| ==> run.planned[|old(run.planned)| + i].plan == Flat(plan)[i]
    {
      hide RunState.Inv;
      ghost var s := run.View();
      var first := run.popped + run.skipped + |run.stages|;
      var more := Number(plan, |run.planned|, first);
      NumberedPlan(plan, |run.planned|, first);
      NumberSpec(plan, |run.planned|, first);
      run.planned := run.planned + Flat(more);
      run.stages := run.stages + more;
      AppendInv(Conf(run), s, more, run.View());
    }

    /** Retires the named background services: each gets an outcome but no
        snapshot; all other services stay as they are, in order. */
    method ReconcileServices(run: Run, stopNames: set<string>) returns (stillRunning: seq<string>)
      requires Ready(Conf(run), run.View())
      modifies run
      ensures Ready(Conf(run), run.View())
      ensures run.View() == old(run.View()).(services := run.services, outcomes := run.outcomes, retired := run.retired)
      ensures run.services == Surviving(old(run.services), stopNames)
      ensures stillRunning == Names(run.services)
    {
      hide RunState.Inv;
      hide RunSettling.Sifted;
      ghost var before := run.services;
      SiftStart(before, stopNames);
      var index := 0;
      stillRunning := [];
      while index < |run.services|
        invariant index <= |run.services| && Inv(Conf(run), run.View())
        invariant run.View() == old(run.View()).(services := run.services, outcomes := run.outcomes, retired := run.retired)
        invariant Sifted(before, run.services, index, stopNames, stillRunning)
        decreases |run.services| - index
      {
        SiftStep(before, run.services, index, stopNames, stillRunning);
        if run.services[index].entry.plan.name in stopNames {
          RetireService(run, index);
        } else {
          stillRunning := stillRunning + [run.services[index].entry.plan.name];
          index := index + 1;
        }
      }
      SiftEnd(before, run.services, index, stopNames, stillRunning);
    }

    /** Stops one service for good. */
    method RetireService(run: Run, index: nat)
      requires Inv(Conf(run), run.View()) && index < |run.services|
      modifies run
      ensures Inv(Conf(run), run.View())
      ensures run.View() == old(run.View()).(services := Without(old(run.services), index),
                                             outcomes := old(run.outcomes)
                                                         + [Recorded(old(run.services)[index].entry, TaskCancelled)],
                                             retired := old(run.retired) + [old(run.services)[index].entry])
    {
      hide RunState.Inv;
      ghost var s := run.View();
      var removed, escalated := ShutdownTask(run.services[index]);
      run.services := run.services[..index] + run.services[index + 1..];
      run.outcomes := run.outcomes + [Recorded(removed.entry, TaskCancelled)];
      run.retired := run.retired + [removed.entry];
      RetireInv(Conf(run), s, index, run.View());
    }

    method SetConcurrencyLimit(limit: Positive)
      modifies this
      ensures concurrencyLimit == limit
    {
      concurrencyLimit := limit;
    }

    // -------------------------------------------------------------------- finish

    /** The outcomes in configured order. */
    method Finish(run: Run) returns (outcomes: seq<Recorded>, results: seq<CommandResult>)
      requires Ready(Conf(run), run.View()) && Over(Conf(run), run.View()) && !run.cancelled
      ensures outcomes == SortRecords(run.outcomes) && results == run.results
      ensures AllFinite(run.planned) ==> (HasErr(results) <==> AnyFailed(outcomes))
      ensures run.services == [] && run.retired == [] ==> multiset(Owners(outcomes)) == multiset(run.planned)
      ensures Plain(Conf(run), run.View()) && run.retired == [] && DistinctPositions(run.planned) ==>
                outcomes == SortRecords(ExpectedRecords(env, run.planned))
      ensures forall r :: r in outcomes ==> Tells(Conf(run), run.log, r)
      ensures !failFast && run.retired == [] ==> forall r :: r in outcomes ==> Ran(r.outcome)
    {
      hide RunState.Inv;
      hide RunState.Tells;
      outcomes, results := SortRecords(run.outcomes), run.results;
      FinishedReport(Conf(run), run.View());
      ReportTells(Conf(run), run.View());
    }

    /** Drives a plan to its end. The token of the run is private here, so nobody sets it. */
    method RunToCompletion(policy: RecoveryPolicy, effectiveConcurrency: Option<Positive>, plan: seq<Stage<TaskPlan>>)
      returns (outcomes: seq<Recorded>, results: seq<CommandResult>, log: Log)
      requires ValidPlan(plan) && env.cancelAt.None?
      ensures var planned := Flat(Number(plan, 0, 0));
              && (AllFinite(planned) ==> (HasErr(results) <==> AnyFailed(outcomes)))
              && (!failFast ==> multiset(Owners(outcomes)) == multiset(planned))
              && (PlainPlan(env, failFast, planned) && DistinctPositions(planned) ==>
                    outcomes == SortRecords(ExpectedRecords(env, planned)))
              && (forall r :: r in outcomes ==> Tells(Config(env, failFast, policy), log, r) && (!failFast ==> Ran(r.outcome)))
              && StageOrdered(log) && Barred(planned, log)
              && (forall ticket :: !ProgressOf(log, ticket).Broken?)
              && (LimitFor(effectiveConcurrency) == 1 ==> Declared(log))
              && (!failFast ==> forall e :: e in planned && !e.plan.service ==>
                    Indices(log, e.ticket, Original) == Range(if CwdOk(env, e) then |e.plan.commands| else 0))
              && (LimitFor(effectiveConcurrency) == 1 && !failFast && AllRun(env, planned) ==>
                    SpawnedCommands(log) == PlanCommands(plan))
    {
      hide RunState.Inv;
      hide RunWork.Budget;
      hide RunWork.PollsLeft;
      hide Plan.Number;
      hide RunState.Tells;
      var run := Start(policy, effectiveConcurrency, plan);
      var step := Running;
      while step == Running
        invariant fresh(run) && Ready(Conf(run), run.View()) && !run.cancelled && run.retired == []
        invariant run.planned == Flat(Number(plan, 0, 0)) && run.effectiveConcurrency == effectiveConcurrency
        invariant run.policy == policy
        invariant concurrencyLimit == old(concurrencyLimit) && (SlotLimit(run) == 1 ==> run.single)
        invariant step == Finished ==> Over(Conf(run), run.View()) && (failFast || run.services == [])
        decreases step == Running, Budget(run.View()), PollsLeft(run.View())
      {
        step := Advance(run);
      }
      outcomes, results := Finish(run);
      log := run.log;
      LogFacts(Conf(run), run.View());
      if !failFast { FinishedTrace(Conf(run), run.View(), plan); }
    }
  }
}

/** One task working through a command list: what each turn of the loop in
    `advance_task` does. */
module TaskSteps {
  import opened Plan
  import opened RunLog
  import opened RunState
  import opened RunSteps

  /** Between two turns of the loop. */
  ghost predicate Underway(c: Config, failFast: bool, log: Log, t: ActiveTask,
                           now: Log, t': ActiveTask, rs: seq<CommandResult>)
  {
    && t' == t.(commands := t'.commands, child := t'.child, current := t'.current,
                failures := t'.failures, validated := true, restartsLeft := t'.restartsLeft)
    && OnlySpawns(log, now, t) && Fated(c.env, log, now) && InList(now, t') && !Missing(c, t)
    && t.failures <= t'.failures
    && (HasErr(rs) <==> !t.deferFailure && t'.failures != t.failures)
    && (failFast ==> t'.failures == t.failures)
    && (t.IsService() ==> !t.deferFailure)
    && (t.IsService() && t.child.None? ==>
          t'.child.None? && t'.restartsLeft == t.restartsLeft && OkSpawns(now, t.entry.ticket) == OkSpawns(log, t.entry.ticket))
  }

  /** The next command is popped for spawning. */
  function Popped(t: ActiveTask): ActiveTask
    requires t.commands != []
  {
    t.(commands := t.commands[1..], current := Some(t.commands[0].Display()))
  }

  ghost function SpawnEvent(t: ActiveTask, fate: Verdict): Event
    requires t.Consumed() >= 0
  {
    Spawn(t.entry, t.phase, t.Consumed(), fate)
  }

  lemma SpawnLogged(log: Log, t: ActiveTask, fate: Verdict)
    requires InList(log, t) && t.commands != [] && t.child.None?
    ensures ProgressOf(log + [SpawnEvent(t, fate)], t.entry.ticket)
         == if t.IsService() then Commands(Original, 0) else Commands(t.phase, t.Consumed() + 1)
    ensures OkSpawns(log + [SpawnEvent(t, fate)], t.entry.ticket) == OkSpawns(log, t.entry.ticket) + Bit(fate != StartFails)
    ensures !t.IsService() ==>
      Failures(log + [SpawnEvent(t, fate)], t.entry.ticket, t.phase) == t.failures + FailureOf(fate, t.phase, t.Consumed())
  {
    Snoc(log, SpawnEvent(t, fate), t.entry.ticket);
    assert !t.IsService() ==> t.failures + [] == Failures(log, t.entry.ticket, t.phase);
  }

  lemma ListTail(t: ActiveTask)
    requires t.commands != [] && |t.commands| <= t.total == |PhaseCommands(t.entry.plan, t.phase)|
    requires t.commands == PhaseCommands(t.entry.plan, t.phase)[t.Consumed()..]
    ensures t.commands[1..] == PhaseCommands(t.entry.plan, t.phase)[t.Consumed() + 1..]
  {
  }

  lemma SpawnSucceeds(c: Config, failFast: bool, log: Log, t: ActiveTask, now: Log, t': ActiveTask,
                      rs: seq<CommandResult>, child: Child, t'': ActiveTask)
    requires Underway(c, failFast, log, t, now, t', rs) && t'.child.None? && t'.commands != []
    requires t'' == Popped(t').(child := Some(child))
    requires c.env.spawn(Site(t.entry.ticket, t.phase, t'.Consumed()), |now|) == Spawned(child)
    ensures Stepped(c, failFast, log, t, now + [SpawnEvent(t', ChildVerdict(child))], t'', rs, StepRunning)
  {
    hide ProgressOf, OkSpawns, Failures;
    SpawnLogged(now, t', ChildVerdict(child));
    if !t.IsService() { ListTail(t'); }
    assert InList(now + [SpawnEvent(t', ChildVerdict(child))], t'');
    assert OnlySpawns(log, now + [SpawnEvent(t', ChildVerdict(child))], t);
  }

  /** Failures of a task that may still recover are kept out of the results. */
  function Reported(t: ActiveTask, failure: Failure): seq<CommandResult> {
    if t.deferFailure then [] else [Err(failure)]
  }

  lemma ReportedErr(t: ActiveTask, failure: Failure)
    ensures HasErr(Reported(t, failure)) <==> !t.deferFailure
    ensures !HasErr([]) && !HasErr([Ok]) && HasErr([Err(failure)])
  {
    assert Err(failure) in [Err(failure)];
  }

  lemma SpawnRefused(c: Config, failFast: bool, log: Log, t: ActiveTask, now: Log, t': ActiveTask,
                     rs: seq<CommandResult>, t'': ActiveTask, rs'': seq<CommandResult>)
    requires Underway(c, failFast, log, t, now, t', rs) && t'.child.None? && t'.commands != []
    requires var failure := StartFailed(t.phase, t'.Consumed());
             && t'' == Popped(t').(current := None, failures := t'.failures + [failure])
             && rs'' == rs + Reported(t, failure)
    requires c.env.spawn(Site(t.entry.ticket, t.phase, t'.Consumed()), |now|) == Refused
    ensures !failFast ==> Underway(c, failFast, log, t, now + [SpawnEvent(t', StartFails)], t'', rs'')
    ensures failFast ==> Stepped(c, failFast, log, t, now + [SpawnEvent(t', StartFails)], t'', rs'', StepFailedFast)
  {
    hide ProgressOf, OkSpawns, Failures;
    SpawnLogged(now, t', StartFails);
    ErrAppend(rs, Reported(t, StartFailed(t.phase, t'.Consumed())));
    ReportedErr(t, StartFailed(t.phase, t'.Consumed()));
    assert |t''.failures| > |t.failures|;
    if !t.IsService() { ListTail(t'); }
    assert InList(now + [SpawnEvent(t', StartFails)], t'');
    assert OnlySpawns(log, now + [SpawnEvent(t', StartFails)], t);
  }

  /** The list is used up. */
  lemma ListEnds(c: Config, failFast: bool, log: Log, t: ActiveTask, now: Log, t': ActiveTask, rs: seq<CommandResult>)
    requires Underway(c, failFast, log, t, now, t', rs) && t'.child.None? && t'.commands == []
    ensures Stepped(c, failFast, log, t, now, t', rs, StepFinished)
  {
  }

  lemma ChildRuns(c: Config, failFast: bool, log: Log, t: ActiveTask, now: Log, t': ActiveTask,
                  rs: seq<CommandResult>, t'': ActiveTask)
    requires Underway(c, failFast, log, t, now, t', rs) && t'.child.Some?
    requires t'.child.value.answers != [] && t'.child.value.answers[0] == StillRunning
    requires t'' == t'.(child := Some(t'.child.value.(answers := t'.child.value.answers[1..])))
    ensures Stepped(c, failFast, log, t, now, t'', rs, StepRunning)
  {
    var answers := t'.child.value.answers;
    assert answers == [StillRunning] + answers[1..];
    assert WaitError in answers <==> WaitError in answers[1..];
  }

  lemma ChildSucceeds(c: Config, failFast: bool, log: Log, t: ActiveTask, now: Log, t': ActiveTask,
                      rs: seq<CommandResult>, t'': ActiveTask)
    requires Underway(c, failFast, log, t, now, t', rs) && t'.child.Some? && !t.IsService()
    requires t'.child.value.answers == [] && t'.child.value.success
    requires t'' == t'.(child := None, current := None)
    ensures Underway(c, failFast, log, t, now, t'', rs + [Ok])
  {
    ErrAppend(rs, [Ok]);
  }

  lemma ChildFails(c: Config, failFast: bool, log: Log, t: ActiveTask, now: Log, t': ActiveTask,
                   rs: seq<CommandResult>, failure: Failure, t'': ActiveTask, rs'': seq<CommandResult>)
    requires Underway(c, failFast, log, t, now, t', rs) && t'.child.Some?
    requires var answers := t'.child.value.answers;
             if answers == [] then !t'.child.value.success && !t.IsService() && failure == ExitFailed(t.phase, t'.Consumed() - 1)
             else answers[0] == WaitError && failure == WaitFailed(t.phase, t'.Consumed() - 1)
    requires t'' == t'.(child := None, current := None, failures := t'.failures + [failure])
    requires rs'' == rs + Reported(t, failure)
    ensures !failFast ==> Underway(c, failFast, log, t, now, t'', rs'')
    ensures failFast ==> Stepped(c, failFast, log, t, now, t'', rs'', StepFailedFast)
  {
    ErrAppend(rs, Reported(t, failure));
    ReportedErr(t, failure);
    assert |t''.failures| > |t.failures|;
  }

  /** A service exits: it stopped on purpose, restarts, or has used up its restarts. */
  lemma ServiceExits(c: Config, failFast: bool, log: Log, t: ActiveTask, now: Log, t': ActiveTask, rs: seq<CommandResult>)
    requires Underway(c, failFast, log, t, now, t', rs) && t'.child.Some? && t.IsService()
    ensures Stepped(c, failFast, log, t, now, t'.(child := None, current := None), rs + [Ok], StepFinished)
    ensures t'.restartsLeft > 0 ==>
              Underway(c, failFast, log, t, now, Requeued(t'.(child := None, current := None), t'.current.value), rs)
    ensures Stepped(c, failFast, log, t, now,
                    t'.(child := None, current := None, failures := t'.failures + [ServiceExhausted]),
                    rs + [Err(ServiceExhausted)], StepFinished)
  {
    ErrAppend(rs, [Ok]);
    ErrAppend(rs, [Err(ServiceExhausted)]);
    ReportedErr(t, ServiceExhausted);
    assert |t'.failures + [ServiceExhausted]| > |t.failures|;
  }

  /** The command of a restarting service is queued again, as a shell command. */
  function Requeued(t: ActiveTask, command: string): ActiveTask
    requires t.restartsLeft > 0
  {
    t.(commands := [Shell(command)] + t.commands, restartsLeft := t.restartsLeft - 1)
  }

  function ChildFuel(t: ActiveTask): nat {
    if t.child.None? then 0 else 1 + |t.child.value.answers|
  }

  /** Commands a task may still spawn: those listed, and two per restart, since
      a restart queues its command again. */
  function Weight(t: ActiveTask): nat { |t.commands| + 2 * t.restartsLeft }

  ghost predicate LessWork(t': ActiveTask, t: ActiveTask) {
    Weight(t') < Weight(t) || (Weight(t') == Weight(t) && ChildFuel(t') < ChildFuel(t))
  }

  predicate StillRuns(t: ActiveTask)
    requires t.child.Some?
  {
    t.child.value.answers != [] && t.child.value.answers[0] == StillRunning
  }

  /** The failure that the end of the child of a finite task means. */
  function EndFailure(t: ActiveTask): seq<Failure>
    requires t.child.Some? && t.Consumed() > 0
  {
    if t.child.value.answers != [] then [WaitFailed(t.phase, t.Consumed() - 1)]
    else if t.child.value.success then []
    else [ExitFailed(t.phase, t.Consumed() - 1)]
  }

  /** What one poll of the child means for the task, by the answer it gives. */
  ghost predicate PollEnds(t: ActiveTask, t': ActiveTask, rs: seq<CommandResult>, rs': seq<CommandResult>,
                           step: Option<TaskStep>, failFast: bool)
    requires t.child.Some? && t.Consumed() > 0
  {
    var child, gone := t.child.value, t.(child := None, current := None);
    if StillRuns(t) then
      step == Some(StepRunning) && rs' == rs && t' == t.(child := Some(child.(answers := child.answers[1..])))
    else if t.IsService() && child.answers == [] then
      if child.success then step == Some(StepFinished) && rs' == rs + [Ok] && t' == gone
      else if t.restartsLeft > 0 then
        && step.None? && rs' == rs && t.current.Some?
        && t' == gone.(commands := [Shell(t.current.value)] + t.commands, restartsLeft := t.restartsLeft - 1)
      else
        && step == Some(StepFinished) && rs' == rs + [Err(ServiceExhausted)]
        && t' == gone.(failures := t.failures + [ServiceExhausted])
    else if EndFailure(t) == [] then step.None? && rs' == rs + [Ok] && t' == gone
    else
      && step == (if failFast then Some(StepFailedFast) else None)
      && t' == gone.(failures := t.failures + EndFailure(t)) && rs' == rs + Reported(t, EndFailure(t)[0])
  }

  /** The working directory check that precedes the first command. */
  lemma CwdFails(c: Config, failFast: bool, log: Log, t: ActiveTask, t': ActiveTask, rs: seq<CommandResult>)
    requires InList(log, t) && !t.validated && t.entry.plan.cwd.Some? && !c.env.dirOk(t.entry.ticket)
    requires t' == t.(validated := true, failures := t.failures + [CwdMissing], commands := [])
    requires rs == Reported(t, CwdMissing)
    ensures Stepped(c, failFast, log, t, log, t', rs, if failFast then StepFailedFast else StepFinished)
  {
    ReportedErr(t, CwdMissing);
    assert |t'.failures| > |t.failures|;
  }

  lemma Begins(c: Config, failFast: bool, log: Log, t: ActiveTask)
    requires InList(log, t) && (t.IsService() ==> !t.deferFailure)
    requires t.validated || CwdOk(c.env, t.entry)
    ensures Underway(c, failFast, log, t, log, t.(validated := true), [])
  {
  }
}

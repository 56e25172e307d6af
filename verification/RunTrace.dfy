/** Which commands a log shows: for each task, and for a run with one slot as a whole. */
module RunTrace {
  import opened Plan
  import opened RunLog
  import opened RunState

  /** The commands of one task and phase that were spawned, by index, in log order. */
  ghost function Indices(log: Log, ticket: nat, phase: Phase): seq<nat> {
    if log == [] then []
    else
      var e := log[|log| - 1];
      Indices(log[..|log| - 1], ticket, phase) + if SpawnIn(e, ticket, phase) then [e.index] else []
  }

  ghost function Range(n: nat): (r: seq<nat>)
    ensures |r| == n && forall i :: 0 <= i < n ==> r[i] == i
  {
    seq(n, i => i)
  }

  /** All events with the ticket of `e` are about `e`. */
  ghost predicate Owns(log: Log, e: Entry) {
    forall i :: 0 <= i < |log| && About(log[i], e.ticket) ==> log[i].entry == e
  }

  lemma OwnsFront(log: Log, e: Entry, k: nat)
    requires Owns(log, e) && k <= |log|
    ensures Owns(log[..k], e)
  {
  }

  /** In an accepted log a phase spawns commands 0, 1, 2 and so on, none before it begins. */
  lemma {:induction false} IndicesExact(log: Log, e: Entry, phase: Phase)
    requires Owns(log, e) && !e.plan.service && !ProgressOf(log, e.ticket).Broken?
    ensures var p, n := ProgressOf(log, e.ticket), |Indices(log, e.ticket, phase)|;
      && Indices(log, e.ticket, phase) == Range(n)
      && (p.Commands? && p.phase == phase ==> p.next == n)
      && (Rank(p) < Rank(Commands(phase, 0)) ==> n == 0)
  {
    if log != [] {
      var front, last := log[..|log| - 1], log[|log| - 1];
      OwnsFront(log, e, |log| - 1);
      PrefixAccepted(log, |log| - 1, e.ticket);
      IndicesExact(front, e, phase);
      if About(last, e.ticket) { assert last.entry == e; }
    }
  }

  /** Once a task is past a phase, the phase spawns nothing more. */
  lemma {:induction false} IndicesFrozen(log: Log, k: nat, e: Entry, phase: Phase)
    requires Owns(log, e) && !e.plan.service && !ProgressOf(log, e.ticket).Broken? && k <= |log|
    requires Rank(ProgressOf(log[..k], e.ticket)) > Rank(Commands(phase, 0))
    ensures Indices(log, e.ticket, phase) == Indices(log[..k], e.ticket, phase)
    decreases |log|
  {
    if k < |log| {
      var front, last := log[..|log| - 1], log[|log| - 1];
      assert front[..k] == log[..k];
      OwnsFront(log, e, |log| - 1);
      PrefixAccepted(log, |log| - 1, e.ticket);
      IndicesFrozen(front, k, e, phase);
      RankGrows(front, k, e.ticket);
      if About(last, e.ticket) { assert last.entry == e; }
    } else {
      assert log[..k] == log;
    }
  }

  /** The event with which a task left its original commands. */
  lemma {:induction false} LeftAt(log: Log, e: Entry) returns (i: nat)
    requires Owns(log, e) && !e.plan.service && 1 <= Rank(ProgressOf(log, e.ticket)) <= 8
    ensures i < |log| && About(log[i], e.ticket)
    ensures ProgressOf(log[..i], e.ticket).Commands? && ProgressOf(log[..i], e.ticket).phase == Original
    ensures log[i].Terminal? || (log[i].RecoveryPhase? && log[i].step == OriginalFailed)
    ensures log[i].Terminal? ==> ProgressOf(log, e.ticket) == Done(log[i].state)
    ensures Rank(ProgressOf(log[..i + 1], e.ticket)) >= 1
    decreases |log|
  {
    var front, last := log[..|log| - 1], log[|log| - 1];
    OwnsFront(log, e, |log| - 1);
    if About(last, e.ticket) { assert last.entry == e; }
    if Rank(ProgressOf(front, e.ticket)) == 0 {
      i := |log| - 1;
      assert log[..i + 1] == log;
    } else {
      i := LeftAt(front, e);
      assert front[..i] == log[..i] && front[..i + 1] == log[..i + 1];
    }
  }

  /** What a task that left its original commands has spawned of them. */
  lemma OriginalsSpawned(log: Log, e: Entry) returns (i: nat)
    requires Owns(log, e) && !e.plan.service && 1 <= Rank(ProgressOf(log, e.ticket)) <= 8
    ensures i < |log| && About(log[i], e.ticket) && ProgressOf(log[..i], e.ticket).Commands?
    ensures ProgressOf(log[..i], e.ticket).phase == Original
    ensures Indices(log, e.ticket, Original) == Range(ProgressOf(log[..i], e.ticket).next)
    ensures log[i].Terminal? || (log[i].RecoveryPhase? && log[i].step == OriginalFailed)
    ensures log[i].Terminal? ==> ProgressOf(log, e.ticket) == Done(log[i].state)
  {
    i := LeftAt(log, e);
    IndicesFrozen(log, i + 1, e, Original);
    OwnsFront(log, e, i);
    PrefixAccepted(log, i, e.ticket);
    IndicesExact(log[..i], e, Original);
    var upto := log[..i + 1];
    assert upto[..|upto| - 1] == log[..i] && upto[|upto| - 1] == log[i];
  }

  lemma IndicesSnoc(log: Log, e: Event, ticket: nat, phase: Phase)
    ensures Indices(log + [e], ticket, phase) == Indices(log, ticket, phase) + if SpawnIn(e, ticket, phase) then [e.index] else []
  {
    assert (log + [e])[..|log|] == log;
  }

  ghost function FinishStep(phase: Phase): RecoveryStep
    requires phase != Original
  {
    if phase == Recovery then RecoveryFinished(true) else VerificationFinished(true)
  }

  /** A recovery or verification that passed has spawned its whole list. */
  lemma PassedListSpawned(log: Log, k: nat, e: Entry, phase: Phase)
    requires Owns(log, e) && !e.plan.service && !ProgressOf(log, e.ticket).Broken? && phase != Original
    requires Took(log, k, e.ticket, FinishStep(phase))
    ensures Indices(log, e.ticket, phase) == Range(|PhaseCommands(e.plan, phase)|)
  {
    hide ProgressOf, Indices;
    var front, upto := log[..k], log[..k + 1];
    assert front + [log[k]] == upto && log[k].entry == e;
    PrefixAccepted(log, k + 1, e.ticket);
    PrefixAccepted(log, k, e.ticket);
    Snoc(front, log[k], e.ticket);
    IndicesSnoc(front, log[k], e.ticket, phase);
    OwnsFront(log, e, k);
    IndicesExact(front, e, phase);
    IndicesFrozen(log, k + 1, e, phase);
  }

  // -------------------------------------------------------------- the whole trace

  /** Command `index` of the task with this ticket. */
  datatype Mark = Mark(ticket: nat, index: nat)

  ghost function MarkOf(e: Event): Mark
    requires e.Spawn?
  {
    Mark(e.entry.ticket, e.index)
  }

  ghost predicate Earlier(a: Mark, b: Mark) { a.ticket < b.ticket || (a.ticket == b.ticket && a.index < b.index) }

  ghost predicate Strict(ms: seq<Mark>) { forall i, j :: 0 <= i < j < |ms| ==> Earlier(ms[i], ms[j]) }

  /** The original commands of finite tasks that were spawned, in log order. */
  ghost function Trace(log: Log): seq<Mark> {
    if log == [] then []
    else
      var e := log[|log| - 1];
      Trace(log[..|log| - 1]) + if OriginalSpawn(e) then [MarkOf(e)] else []
  }

  lemma {:induction false} TraceMembers(log: Log, m: Mark)
    ensures m in Trace(log) <==> exists i :: 0 <= i < |log| && OriginalSpawn(log[i]) && MarkOf(log[i]) == m
  {
    if log != [] {
      var front, e := log[..|log| - 1], log[|log| - 1];
      TraceMembers(front, m);
      if m in Trace(front) {
        var i :| 0 <= i < |front| && OriginalSpawn(front[i]) && MarkOf(front[i]) == m;
        assert log[i] == front[i];
      }
      assert forall i :: 0 <= i < |front| ==> front[i] == log[i];
    }
  }

  lemma {:induction false} TraceStrict(log: Log)
    requires forall i, j :: 0 <= i < j < |log| && OriginalSpawn(log[i]) && OriginalSpawn(log[j]) ==>
      Earlier(MarkOf(log[i]), MarkOf(log[j]))
    ensures Strict(Trace(log))
  {
    if log != [] {
      var front, e := log[..|log| - 1], log[|log| - 1];
      assert forall i :: 0 <= i < |front| ==> front[i] == log[i];
      TraceStrict(front);
      if OriginalSpawn(e) {
        var ms := Trace(front);
        forall k | 0 <= k < |ms| ensures Earlier(ms[k], MarkOf(e)) {
          TraceMembers(front, ms[k]);
          var i :| 0 <= i < |front| && OriginalSpawn(front[i]) && MarkOf(front[i]) == ms[k];
          assert log[i] == front[i];
        }
      }
    }
  }

  lemma {:induction false} IndicesMembers(log: Log, ticket: nat, phase: Phase, k: nat)
    ensures k in Indices(log, ticket, phase) <==>
      exists i :: 0 <= i < |log| && SpawnIn(log[i], ticket, phase) && log[i].index == k
  {
    if log != [] {
      var front, e := log[..|log| - 1], log[|log| - 1];
      IndicesMembers(front, ticket, phase, k);
      if k in Indices(front, ticket, phase) {
        var i :| 0 <= i < |front| && SpawnIn(front[i], ticket, phase) && front[i].index == k;
        assert log[i] == front[i];
      }
      assert forall i :: 0 <= i < |front| ==> front[i] == log[i];
    }
  }

  /** The trace shows a command exactly when its task spawned it. */
  lemma TraceShows(log: Log, e: Entry, k: nat)
    requires Owns(log, e) && !e.plan.service
    ensures Mark(e.ticket, k) in Trace(log) <==> k in Indices(log, e.ticket, Original)
  {
    TraceMembers(log, Mark(e.ticket, k));
    IndicesMembers(log, e.ticket, Original, k);
    if Mark(e.ticket, k) in Trace(log) {
      var i :| 0 <= i < |log| && OriginalSpawn(log[i]) && MarkOf(log[i]) == Mark(e.ticket, k);
      assert SpawnIn(log[i], e.ticket, Original);
    }
    if k in Indices(log, e.ticket, Original) {
      var i :| 0 <= i < |log| && SpawnIn(log[i], e.ticket, Original) && log[i].index == k;
      assert OriginalSpawn(log[i]);
    }
  }

  ghost predicate Runs(env: Env, e: Entry) { !e.plan.service && CwdOk(env, e) }

  ghost function TaskMarks(e: Entry): (ms: seq<Mark>)
    ensures |ms| == |e.plan.commands| && forall i :: 0 <= i < |ms| ==> ms[i] == Mark(e.ticket, i)
  {
    seq(|e.plan.commands|, i requires 0 <= i < |e.plan.commands| => Mark(e.ticket, i))
  }

  /** Every command of every task that has its directory, in declaration order. */
  ghost function PlanMarks(env: Env, planned: seq<Entry>): seq<Mark> {
    if planned == [] then []
    else
      var e := planned[|planned| - 1];
      PlanMarks(env, planned[..|planned| - 1]) + if Runs(env, e) then TaskMarks(e) else []
  }

  ghost predicate Ticketed(planned: seq<Entry>) { forall k :: 0 <= k < |planned| ==> planned[k].ticket == k }

  lemma {:induction false} PlanMembers(env: Env, planned: seq<Entry>, m: Mark)
    requires Ticketed(planned)
    ensures m in PlanMarks(env, planned) <==>
      m.ticket < |planned| && Runs(env, planned[m.ticket]) && m.index < |planned[m.ticket].plan.commands|
  {
    if planned != [] {
      var e := planned[|planned| - 1];
      PlanMembers(env, planned[..|planned| - 1], m);
      if m.ticket == |planned| - 1 && m.index < |e.plan.commands| { assert TaskMarks(e)[m.index] == m; }
    }
  }

  lemma {:induction false} PlanStrict(env: Env, planned: seq<Entry>)
    requires Ticketed(planned)
    ensures Strict(PlanMarks(env, planned))
  {
    if planned != [] {
      var front := planned[..|planned| - 1];
      PlanStrict(env, front);
      var ms := PlanMarks(env, front);
      forall k | 0 <= k < |ms| ensures ms[k].ticket < |front| { PlanMembers(env, front, ms[k]); }
    }
  }

  /** Strictly ordered lists with the same members are equal. */
  lemma {:induction false} StrictUnique(a: seq<Mark>, b: seq<Mark>)
    requires Strict(a) && Strict(b) && forall m :: m in a <==> m in b
    ensures a == b
  {
    if a == [] {
      if b != [] {
        FirstMember(b);
        assert false;
      }
    } else {
      assert a[0] in a && b != [];
      assert b[0] in b;
      HeadFirst(a, b[0]);
      HeadFirst(b, a[0]);
      TailMembers(a);
      TailMembers(b);
      StrictUnique(a[1..], b[1..]);
      assert a == [a[0]] + a[1..] && b == [b[0]] + b[1..];
    }
  }

  lemma FirstMember(ms: seq<Mark>)
    requires ms != []
    ensures ms[0] in ms
  {
  }

  lemma HeadFirst(ms: seq<Mark>, m: Mark)
    requires Strict(ms) && m in ms
    ensures m == ms[0] || Earlier(ms[0], m)
  {
  }

  lemma TailMembers(ms: seq<Mark>)
    requires Strict(ms) && ms != []
    ensures Strict(ms[1..]) && forall m :: m in ms[1..] <==> m in ms && m != ms[0]
  {
    forall m ensures m in ms[1..] <==> m in ms && m != ms[0] {
      if m in ms[1..] {
        var k :| 0 <= k < |ms| - 1 && ms[1..][k] == m;
        assert Earlier(ms[0], ms[k + 1]);
      }
    }
  }

  // ------------------------------------------------------------------ as commands

  /** The command lines that were spawned, in log order. */
  ghost function SpawnedCommands(log: Log): seq<CommandLine> {
    if log == [] then []
    else
      var e := log[|log| - 1];
      var list := if e.Spawn? then PhaseCommands(e.entry.plan, e.phase) else [];
      SpawnedCommands(log[..|log| - 1]) + if e.Spawn? && e.index < |list| then [list[e.index]] else []
  }

  ghost function CommandsAt(planned: seq<Entry>, ms: seq<Mark>): (cs: seq<CommandLine>)
    requires Within(planned, ms)
  {
    seq(|ms|, i requires 0 <= i < |ms| => assert ms[i] in ms; planned[ms[i].ticket].plan.commands[ms[i].index])
  }

  ghost predicate Within(planned: seq<Entry>, ms: seq<Mark>) {
    forall m :: m in ms ==> m.ticket < |planned| && m.index < |planned[m.ticket].plan.commands|
  }

  lemma CommandsAppend(planned: seq<Entry>, a: seq<Mark>, b: seq<Mark>)
    requires Within(planned, a) && Within(planned, b)
    ensures Within(planned, a + b) && CommandsAt(planned, a + b) == CommandsAt(planned, a) + CommandsAt(planned, b)
  {
  }

  lemma TaskMarksCommands(planned: seq<Entry>, e: Entry)
    requires e.ticket < |planned| && planned[e.ticket] == e
    ensures Within(planned, TaskMarks(e)) && CommandsAt(planned, TaskMarks(e)) == e.plan.commands
  {
  }

  /** When only original commands of finite tasks are spawned, the trace tells them all. */
  lemma {:induction false} SpawnedIsTrace(log: Log, planned: seq<Entry>)
    requires Ticketed(planned)
    requires forall i :: 0 <= i < |log| && log[i].Spawn? ==>
      OriginalSpawn(log[i]) && log[i].entry in planned && log[i].index < |log[i].entry.plan.commands|
    ensures Within(planned, Trace(log))
    ensures SpawnedCommands(log) == CommandsAt(planned, Trace(log))
  {
    if log != [] {
      var front, e := log[..|log| - 1], log[|log| - 1];
      assert forall i :: 0 <= i < |front| ==> front[i] == log[i];
      SpawnedIsTrace(front, planned);
      if e.Spawn? {
        assert planned[e.entry.ticket] == e.entry;
        assert CommandsAt(planned, Trace(log)) == CommandsAt(planned, Trace(front)) + [e.entry.plan.commands[e.index]];
      }
    }
  }

  lemma EmptyCommands(planned: seq<Entry>)
    ensures Within(planned, []) && CommandsAt(planned, []) == [] && TaskCommands(Plans([])) == []
  {
  }

  lemma {:induction false} PlanMarksCommands(env: Env, planned: seq<Entry>, k: nat)
    requires Ticketed(planned) && k <= |planned| && forall e :: e in planned ==> Runs(env, e)
    ensures Within(planned, PlanMarks(env, planned[..k]))
    ensures CommandsAt(planned, PlanMarks(env, planned[..k])) == TaskCommands(Plans(planned[..k]))
  {
    hide CommandsAt, TaskMarks, Within, TaskCommands;
    EmptyCommands(planned);
    if k > 0 {
      PlanMarksCommands(env, planned, k - 1);
      var front, e := planned[..k - 1], planned[k - 1];
      assert planned[..k][..k - 1] == front && planned[..k][k - 1] == e && e in planned;
      var ms := PlanMarks(env, front);
      assert PlanMarks(env, planned[..k]) == ms + TaskMarks(e);
      TaskMarksCommands(planned, e);
      CommandsAppend(planned, ms, TaskMarks(e));
      assert Plans(planned[..k]) == Plans(front) + [e.plan];
      TaskCommandsSnoc(Plans(front), e.plan);
    }
  }

  ghost function Plans(es: seq<Entry>): (ps: seq<TaskPlan>)
    ensures |ps| == |es| && forall i :: 0 <= i < |es| ==> ps[i] == es[i].plan
  {
    seq(|es|, i requires 0 <= i < |es| => es[i].plan)
  }
}

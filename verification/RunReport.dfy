/** What a finished run reports: outcomes in configured order, independent of
    the schedule that produced them. */
module RunReport {
  import opened Plan
  import opened RunLog
  import opened RunState
  import opened RunSteps
  import opened RunSettling
  import opened TaskSteps
  import opened RunRecovery
  import Sorting

  function Position(r: Recorded): nat { r.entry.plan.position }

  function RecordOrder(): Sorting.Order<Recorded> { (a: Recorded, b: Recorded) => Position(a) <= Position(b) }

  /** Stable sort by position. */
  function SortRecords(rs: seq<Recorded>): seq<Recorded> { Sorting.Sort(rs, RecordOrder()) }

  ghost predicate Sorted(rs: seq<Recorded>) {
    forall i, j :: 0 <= i < j < |rs| ==> Position(rs[i]) <= Position(rs[j])
  }

  /** The records at one position, in order. */
  ghost function AtPosition(rs: seq<Recorded>, position: nat): seq<Recorded> {
    if rs == [] then []
    else (if Position(rs[0]) == position then [rs[0]] else []) + AtPosition(rs[1..], position)
  }

  lemma {:induction false} PeersAtPosition(rs: seq<Recorded>, r: Recorded)
    ensures Sorting.Peers(rs, r, RecordOrder()) == AtPosition(rs, Position(r))
  {
    if rs != [] { PeersAtPosition(rs[1..], r); }
  }

  lemma {:induction false} NoneAtPosition(rs: seq<Recorded>, position: nat)
    requires forall r :: r in rs ==> Position(r) != position
    ensures AtPosition(rs, position) == []
  {
    if rs != [] { NoneAtPosition(rs[1..], position); }
  }

  /** Sorting permutes and orders, and records of equal position keep their order. */
  lemma SortRecordsSpec(rs: seq<Recorded>)
    ensures multiset(SortRecords(rs)) == multiset(rs) && Sorted(SortRecords(rs))
    ensures forall position :: AtPosition(SortRecords(rs), position) == AtPosition(rs, position)
  {
    Sorting.SortSpec(rs, RecordOrder());
    Sorting.SortMembers(rs, RecordOrder());
    var sorted := SortRecords(rs);
    forall i, j | 0 <= i < j < |sorted| ensures Position(sorted[i]) <= Position(sorted[j]) {
      assert RecordOrder()(sorted[i], sorted[j]);
    }
    forall position ensures AtPosition(sorted, position) == AtPosition(rs, position) {
      if r :| r in rs && Position(r) == position {
        PeersAtPosition(rs, r);
        PeersAtPosition(sorted, r);
      } else {
        NoneAtPosition(rs, position);
        NoneAtPosition(sorted, position);
      }
    }
  }

  ghost predicate DistinctRecords(rs: seq<Recorded>) {
    forall i, j :: 0 <= i < |rs| && 0 <= j < |rs| && Position(rs[i]) == Position(rs[j]) ==> rs[i] == rs[j]
  }

  lemma MultisetWithout<T>(xs: seq<T>, i: nat)
    requires i < |xs|
    ensures multiset(xs) == multiset(Without(xs, i)) + multiset{xs[i]}
    ensures multiset(Without(xs, i)) == multiset(xs) - multiset{xs[i]}
  {
    assert xs == xs[..i] + [xs[i]] + xs[i + 1..];
  }

  /** With one record per position, the sorted list is determined by the multiset. */
  lemma SortedUnique(a: seq<Recorded>, b: seq<Recorded>)
    requires multiset(a) == multiset(b) && Sorted(a) && Sorted(b) && DistinctRecords(a)
    ensures a == b
  {
    Sorting.SortedUnique(a, b, RecordOrder());
  }

  // ------------------------------------------------------------- expected report

  ghost function ExpectedRecord(env: Env, e: Entry): Recorded {
    Recorded(e, OutcomeOf(ExpectedFailures(env, e)))
  }

  /** What a plain run reports, computed from the plan and the verdicts alone. */
  ghost function ExpectedRecords(env: Env, es: seq<Entry>): (rs: seq<Recorded>)
    ensures |rs| == |es| && forall i :: 0 <= i < |es| ==> rs[i] == ExpectedRecord(env, es[i])
  {
    seq(|es|, i requires 0 <= i < |es| => ExpectedRecord(env, es[i]))
  }

  ghost predicate DistinctPositions(es: seq<Entry>) {
    forall i, j :: 0 <= i < |es| && 0 <= j < |es| && es[i].plan.position == es[j].plan.position ==> i == j
  }

  ghost predicate PlainPlan(env: Env, failFast: bool, planned: seq<Entry>) {
    Deterministic(env) && !failFast && forall e :: e in planned ==> !e.plan.service && e.plan.recovery.None?
  }

  function Owners(rs: seq<Recorded>): (es: seq<Entry>)
    ensures |es| == |rs| && forall i :: 0 <= i < |rs| ==> es[i] == rs[i].entry
  {
    seq(|rs|, i requires 0 <= i < |rs| => rs[i].entry)
  }

  /** Records that follow one function of their task form the image of their tasks. */
  lemma {:induction false} RecordsOfOwners(env: Env, rs: seq<Recorded>)
    requires forall r :: r in rs ==> r == ExpectedRecord(env, r.entry)
    ensures rs == ExpectedRecords(env, Owners(rs))
  {
    forall i | 0 <= i < |rs| ensures rs[i] == ExpectedRecord(env, rs[i].entry) {
      assert rs[i] in rs;
    }
  }

  ghost function Mapped<A, B>(f: A -> B, xs: seq<A>): (ys: seq<B>)
    ensures |ys| == |xs| && forall i :: 0 <= i < |xs| ==> ys[i] == f(xs[i])
  {
    seq(|xs|, i requires 0 <= i < |xs| => f(xs[i]))
  }

  lemma MappedWithout<A, B>(f: A -> B, xs: seq<A>, i: nat)
    requires i < |xs|
    ensures multiset(Mapped(f, xs)) == multiset(Mapped(f, Without(xs, i))) + multiset{f(xs[i])}
  {
    MultisetWithout(Mapped(f, xs), i);
    assert Without(Mapped(f, xs), i) == Mapped(f, Without(xs, i));
  }

  /** Mapping keeps permutations. */
  lemma {:induction false} MappedPermutation<A, B>(f: A -> B, a: seq<A>, b: seq<A>)
    requires multiset(a) == multiset(b)
    ensures multiset(Mapped(f, a)) == multiset(Mapped(f, b))
  {
    if a == [] {
      assert |multiset(b)| == 0;
    } else {
      assert a[0] in multiset(b);
      var j :| 0 <= j < |b| && b[j] == a[0];
      MultisetWithout(a, 0);
      MultisetWithout(b, j);
      MappedPermutation(f, Without(a, 0), Without(b, j));
      MappedWithout(f, a, 0);
      MappedWithout(f, b, j);
    }
  }

  /** When nothing is left or retired, every planned task has exactly one outcome. */
  lemma OutcomesCoverPlan(s: State)
    requires Conserved(s) && Mirrored(s) && !s.cancelled && Unsettled(s) == multiset{} && s.retired == []
    ensures multiset(Owners(s.outcomes)) == multiset(s.planned)
  {
    assert RetiredSnapshots(s.retired) == [];
    MappedPermutation((x: Snapshot) => x.entry, Projected(s.outcomes), s.snapshots);
    assert Mapped((x: Snapshot) => x.entry, Projected(s.outcomes)) == Owners(s.outcomes);
    assert Mapped((x: Snapshot) => x.entry, s.snapshots) == Snapped(s.snapshots);
  }

  /** A plain run reports exactly the expected records. */
  lemma PlainOutcomes(c: Config, s: State)
    requires OutcomesOk(c, s) && Plain(c, s) && !s.cancelled && multiset(Owners(s.outcomes)) == multiset(s.planned)
    ensures multiset(s.outcomes) == multiset(ExpectedRecords(c.env, s.planned))
  {
    RecordsOfOwners(c.env, s.outcomes);
    var f := (e: Entry) => ExpectedRecord(c.env, e);
    MappedPermutation(f, Owners(s.outcomes), s.planned);
    assert Mapped(f, Owners(s.outcomes)) == ExpectedRecords(c.env, Owners(s.outcomes));
    assert Mapped(f, s.planned) == ExpectedRecords(c.env, s.planned);
  }

  /** Lists with the same records, one per position, sort to the same list. */
  lemma SortsAlike(a: seq<Recorded>, env: Env, planned: seq<Entry>)
    requires multiset(a) == multiset(ExpectedRecords(env, planned)) && DistinctPositions(planned)
    ensures SortRecords(a) == SortRecords(ExpectedRecords(env, planned))
  {
    var b := ExpectedRecords(env, planned);
    SortRecordsSpec(a);
    SortRecordsSpec(b);
    var sorted := SortRecords(a);
    forall i, j | 0 <= i < |sorted| && 0 <= j < |sorted| && Position(sorted[i]) == Position(sorted[j])
      ensures sorted[i] == sorted[j]
    {
      assert sorted[i] in multiset(sorted) && sorted[j] in multiset(sorted);
      assert sorted[i] in b && sorted[j] in b;
    }
    SortedUnique(sorted, SortRecords(b));
  }

  lemma FailuresSurviveSorting(os: seq<Recorded>)
    ensures AnyFailed(SortRecords(os)) <==> AnyFailed(os)
  {
    SortRecordsSpec(os);
    assert forall r :: r in os <==> r in multiset(os);
    assert forall r :: r in SortRecords(os) <==> r in multiset(SortRecords(os));
  }

  lemma OwnersOfSorted(os: seq<Recorded>)
    ensures multiset(Owners(SortRecords(os))) == multiset(Owners(os))
  {
    SortRecordsSpec(os);
    MappedPermutation((r: Recorded) => r.entry, SortRecords(os), os);
    assert Mapped((r: Recorded) => r.entry, SortRecords(os)) == Owners(SortRecords(os));
    assert Mapped((r: Recorded) => r.entry, os) == Owners(os);
  }

  /** Results agree with outcomes once every finite task is settled. */
  lemma ResultsAgree(c: Config, s: State)
    requires ResultsOk(s) && Over(c, s) && !s.cancelled && AllFinite(s.planned)
    ensures HasErr(s.results) <==> AnyFailed(SortRecords(s.outcomes))
  {
    FailuresSurviveSorting(s.outcomes);
  }

  /** A run without services to wait for has settled everything. */
  lemma OverIsSettled(c: Config, s: State)
    requires Over(c, s) && s.services == []
    ensures Unsettled(s) == multiset{}
  {
  }

  lemma FiniteHasNoServices(c: Config, s: State)
    requires Inv(c, s) && AllFinite(s.planned)
    ensures s.services == []
  {
    hide HistOk;
    PlacesArePlanned(s);
    if s.services != [] {
      ServiceFacts(c, s, 0);
      assert false;
    }
  }

  /** Sorting the outcomes changes nothing that they tell; without fail-fast every task
      of a run that is not cancelled has run. */
  lemma ReportTells(c: Config, s: State)
    requires Inv(c, s)
    ensures forall r :: r in SortRecords(s.outcomes) ==> Tells(c, s.log, r)
    ensures !c.failFast && !s.cancelled && s.retired == [] ==> forall r :: r in SortRecords(s.outcomes) ==> Ran(r.outcome)
  {
    hide Tells, SortRecords;
    SortRecordsSpec(s.outcomes);
    forall r | r in SortRecords(s.outcomes)
      ensures Tells(c, s.log, r) && (!c.failFast && !s.cancelled && s.retired == [] ==> Ran(r.outcome))
    {
      assert r in multiset(SortRecords(s.outcomes));
      assert r in s.outcomes;
      if !c.failFast && !s.cancelled && s.retired == [] { HasRun(c, s, r); }
    }
  }

  lemma HasRun(c: Config, s: State, r: Recorded)
    requires Mirrored(s) && Uncancelled(c, s) && !c.failFast && !s.cancelled && s.retired == [] && r in s.outcomes
    ensures Ran(r.outcome)
  {
    var i :| 0 <= i < |s.outcomes| && s.outcomes[i] == r;
    var x := Projected(s.outcomes)[i];
    assert RetiredSnapshots(s.retired) == [];
    assert x in multiset(Projected(s.outcomes)) && x in multiset(s.snapshots);
    assert x in s.snapshots;
  }

  lemma FinishedReport(c: Config, s: State)
    requires Inv(c, s) && Over(c, s) && !s.cancelled
    ensures AllFinite(s.planned) ==> (HasErr(s.results) <==> AnyFailed(SortRecords(s.outcomes)))
    ensures s.services == [] && s.retired == [] ==> multiset(Owners(SortRecords(s.outcomes))) == multiset(s.planned)
    ensures Plain(c, s) && s.retired == [] && DistinctPositions(s.planned) ==>
              SortRecords(s.outcomes) == SortRecords(ExpectedRecords(c.env, s.planned))
  {
    hide HistOk, StagesOk, SlotsOk, LogOk;
    if AllFinite(s.planned) {
      ResultsAgree(c, s);
      FiniteHasNoServices(c, s);
    }
    if s.services == [] && s.retired == [] {
      OverIsSettled(c, s);
      OutcomesCoverPlan(s);
      OwnersOfSorted(s.outcomes);
    }
    if Plain(c, s) && s.retired == [] && DistinctPositions(s.planned) {
      PlainOutcomes(c, s);
      SortsAlike(s.outcomes, c.env, s.planned);
    }
  }

  // ------------------------------------------------------------- after a recovery

  /** However the recovery pass went, each job got one outcome, in position order. */
  lemma ResolvedOwners(c: Config, s: State, s': State, tasks: seq<ActiveTask>, treated: nat)
    requires Resolved(c, s, s', tasks, treated)
    ensures Owners(s'.outcomes) == Owners(s.outcomes) + Entries(tasks)
  {
    hide RecoveryPass;
    if tasks != [] {
      if ReplyTo(c, s.log, tasks) == Approved { PassOwners(s, s', tasks, treated); } else { FailedOwners(s, s', tasks); }
    }
  }

  lemma PassOwners(s: State, s': State, tasks: seq<ActiveTask>, treated: nat)
    requires RecoveryPass(s, s', tasks, treated)
    ensures Owners(s'.outcomes) == Owners(s.outcomes) + Entries(tasks)
  {
    hide Treated, GivenUp, RecoveryPassed, JobTreated, JobGivenUp;
    forall i | 0 <= i < |tasks| ensures s'.outcomes[|s.outcomes| + i].entry == tasks[i].entry {
      if i < treated { TreatedOwner(s, s', tasks[i], i); } else { GivenUpOwner(s, s', tasks[i], i); }
    }
    AppendOwners(s.outcomes, s'.outcomes, tasks);
  }

  lemma AppendOwners(before: seq<Recorded>, now: seq<Recorded>, tasks: seq<ActiveTask>)
    requires before <= now && |now| == |before| + |tasks|
    requires forall i :: 0 <= i < |tasks| ==> now[|before| + i].entry == tasks[i].entry
    ensures Owners(now) == Owners(before) + Entries(tasks)
  {
    forall i | 0 <= i < |now| ensures Owners(now)[i] == (Owners(before) + Entries(tasks))[i] {
      if i >= |before| { assert now[|before| + (i - |before|)].entry == tasks[i - |before|].entry; }
    }
  }

  lemma TreatedOwner(s: State, s': State, t: ActiveTask, i: nat)
    requires |s.outcomes| + i < |s'.outcomes| && |s.results| + i < |s'.results| && JobTreated(s, s', t, i)
    ensures s'.outcomes[|s.outcomes| + i].entry == t.entry
  {
    hide Gains, Failures, ProgressOf;
  }

  lemma GivenUpOwner(s: State, s': State, t: ActiveTask, i: nat)
    requires |s.outcomes| + i < |s'.outcomes| && |s.results| + i < |s'.results| && JobGivenUp(s, s', t, i)
    ensures s'.outcomes[|s.outcomes| + i].entry == t.entry
  {
  }

  lemma FailedOwners(s: State, s': State, ts: seq<ActiveTask>)
    requires KeepFailures(s, s', ts)
    ensures Owners(s'.outcomes) == Owners(s.outcomes) + Entries(ts)
  {
  }

  // ------------------------------------------------------------------- slots, once each

  /** What becomes of a slot when its task is advanced. */
  datatype SlotEnd = Stays | Backgrounded | Settles | FailsFast

  /** A task with failures `fs` is pending if it has recovery commands for them, and
      otherwise has its outcome; behind all others. */
  ghost predicate SettledWith(s: State, s': State, x: Entry, fs: seq<Failure>) {
    if fs != [] && x.plan.recovery.Some? then
      && s'.outcomes == s.outcomes && |s'.pending| == |s.pending| + 1 && s'.pending[..|s.pending|] == s.pending
      && s'.pending[|s.pending|].entry == x && s'.pending[|s.pending|].failures == fs
    else s'.pending == s.pending && s'.outcomes == s.outcomes + [Recorded(x, OutcomeOf(fs))]
  }

  /** The failures are those of the commands that a finite task spawned. */
  ghost predicate SettledLast(c: Config, s: State, s': State, x: Entry) {
    exists fs :: SettledWith(s, s', x, fs) && (x.plan.service || fs == OwnFailures(c, s'.log, x))
  }

  lemma SettledOne(c: Config, s: State, s1: State, s2: State, t: ActiveTask, e: Event)
    requires s1.pending == s.pending && s1.outcomes == s.outcomes && Ended(c, s1, t)
    requires s2.log == s1.log + [e] && !e.Spawn?
    requires if t.failures != [] && t.recovery.Some? then s2.pending == s1.pending + [t] && s2.outcomes == s1.outcomes
             else s2.pending == s1.pending && s2.outcomes == s1.outcomes + [Recorded(t.entry, OutcomeOf(t.failures))]
    ensures SettledLast(c, s, s2, t.entry)
  {
    hide Failures, ProgressOf;
    Snoc(s1.log, e, t.entry.ticket);
    assert SettledWith(s, s2, t.entry, t.failures);
  }

  /** What advancing the i-th slot does to the slots, the background and the records. */
  ghost predicate SlotEnded(c: Config, s: State, s': State, i: nat, end: SlotEnd)
    requires i < |s.active|
  {
    var x := s.active[i].entry;
    match end
    case Stays =>
      && |s'.active| == |s.active| && s'.active == s.active[i := s'.active[i]] && s'.active[i].entry == x
      && s'.active[i].child.Some? && s'.services == s.services && s'.outcomes == s.outcomes && s'.pending == s.pending
    case Backgrounded =>
      && s'.active == Without(s.active, i) && x.plan.service && s'.outcomes == s.outcomes && s'.pending == s.pending
      && |s'.services| == |s.services| + 1 && s'.services[..|s.services|] == s.services
      && s'.services[|s.services|].entry == x && s'.services[|s.services|].child.Some?
    case Settles => s'.active == Without(s.active, i) && s'.services == s.services && SettledLast(c, s, s', x)
    case FailsFast => s'.active == Without(s.active, i) && s'.services == s.services && SettledLast(c, s, s', x)
  }

  /** The entries whose slot stays. */
  ghost function Staying(es: seq<Entry>, ends: seq<SlotEnd>): seq<Entry>
    requires |ends| <= |es|
  {
    if ends == [] then []
    else Staying(es, ends[..|ends| - 1]) + if ends[|ends| - 1] == Stays then [es[|ends| - 1]] else []
  }

  /** The first `|ends|` slots have been advanced, once each; those that stay are the
      first `index` slots now, the rest is untouched behind them. */
  ghost predicate Advanced(before: seq<ActiveTask>, now: seq<ActiveTask>, index: nat, ends: seq<SlotEnd>) {
    && |ends| <= |before| && index <= |now|
    && now[index..] == before[|ends|..]
    && Entries(now[..index]) == Staying(Entries(before), ends)
  }

  lemma AdvancedNone(before: seq<ActiveTask>)
    ensures Advanced(before, before, 0, [])
  {
  }

  lemma AdvancedNext(c: Config, before: seq<ActiveTask>, s: State, s': State, index: nat, ends: seq<SlotEnd>, end: SlotEnd)
    requires index < |s.active| && Advanced(before, s.active, index, ends) && SlotEnded(c, s, s', index, end)
    ensures |ends| < |before|
    ensures Advanced(before, s'.active, if end == Stays then index + 1 else index, ends + [end])
  {
    hide SettledLast;
    var k, ends' := |ends|, ends + [end];
    assert s.active[index..] == before[k..] && |before[k..]| == |s.active| - index;
    assert s.active[index] == s.active[index..][0] == before[k];
    assert ends'[..|ends'| - 1] == ends;
    assert before[k + 1..] == before[k..][1..] == s.active[index + 1..];
    if end == Stays {
      assert s'.active[index + 1..] == s.active[index + 1..];
      assert s'.active[..index + 1] == s.active[..index] + [s'.active[index]];
      assert Entries(s'.active[..index + 1]) == Entries(s.active[..index]) + [before[k].entry];
    } else {
      assert s'.active[index..] == s.active[index + 1..] && s'.active[..index] == s.active[..index];
    }
  }

  lemma AdvancedAll(before: seq<ActiveTask>, now: seq<ActiveTask>, index: nat, ends: seq<SlotEnd>)
    requires Advanced(before, now, index, ends) && index == |now|
    ensures |ends| == |before| && Advanced(before, now, |now|, ends)
  {
    assert |before[|ends|..]| == 0;
  }

  // ---------------------------------------------------------------- services, once each

  /** One poll of a background service: what it is afterwards, unless it is gone. */
  ghost predicate PolledOnce(t: ActiveTask, r: Option<ActiveTask>) {
    if t.child.None? then
      r.Some? ==> r.value == t.(child := r.value.child, commands := r.value.commands, current := r.value.current)
                  && r.value.child.Some? && t.commands != [] && r.value.commands == t.commands[1..]
    else
      var child := t.child.value;
      if child.answers != [] then r == Some(t.(child := Some(child.(answers := child.answers[1..]))))
      else if child.success || t.restartsLeft == 0 || t.current.None? then r == None
      else r == Some(Requeued(t.(child := None, current := None), t.current.value))
  }

  /** The i-th service is replaced by what one poll makes of it. */
  ghost predicate PollReplaces(before: seq<ActiveTask>, now: seq<ActiveTask>, i: nat, kept: bool)
    requires i < |before|
  {
    if kept then
      |now| == |before| && now == before[i := now[i]] && PolledOnce(before[i], Some(now[i]))
    else now == Without(before, i) && PolledOnce(before[i], None)
  }

  lemma KeptReplaces(before: seq<ActiveTask>, now: seq<ActiveTask>, i: nat, t: ActiveTask)
    requires i < |before| && now == before[i := t] && PolledOnce(before[i], Some(t))
    ensures PollReplaces(before, now, i, true)
  {
  }

  lemma GoneReplaces(before: seq<ActiveTask>, now: seq<ActiveTask>, i: nat)
    requires i < |before| && now == Without(before, i) && PolledOnce(before[i], None)
    ensures PollReplaces(before, now, i, false)
  {
  }

  lemma RespawnPolls(t: ActiveTask, t': ActiveTask)
    requires t.child.None? && t.commands != [] && t'.child.Some?
    requires t' == t.(child := t'.child, commands := t.commands[1..], current := t'.current)
    ensures PolledOnce(t, Some(t')) && PolledOnce(t, None)
  {
  }

  lemma ExitPolls(t: ActiveTask)
    requires t.child.Some? && t.child.value.answers == [] && t.current.Some?
    ensures t.child.value.success || t.restartsLeft == 0 ==> PolledOnce(t, None)
    ensures !t.child.value.success && t.restartsLeft > 0 ==>
      PolledOnce(t, Some(Requeued(t.(child := None, current := None), t.current.value)))
  {
  }

  ghost function Remaining(polled: seq<Option<ActiveTask>>): seq<ActiveTask> {
    if polled == [] then []
    else Remaining(polled[..|polled| - 1]) + if polled[|polled| - 1].Some? then [polled[|polled| - 1].value] else []
  }

  /** The first `|polled|` services have been polled once each; the first `index` now
      are those of them that are left. */
  ghost predicate Swept(before: seq<ActiveTask>, now: seq<ActiveTask>, index: nat, polled: seq<Option<ActiveTask>>) {
    && |polled| <= |before| && index <= |now|
    && now[index..] == before[|polled|..] && now[..index] == Remaining(polled)
    && forall i :: 0 <= i < |polled| ==> PolledOnce(before[i], polled[i])
  }

  lemma SweptNone(before: seq<ActiveTask>)
    ensures Swept(before, before, 0, [])
  {
  }

  lemma SweptNext(before: seq<ActiveTask>, now: seq<ActiveTask>, next: seq<ActiveTask>, index: nat,
                  polled: seq<Option<ActiveTask>>, kept: bool)
    requires Swept(before, now, index, polled) && index < |now| && PollReplaces(now, next, index, kept)
    ensures Swept(before, next, if kept then index + 1 else index, polled + [if kept then Some(next[index]) else None])
  {
    hide PolledOnce;
    var k := |polled|;
    var r := if kept then Some(next[index]) else None;
    assert |before[k..]| == |now| - index && now[index] == now[index..][0] == before[k];
    assert (polled + [r])[..k] == polled;
    assert before[k + 1..] == before[k..][1..] == now[index + 1..];
    if kept {
      assert next[index + 1..] == now[index + 1..] && next[..index + 1] == now[..index] + [next[index]];
    } else {
      assert next[index..] == now[index + 1..] && next[..index] == now[..index];
    }
  }

  lemma SweptAll(before: seq<ActiveTask>, now: seq<ActiveTask>, index: nat, polled: seq<Option<ActiveTask>>)
    requires Swept(before, now, index, polled) && index == |now|
    ensures |polled| == |before| && now == Remaining(polled)
    ensures forall i :: 0 <= i < |polled| ==> PolledOnce(before[i], polled[i])
  {
    assert |before[|polled|..]| == 0;
    assert now[..index] == now;
  }
}

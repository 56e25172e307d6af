/** Steps and the order of the log: declaration order when one slot is used, and the
    barrier between stages. */
module RunLine {
  import opened Plan
  import opened RunLog
  import opened RunState

  /** `now` extends `log` without spawning a finite command. */
  ghost predicate NoFiniteSpawn(log: Log, now: Log) {
    log <= now && forall i :: |log| <= i < |now| ==> !FiniteSpawn(now[i])
  }

  /** `now` extends `log` by events of one task. */
  ghost predicate SpawnsOf(log: Log, now: Log, x: Entry) {
    log <= now && forall i :: |log| <= i < |now| && FiniteSpawn(now[i]) ==> now[i].entry == x
  }

  ghost predicate Part(part: seq<Entry>, line: seq<Entry>) {
    Ascending(part) && forall e :: e in part ==> e in line
  }

  lemma LineKept(single: bool, line: seq<Entry>, log: Log, line': seq<Entry>, now: Log)
    requires InLine(single, line, log) && Part(line', line)
    requires log <= now && forall i :: |log| <= i < |now| ==> !OriginalSpawn(now[i])
    ensures InLine(single, line', now)
  {
    forall i, k | 0 <= i < |now| && OriginalSpawn(now[i]) && 0 <= k < |line'| && single
      ensures now[i].entry.ticket <= line'[k].ticket
    {
      assert line'[k] in line;
      assert now[i] == log[i];
    }
    assert forall i :: 0 <= i < |log| ==> now[i] == log[i];
  }

  /** The head of the line may spawn, alone. */
  lemma LineSpawns(single: bool, line: seq<Entry>, log: Log, line': seq<Entry>, now: Log)
    requires InLine(single, line, log) && Part(line', line)
    requires single ==> line != [] && SpawnsOf(log, now, line[0])
    ensures InLine(single, line', now)
  {
    if single {
      var x := line[0];
      forall i | 0 <= i < |now| && OriginalSpawn(now[i]) ensures now[i].entry.ticket <= x.ticket {
        if i < |log| { assert now[i] == log[i]; }
      }
      forall k | 0 <= k < |line'| ensures x.ticket <= line'[k].ticket {
        assert line'[k] in line;
      }
      forall i, j | 0 <= i < j < |now| && OriginalSpawn(now[i]) && OriginalSpawn(now[j])
        ensures now[i].entry.ticket <= now[j].entry.ticket
      {
        if j < |log| { assert now[i] == log[i] && now[j] == log[j]; }
      }
    }
  }

  lemma BarredKept(planned: seq<Entry>, log: Log, now: Log)
    requires Barred(planned, log) && NoFiniteSpawn(log, now)
    ensures Barred(planned, now)
  {
    forall j, k | 0 <= j < |now| && FiniteSpawn(now[j]) && 0 <= k < |planned|
        && !planned[k].plan.service && planned[k].stage < now[j].entry.stage
      ensures EndedIn(now[..j], planned[k])
    {
      assert j < |log| && now[j] == log[j] && now[..j] == log[..j];
    }
  }

  ghost predicate EarlierEnded(planned: seq<Entry>, log: Log, stage: nat) {
    forall k :: 0 <= k < |planned| && !planned[k].plan.service && planned[k].stage < stage ==> EndedIn(log, planned[k])
  }

  lemma BarredSpawns(planned: seq<Entry>, log: Log, now: Log, x: Entry)
    requires Barred(planned, log) && SpawnsOf(log, now, x) && EarlierEnded(planned, log, x.stage)
    ensures Barred(planned, now)
  {
    forall j, k | 0 <= j < |now| && FiniteSpawn(now[j]) && 0 <= k < |planned|
        && !planned[k].plan.service && planned[k].stage < now[j].entry.stage
      ensures EndedIn(now[..j], planned[k])
    {
      if j < |log| {
        assert now[j] == log[j] && now[..j] == log[..j];
      } else {
        var i :| 0 <= i < |log| && log[i].Terminal? && log[i].entry == planned[k];
        assert now[..j][i] == log[i];
      }
    }
  }

  /** A finished task has a terminal record in the log. */
  lemma {:induction false} DoneIsEnded(log: Log, ticket: nat)
    requires ProgressOf(log, ticket).Done?
    ensures exists i :: 0 <= i < |log| && log[i].Terminal? && log[i].entry.ticket == ticket
  {
    var front, e := log[..|log| - 1], log[|log| - 1];
    if !(About(e, ticket) && e.Terminal?) {
      DoneIsEnded(front, ticket);
      var i :| 0 <= i < |front| && front[i].Terminal? && front[i].entry.ticket == ticket;
      assert log[i] == front[i];
    }
  }
}

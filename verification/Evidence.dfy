/** Failure evidence: a bounded excerpt of one failed task's output
    (`OutputRegistry::failure_evidence` of `src/output.rs`). */
module Evidence {
  import opened Plan
  import opened Canonical
  import opened Utf8
  import opened Capture
  import opened Retention

  datatype FailureEvidence = FailureEvidence(
    primary: Text,
    excerpt: seq<Byte>,
    lines: nat,
    truncated: bool,
    observed: nat,
    retained: nat,
    referenced: bool,
    additional: nat)

  /** Standard output, then standard error, line by line. */
  function LinesOf(t: TaskOutput): seq<seq<Byte>> { Lines(Lossy(t.stdout.bytes)) + Lines(Lossy(t.stderr.bytes)) }

  /** The first retained task that failed, or the first retained task. */
  ghost predicate IsPrimary(tasks: seq<TaskOutput>, failed: seq<Text>, i: nat) {
    && i < |tasks|
    && (forall j :: 0 <= j < i ==> tasks[j].task !in failed)
    && (tasks[i].task in failed || (i == 0 && forall j :: 0 <= j < |tasks| ==> tasks[j].task !in failed))
  }

  method FindPrimary(tasks: seq<TaskOutput>, failed: seq<Text>) returns (i: nat)
    requires tasks != []
    ensures IsPrimary(tasks, failed, i)
  {
    i := 0;
    while i < |tasks| && tasks[i].task !in failed
      invariant 0 <= i <= |tasks| && forall j :: 0 <= j < i ==> tasks[j].task !in failed
    {
      i := i + 1;
    }
    if i == |tasks| { i := 0; }
  }

  function Min(a: nat, b: nat): nat { if a < b then a else b }

  lemma {:induction false} UnlinesAppend(a: seq<seq<Byte>>, b: seq<seq<Byte>>)
    ensures Unlines(a + b) == Unlines(a) + Unlines(b)
  {
    if a == [] {
      assert a + b == b;
    } else {
      UnlinesAppend(a[1..], b);
      assert (a + b)[1..] == a[1..] + b && (a + b)[0] == a[0];
      assert Unlines(a + b) == a[0] + (Unlines(a[1..]) + Unlines(b));
    }
  }

  lemma UnlinesSnoc(text: seq<seq<Byte>>, k: nat)
    requires k < |text|
    ensures Unlines(text[..k + 1]) == Unlines(text[..k]) + text[k]
  {
    assert text[..k + 1] == text[..k] + [text[k]];
    UnlinesAppend(text[..k], [text[k]]);
    assert Unlines([text[k]]) == text[k] + Unlines([]);
  }

  /** Copies lines until the limit is reached; more lines count as a cut. */
  method TakeLines(text: seq<Byte>, before: seq<Byte>, lines: nat, max: nat) returns (excerpt: seq<Byte>, total: nat, cut: bool)
    requires lines <= max
    ensures total == Min(max, lines + |Lines(text)|) && cut == (lines + |Lines(text)| > max)
    ensures excerpt == before + Unlines(Lines(text)[..total - lines])
  {
    excerpt, total, cut := before, lines, false;
    var all := Lines(text);
    var k := 0;
    while k < |all|
      invariant 0 <= k <= |all| && total == lines + k <= max
      invariant excerpt == before + Unlines(all[..k])
    {
      if total >= max { return excerpt, total, true; }
      UnlinesSnoc(all, k);
      excerpt := excerpt + all[k];
      total := total + 1;
      k := k + 1;
    }
  }

  /** The excerpt holds the first lines of the primary task, at most `max`; the flag
      tells whether any of its output is missing; every other retained task is counted. */
  method Collect(tasks: seq<TaskOutput>, max: nat, failed: seq<Text>) returns (e: Option<FailureEvidence>, ghost primary: nat)
    requires DistinctTasks(tasks)
    ensures e.None? <==> tasks == []
    ensures e.Some? ==>
      && IsPrimary(tasks, failed, primary)
      && var t := tasks[primary];
        var all := LinesOf(t);
        && e.value.primary == t.task
        && e.value.lines == Min(max, |all|)
        && e.value.excerpt == Unlines(all[..Min(max, |all|)])
        && (e.value.truncated <==> t.stdout.truncated || t.stderr.truncated || |all| > max)
        && e.value.observed == t.stdout.observed + t.stderr.observed
        && e.value.retained == t.Retained()
        && (e.value.referenced <==> t.Retained() > 0 && t.task != [])
        && e.value.additional == |tasks| - 1
  {
    hide Lines, Lossy, Unlines;
    primary := 0;
    if tasks == [] { return None, 0; }
    var first := FindPrimary(tasks, failed);
    primary := first;
    var id := tasks[first].task;
    var excerpt, lines, truncated, additional := [], 0, false, 0;
    var observed: nat, retained: nat := 0, 0;
    var i := 0;
    while i < |tasks|
      invariant 0 <= i <= |tasks|
      invariant i <= first ==> additional == i && lines == 0 && excerpt == [] && observed == retained == 0 && !truncated
      invariant i > first ==> additional == i - 1 && Gathered(tasks[first], max, excerpt, lines, truncated, observed, retained)
    {
      if tasks[i].task != id {
        additional := additional + 1;
      } else {
        assert i == first;
        observed := observed + tasks[i].stdout.observed + tasks[i].stderr.observed;
        retained := retained + |tasks[i].stdout.bytes| + |tasks[i].stderr.bytes|;
        excerpt, lines, truncated := TakeTask(tasks[i], max);
      }
      i := i + 1;
    }
    e := Some(FailureEvidence(id, excerpt, lines, truncated, observed, retained, retained > 0 && id != [], additional));
  }

  ghost predicate Gathered(t: TaskOutput, max: nat, excerpt: seq<Byte>, lines: nat, truncated: bool,
                           observed: nat, retained: nat)
  {
    && lines == Min(max, |LinesOf(t)|)
    && excerpt == Unlines(LinesOf(t)[..lines])
    && (truncated <==> t.stdout.truncated || t.stderr.truncated || |LinesOf(t)| > max)
    && observed == t.stdout.observed + t.stderr.observed
    && retained == t.Retained()
  }

  method TakeTask(t: TaskOutput, max: nat) returns (excerpt: seq<Byte>, lines: nat, truncated: bool)
    ensures lines == Min(max, |LinesOf(t)|) && excerpt == Unlines(LinesOf(t)[..lines])
    ensures truncated <==> t.stdout.truncated || t.stderr.truncated || |LinesOf(t)| > max
  {
    hide Lines, Lossy, Unlines;
    truncated := t.stdout.truncated || t.stderr.truncated;
    ghost var out, err := Lines(Lossy(t.stdout.bytes)), Lines(Lossy(t.stderr.bytes));
    var cut, cut';
    excerpt, lines, cut := TakeLines(Lossy(t.stdout.bytes), [], 0, max);
    ghost var k := lines;
    excerpt, lines, cut' := TakeLines(Lossy(t.stderr.bytes), excerpt, lines, max);
    truncated := truncated || cut || cut';
    assert LinesOf(t)[..lines] == out[..k] + err[..lines - k];
    UnlinesAppend(out[..k], err[..lines - k]);
  }

  // ------------------------------------------------------------- the reported count

  ghost function Names(tasks: seq<TaskOutput>): set<Text> { set i | 0 <= i < |tasks| :: tasks[i].task }

  ghost function Failed(failed: seq<Text>): set<Text> { set i | 0 <= i < |failed| :: failed[i] }

  lemma {:induction false} NamesCount(tasks: seq<TaskOutput>)
    requires DistinctTasks(tasks)
    ensures |Names(tasks)| == |tasks|
  {
    if tasks != [] {
      NamesCount(tasks[1..]);
      var first, rest := tasks[0].task, Names(tasks[1..]);
      forall x ensures x in Names(tasks) <==> x in rest + {first} {
        if x in rest {
          var i :| 0 <= i < |tasks[1..]| && tasks[1..][i].task == x;
          assert tasks[i + 1].task == x;
        }
        if x in Names(tasks) && x != first {
          var i :| 0 <= i < |tasks| && tasks[i].task == x;
          assert tasks[1..][i - 1].task == x;
        }
      }
      assert Names(tasks) == rest + {first};
      assert first !in rest;
    }
  }

  /** The count of additional failed tasks is the number of distinct failed tasks
      other than the primary exactly when as many of the other retained tasks did not
      fail as failed tasks were not retained. */
  lemma AdditionalCount(tasks: seq<TaskOutput>, failed: seq<Text>, i: nat)
    requires DistinctTasks(tasks) && IsPrimary(tasks, failed, i)
    ensures var primary := {tasks[i].task};
      var retained, others := Names(tasks) - primary, Failed(failed) - primary;
      && (|tasks| - 1 == |others| <==> |retained - others| == |others - retained|)
      && (others <= retained || retained <= others ==> (|tasks| - 1 == |others| <==> retained == others))
  {
    var primary := {tasks[i].task};
    var retained, others := Names(tasks) - primary, Failed(failed) - primary;
    NamesCount(tasks);
    assert tasks[i].task in Names(tasks) && Names(tasks) == retained + primary;
    Overlap(retained, others);
    Overlap(others, retained);
    assert retained * others == others * retained;
    if others <= retained { SameSize(others, retained); }
    if retained <= others { SameSize(retained, others); }
  }

  lemma SameSize(a: set<Text>, b: set<Text>)
    requires a <= b
    ensures |a| == |b| <==> a == b
  {
    assert b == a + (b - a);
    if |a| == |b| { assert b - a == {}; }
  }

  lemma Overlap(a: set<Text>, b: set<Text>)
    ensures |a| == |a - b| + |a * b|
  {
    assert a == (a - b) + (a * b);
  }

  /** It counts a retained task that passed... */
  lemma CountsPassed(a: TaskOutput, b: TaskOutput)
    requires a.task != b.task
    ensures DistinctTasks([a, b]) && IsPrimary([a, b], [a.task], 0)
    ensures |[a, b]| - 1 == 1 && Failed([a.task]) - {a.task} == {}
  {
  }

  /** ...and misses a failed task that retained nothing. */
  lemma MissesUnretained(a: TaskOutput, b: Text)
    requires a.task != b
    ensures DistinctTasks([a]) && IsPrimary([a], [a.task, b], 0)
    ensures |[a]| - 1 == 0 && Failed([a.task, b]) - {a.task} == {b}
  {
    assert Failed([a.task, b]) == {a.task, b} by {
      assert [a.task, b][0] == a.task && [a.task, b][1] == b;
    }
  }
}

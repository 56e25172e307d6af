/** The bounded await window (`src/awaiting.rs`) and what it answers, compared with
    the unbounded log of terminal generations. */
module Awaiting {
  import opened Plan
  import opened Capture

  const TERMINAL_HISTORY_BOUND: nat := 256

  datatype Reason = Passed | Failed | Cancelled | Superseded

  datatype Terminal = Terminal(generation: nat, reason: Reason)

  datatype Event =
    | Started(run: nat, batch: Option<nat>)
    | Finished(run: nat, supersededBy: Option<nat>, failed: bool)
    | Stopped(run: nat, supersededBy: Option<nat>)
    | Unrelated

  datatype Mode = After(generation: nat) | Exact(generation: nat)

  // --------------------------------------------------------------------- answering

  predicate Wanted(t: Terminal, mode: Mode) {
    match mode
    case After(g) => t.generation > g
    case Exact(g) => t.generation == g
  }

  /** The newest record that satisfies the mode. */
  function Evaluate(terminal: seq<Terminal>, mode: Mode): (r: Option<Terminal>)
    ensures r.Some? ==> r.value in terminal && Wanted(r.value, mode)
    ensures r.None? ==> forall i :: 0 <= i < |terminal| ==> !Wanted(terminal[i], mode)
  {
    if terminal == [] then None
    else if Wanted(terminal[|terminal| - 1], mode) then Some(terminal[|terminal| - 1])
    else Evaluate(terminal[..|terminal| - 1], mode)
  }

  /** Generations end in increasing order. */
  ghost predicate Increasing(all: seq<Terminal>) {
    forall i, j :: 0 <= i < j < |all| ==> all[i].generation < all[j].generation
  }

  lemma {:induction false} EvaluateAppend(a: seq<Terminal>, b: seq<Terminal>, mode: Mode)
    ensures Evaluate(a + b, mode) == if Evaluate(b, mode).Some? then Evaluate(b, mode) else Evaluate(a, mode)
  {
    if b == [] {
      assert a + b == a;
    } else {
      EvaluateAppend(a, b[..|b| - 1], mode);
      assert (a + b)[..|a + b| - 1] == a + b[..|b| - 1];
    }
  }

  /** The window loses an answer exactly when the only records that satisfy the
      mode have been evicted; it never gives a different one. */
  lemma WindowAnswers(all: seq<Terminal>, bound: nat, mode: Mode)
    ensures var evicted := all[..|all| - |Suffix(all, bound)|];
      Evaluate(Suffix(all, bound), mode) == Evaluate(all, mode)
      <==> Evaluate(Suffix(all, bound), mode).Some? || Evaluate(evicted, mode).None?
  {
    var window := Suffix(all, bound);
    var evicted := all[..|all| - |window|];
    assert all == evicted + window;
    EvaluateAppend(evicted, window, mode);
  }

  /** With increasing generations eviction never changes what `After` answers... */
  lemma AfterUnaffected(all: seq<Terminal>, bound: nat, g: nat)
    requires Increasing(all) && bound > 0
    ensures Evaluate(Suffix(all, bound), After(g)) == Evaluate(all, After(g))
  {
    var window := Suffix(all, bound);
    var evicted := all[..|all| - |window|];
    WindowAnswers(all, bound, After(g));
    if Evaluate(evicted, After(g)).Some? {
      var i :| 0 <= i < |evicted| && Wanted(evicted[i], After(g));
      assert all[|all| - 1] == window[|window| - 1] && all[i] == evicted[i];
      assert Wanted(window[|window| - 1], After(g));
    }
  }

  /** ...and hides from `Exact` only generations older than everything retained. */
  lemma ExactHidesOlder(all: seq<Terminal>, bound: nat, g: nat)
    requires Increasing(all)
    ensures Evaluate(Suffix(all, bound), Exact(g)) == Evaluate(all, Exact(g)) || Evaluate(Suffix(all, bound), Exact(g)) == None
    ensures Evaluate(Suffix(all, bound), Exact(g)) != Evaluate(all, Exact(g)) ==>
      |all| > bound && forall i :: 0 <= i < |Suffix(all, bound)| ==> g < Suffix(all, bound)[i].generation
  {
    var window := Suffix(all, bound);
    var evicted := all[..|all| - |window|];
    WindowAnswers(all, bound, Exact(g));
    if Evaluate(window, Exact(g)) != Evaluate(all, Exact(g)) {
      var k :| 0 <= k < |evicted| && Wanted(evicted[k], Exact(g));
      forall i | 0 <= i < |window| ensures g < window[i].generation {
        assert window[i] == all[|evicted| + i] && evicted[k] == all[k];
      }
    }
  }

  /** The first generation that ended after `g`. */
  ghost function Next(all: seq<Terminal>, g: nat): Option<Terminal> {
    if all == [] then None else if all[0].generation > g then Some(all[0]) else Next(all[1..], g)
  }

  ghost function Above(all: seq<Terminal>, g: nat): nat {
    if all == [] then 0 else (if all[0].generation > g then 1 else 0) + Above(all[1..], g)
  }

  /** No record occurs twice: a generation ends once. */
  ghost predicate Once(all: seq<Terminal>) { forall i, j :: 0 <= i < j < |all| ==> all[i] != all[j] }

  lemma {:induction false} NoneAbove(all: seq<Terminal>, g: nat)
    ensures Above(all, g) == 0 <==> forall i :: 0 <= i < |all| ==> all[i].generation <= g
    ensures Above(all, g) == 0 ==> Next(all, g) == None
  {
    if all != [] {
      NoneAbove(all[1..], g);
      assert forall i :: 0 < i < |all| ==> all[i] == all[1..][i - 1];
    }
  }

  /** `After` answers with the generation above `g` that was recorded last, which is
      the next one exactly when no more than one of them has been recorded. Records
      need not be in generation order. */
  lemma {:induction false} AfterIsLastRecorded(all: seq<Terminal>, g: nat)
    requires Once(all)
    ensures Evaluate(all, After(g)) == Next(all, g) <==> Above(all, g) <= 1
  {
    if all != [] {
      var rest := all[1..];
      assert all == [all[0]] + rest;
      EvaluateAppend([all[0]], rest, After(g));
      NoneAbove(rest, g);
      if all[0].generation > g {
        assert Evaluate([all[0]], After(g)) == Some(all[0]);
        if Evaluate(rest, After(g)).Some? {
          var i :| 0 <= i < |rest| && rest[i] == Evaluate(rest, After(g)).value;
          assert rest[i] == all[i + 1] && all[0] != all[i + 1];
        } else {
          assert forall i :: 0 <= i < |rest| ==> !Wanted(rest[i], After(g));
        }
      } else {
        assert Evaluate([all[0]], After(g)) == Evaluate([], After(g)) == None;
        AfterIsLastRecorded(rest, g);
        if Evaluate(rest, After(g)) == None { assert forall i :: 0 <= i < |rest| ==> !Wanted(rest[i], After(g)); }
      }
    }
  }

  /** After two endings `After(0)` answers with the second, whichever generation that
      is: a queued generation that is superseded ends before the running one. */
  lemma AfterTwoEndings(first: Reason, second: Reason)
    ensures Evaluate([Terminal(1, first), Terminal(2, second)], After(0)) == Some(Terminal(2, second))
    ensures Next([Terminal(1, first), Terminal(2, second)], 0) == Some(Terminal(1, first))
    ensures Evaluate([Terminal(2, first), Terminal(1, second)], After(0)) == Some(Terminal(1, second))
  {
  }

  // --------------------------------------------------------------------- freshness

  function Max(a: nat, b: nat): nat { if a < b then b else a }

  function Mentioned(e: Event): nat {
    match e
    case Started(run, _) => run
    case Finished(run, by', _) => Max(run, if by'.Some? then by'.value else 0)
    case Stopped(run, by') => Max(run, if by'.Some? then by'.value else 0)
    case Unrelated => 0
  }

  datatype Pending = Pending(debounceActive: bool, queuedBatches: nat) {
    predicate Empty() { !debounceActive && queuedBatches == 0 }
  }

  datatype Freshness = Current | Stale | Unknown

  function Classify(generation: nat, ended: bool, latest: nat, pending: Pending): Freshness {
    if generation == latest && ended && pending.Empty() then Current
    else if latest > generation || !pending.Empty() then Stale
    else Unknown
  }

  // ------------------------------------------------------------------- coordinator

  function TerminalOf(e: Event): Option<Terminal> {
    match e
    case Finished(run, _, failed) => Some(Terminal(run, if failed then Failed else Passed))
    case Stopped(run, by') => Some(Terminal(run, if by'.Some? then Superseded else Cancelled))
    case _ => None
  }

  ghost function Terminals(events: seq<Event>): seq<Terminal> {
    if events == [] then []
    else
      var t := TerminalOf(events[|events| - 1]);
      Terminals(events[..|events| - 1]) + if t.Some? then [t.value] else []
  }

  lemma TerminalsSnoc(events: seq<Event>, e: Event)
    ensures Terminals(events + [e]) ==
      if TerminalOf(e).Some? then Terminals(events) + [TerminalOf(e).value] else Terminals(events)
  {
    assert (events + [e])[..|events|] == events;
  }

  /** The event names this generation, as its own or as the one that superseded it. */
  ghost predicate Names(e: Event, generation: nat) {
    && !e.Unrelated?
    && (e.run == generation || (!e.Started? && e.supersededBy == Some(generation)))
  }

  ghost predicate NamedIn(events: seq<Event>, generation: nat) {
    exists i :: 0 <= i < |events| && Names(events[i], generation)
  }

  /** `latest` is the greatest generation that an event names. */
  ghost predicate LatestOf(events: seq<Event>, latest: nat) {
    (forall g: nat :: NamedIn(events, g) ==> g <= latest) && (latest > 0 ==> NamedIn(events, latest))
  }

  lemma NamedSnoc(events: seq<Event>, e: Event, g: nat)
    ensures NamedIn(events + [e], g) <==> NamedIn(events, g) || Names(e, g)
  {
    var now := events + [e];
    if NamedIn(events, g) {
      var i :| 0 <= i < |events| && Names(events[i], g);
      assert now[i] == events[i];
    }
    assert now[|events|] == e;
  }

  lemma LatestSnoc(events: seq<Event>, latest: nat, e: Event, latest': nat)
    requires LatestOf(events, latest) && latest' == Max(latest, Mentioned(e))
    ensures LatestOf(events + [e], latest')
  {
    hide NamedIn;
    forall g ensures NamedIn(events + [e], g) <==> NamedIn(events, g) || Names(e, g) { NamedSnoc(events, e, g); }
    assert Mentioned(e) > 0 ==> Names(e, Mentioned(e));
  }

  /** The newest record answers for its generation. */
  lemma NewestAnswers(all: seq<Terminal>, t: Terminal)
    ensures Evaluate(Suffix(all + [t], TERMINAL_HISTORY_BOUND), Exact(t.generation)) == Some(t)
  {
    var window := Suffix(all + [t], TERMINAL_HISTORY_BOUND);
    assert window[|window| - 1] == t;
  }

  /** `events` is every event observed. */
  class Coordinator {
    var latest: nat
    var latestBatch: Option<nat>
    var terminal: seq<Terminal>
    var pending: Pending
    ghost var events: seq<Event>

    ghost predicate Valid()
      reads this
    {
      terminal == Suffix(Terminals(events), TERMINAL_HISTORY_BOUND) && LatestOf(events, latest)
    }

    constructor ()
      ensures Valid() && events == []
    {
      latest, latestBatch, terminal, pending := 0, None, [], Pending(false, 0);
      events := [];
    }

    method Observe(e: Event)
      requires Valid()
      modifies this
      ensures Valid() && events == old(events) + [e] && pending == old(pending)
      ensures latestBatch == if e.Started? && e.batch.Some? then e.batch else old(latestBatch)
      ensures e.Finished? ==> Evaluate(terminal, Exact(e.run)) == Some(Terminal(e.run, if e.failed then Failed else Passed))
      ensures e.Stopped? ==>
        Evaluate(terminal, Exact(e.run)) == Some(Terminal(e.run, if e.supersededBy.Some? then Superseded else Cancelled))
      ensures !e.Finished? && !e.Stopped? ==> terminal == old(terminal)
    {
      hide Suffix;
      hide Terminals;
      hide Evaluate;
      hide LatestOf;
      ghost var was, before := events, latest;
      TerminalsSnoc(events, e);
      latest := Max(latest, Mentioned(e));
      match e {
        case Started(_, batch) =>
          if batch.Some? { latestBatch := batch; }
        case Finished(run, _, failed) =>
          Record(Terminal(run, if failed then Failed else Passed), Terminals(events));
        case Stopped(run, supersededBy) =>
          Record(Terminal(run, if supersededBy.Some? then Superseded else Cancelled), Terminals(events));
        case Unrelated =>
      }
      if TerminalOf(e).Some? { NewestAnswers(Terminals(events), TerminalOf(e).value); }
      events := events + [e];
      LatestSnoc(was, before, e, latest);
    }

    /** A debounce batch opened. */
    method NoteBatch(batch: nat)
      requires Valid()
      modifies this`latestBatch, this`pending
      ensures Valid() && latestBatch == Some(batch) && pending == old(pending).(debounceActive := true) && !pending.Empty()
    {
      latestBatch := Some(batch);
      pending := pending.(debounceActive := true);
    }

    /** The batch was scheduled or found to be a no-op. */
    method NoteBatchComplete()
      requires Valid()
      modifies this`pending
      ensures Valid() && pending == old(pending).(debounceActive := false)
    {
      pending := pending.(debounceActive := false);
    }

    /** Drops the oldest records beyond the bound. */
    method Record(t: Terminal, ghost all: seq<Terminal>)
      requires terminal == Suffix(all, TERMINAL_HISTORY_BOUND)
      modifies this`terminal
      ensures terminal == Suffix(all + [t], TERMINAL_HISTORY_BOUND)
    {
      terminal := terminal + [t];
      while |terminal| > TERMINAL_HISTORY_BOUND
        invariant |terminal| <= |all| + 1 && terminal == (all + [t])[|all| + 1 - |terminal|..]
        invariant |terminal| >= |Suffix(all + [t], TERMINAL_HISTORY_BOUND)|
      {
        terminal := terminal[1..];
      }
    }

    /** An observation is current exactly when it shows an ended generation, no work
        is pending and no event ever named a newer generation than the one shown. It
        is stale exactly when an event named a newer one or work is pending. */
    lemma CurrentIsLatest(generation: nat, ended: bool)
      requires Valid()
      ensures Classify(generation, ended, latest, pending) == Current <==>
        && ended && pending.Empty()
        && (generation == 0 || NamedIn(events, generation))
        && (forall g: nat :: NamedIn(events, g) ==> g <= generation)
      ensures Classify(generation, ended, latest, pending) == Stale <==>
        !pending.Empty() || exists g: nat :: NamedIn(events, g) && g > generation
    {
      hide NamedIn;
      assert latest > generation ==> NamedIn(events, latest);
    }
  }
}

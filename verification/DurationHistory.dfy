/** Bounded duration history per execution signature (`src/duration_history.rs`). */
module DurationHistory {
  import opened Plan
  import opened Canonical
  import opened Capture
  import opened Estimates

  const SUCCESS_RETENTION: nat := 20

  datatype ExcludedKind = Cancelled | Superseded | TimedOut

  datatype Profile = Profile(successes: seq<Word>, failures: seq<Word>, cancelled: nat, superseded: nat, timedOut: nat)

  const EMPTY: Profile := Profile([], [], 0, 0, 0)

  datatype Record =
    | Success(signature: Text, duration: Word)
    | Failure(signature: Text, duration: Word)
    | Excluded(signature: Text, kind: ExcludedKind)

  // -------------------------------------------------------- what a log amounts to

  ghost function Successes(log: seq<Record>, signature: Text): seq<Word> {
    if log == [] then []
    else
      var last := log[|log| - 1];
      Successes(log[..|log| - 1], signature) + if last.Success? && last.signature == signature then [last.duration] else []
  }

  ghost function Failures(log: seq<Record>, signature: Text): seq<Word> {
    if log == [] then []
    else
      var last := log[|log| - 1];
      Failures(log[..|log| - 1], signature) + if last.Failure? && last.signature == signature then [last.duration] else []
  }

  ghost function Count(log: seq<Record>, record: Record): nat { multiset(log)[record] }

  /** The profile that the whole log of recorded outcomes determines. */
  ghost function ProfileOf(log: seq<Record>, signature: Text): Profile {
    Profile(Suffix(Successes(log, signature), SUCCESS_RETENTION), Suffix(Failures(log, signature), SUCCESS_RETENTION),
            Count(log, Excluded(signature, Cancelled)), Count(log, Excluded(signature, Superseded)),
            Count(log, Excluded(signature, TimedOut)))
  }

  ghost predicate Mentions(log: seq<Record>, signature: Text) {
    exists i :: 0 <= i < |log| && log[i].signature == signature
  }

  /** What one more record does to a bounded profile. */
  function Recorded(p: Profile, record: Record): Profile {
    match record
    case Success(_, duration) => p.(successes := Bounded(p.successes + [duration]))
    case Failure(_, duration) => p.(failures := Bounded(p.failures + [duration]))
    case Excluded(_, Cancelled) => p.(cancelled := p.cancelled + 1)
    case Excluded(_, Superseded) => p.(superseded := p.superseded + 1)
    case Excluded(_, TimedOut) => p.(timedOut := p.timedOut + 1)
  }

  /** One pop from the front when the bound is exceeded. */
  function Bounded(samples: seq<Word>): seq<Word> {
    if |samples| > SUCCESS_RETENTION then samples[1..] else samples
  }

  /** Dropping one sample at a time keeps exactly the newest ones. */
  lemma BoundedSuffix(samples: seq<Word>, x: Word)
    ensures Bounded(Suffix(samples, SUCCESS_RETENTION) + [x]) == Suffix(samples + [x], SUCCESS_RETENTION)
  {
  }

  lemma SamplesSnoc(log: seq<Record>, record: Record, s: Text)
    ensures Successes(log + [record], s) ==
      Successes(log, s) + if record.Success? && record.signature == s then [record.duration] else []
    ensures Failures(log + [record], s) ==
      Failures(log, s) + if record.Failure? && record.signature == s then [record.duration] else []
  {
    assert (log + [record])[..|log|] == log;
  }

  ghost function One(b: bool): nat { if b then 1 else 0 }

  lemma CountSnoc(log: seq<Record>, record: Record, other: Record)
    ensures Count(log + [record], other) == Count(log, other) + One(record == other)
  {
  }

  lemma CountsSnoc(log: seq<Record>, record: Record, s: Text)
    ensures forall k :: Count(log + [record], Excluded(s, k)) == Count(log, Excluded(s, k)) + One(record == Excluded(s, k))
  {
    hide Count;
    forall k ensures Count(log + [record], Excluded(s, k)) == Count(log, Excluded(s, k)) + One(record == Excluded(s, k)) {
      CountSnoc(log, record, Excluded(s, k));
    }
  }

  lemma RecordedIsProfile(log: seq<Record>, record: Record)
    ensures ProfileOf(log + [record], record.signature) == Recorded(ProfileOf(log, record.signature), record)
  {
    hide Successes, Failures, Count, Suffix, Bounded;
    var s := record.signature;
    SamplesSnoc(log, record, s);
    CountsSnoc(log, record, s);
    assert Successes(log, s) + [] == Successes(log, s) && Failures(log, s) + [] == Failures(log, s);
    if record.Success? { BoundedSuffix(Successes(log, s), record.duration); }
    if record.Failure? { BoundedSuffix(Failures(log, s), record.duration); }
  }

  lemma OtherProfiles(log: seq<Record>, record: Record, s: Text)
    requires s != record.signature
    ensures ProfileOf(log + [record], s) == ProfileOf(log, s)
  {
    hide Successes, Failures, Count, Suffix;
    SamplesSnoc(log, record, s);
    CountsSnoc(log, record, s);
    assert Successes(log, s) + [] == Successes(log, s) && Failures(log, s) + [] == Failures(log, s);
  }

  lemma NeverMentioned(log: seq<Record>, signature: Text)
    requires !Mentions(log, signature)
    ensures ProfileOf(log, signature) == EMPTY
  {
    NoSamples(log, signature);
    assert forall r: Record :: r.signature == signature ==> r !in log;
  }

  lemma {:induction false} NoSamples(log: seq<Record>, signature: Text)
    requires !Mentions(log, signature)
    ensures Successes(log, signature) == [] && Failures(log, signature) == []
  {
    if log != [] {
      var front := log[..|log| - 1];
      assert forall i :: 0 <= i < |front| ==> front[i] == log[i];
      NoSamples(front, signature);
    }
  }

  // ------------------------------------------------------------------------ class

  /** `log` is every outcome ever recorded. */
  class History {
    var profiles: map<Text, Profile>
    ghost var log: seq<Record>

    ghost predicate Valid()
      reads this
    {
      && (forall s :: s in profiles <==> Mentions(log, s))
      && (forall s :: s in profiles ==> profiles[s] == ProfileOf(log, s))
    }

    constructor ()
      ensures Valid() && log == [] && profiles == map[]
    {
      profiles := map[];
      log := [];
    }

    /** `record_success`, `record_failure` and `record_excluded`: a bounded update
        of one profile, which stays what the whole log determines. */
    method Add(record: Record)
      requires Valid()
      modifies this
      ensures Valid() && log == old(log) + [record]
    {
      hide ProfileOf, Mentions, Recorded;
      var s := record.signature;
      var profile := if s in profiles then profiles[s] else EMPTY;
      if s !in profiles { NeverMentioned(log, s); }
      RecordedIsProfile(log, record);
      forall other | other != s ensures ProfileOf(log + [record], other) == ProfileOf(log, other) {
        OtherProfiles(log, record, other);
      }
      MentionsSnoc(log, record);
      profiles := profiles[s := Recorded(profile, record)];
      log := log + [record];
    }

    /** Depends on the last successes of the signature only. */
    method EstimateFor(signature: Text, floor: Option<Word>) returns (e: Option<RunEstimate>)
      requires Valid()
      ensures e == Estimate(Suffix(Successes(log, signature), SUCCESS_RETENTION), floor)
    {
      if signature !in profiles { NeverMentioned(log, signature); return None; }
      e := Estimate(profiles[signature].successes, floor);
    }
  }

  lemma MentionsSnoc(log: seq<Record>, record: Record)
    ensures forall s :: Mentions(log + [record], s) <==> Mentions(log, s) || s == record.signature
  {
    var log' := log + [record];
    forall s ensures Mentions(log', s) <==> Mentions(log, s) || s == record.signature {
      if Mentions(log, s) {
        var i :| 0 <= i < |log| && log[i].signature == s;
        assert log'[i].signature == s;
      }
      assert log'[|log|] == record;
    }
  }

  // -------------------------------------------------------------------- snapshots

  datatype Snapshot = Snapshot(signature: Text, profile: Profile)

  /** `snaps` lists each profile once, in any order. */
  ghost predicate Enumerates(snaps: seq<Snapshot>, profiles: map<Text, Profile>) {
    && (forall i, j :: 0 <= i < j < |snaps| ==> snaps[i].signature != snaps[j].signature)
    && (forall i :: 0 <= i < |snaps| ==> snaps[i].signature in profiles && profiles[snaps[i].signature] == snaps[i].profile)
    && (forall s :: s in profiles ==> exists i :: 0 <= i < |snaps| && snaps[i].signature == s)
  }

  predicate Oversized(p: Profile) { |p.successes| > SUCCESS_RETENTION || |p.failures| > SUCCESS_RETENTION }

  /** Samples are appended, counts replaced. */
  function Merge(p: Profile, q: Profile): Profile {
    Profile(p.successes + q.successes, p.failures + q.failures, q.cancelled, q.superseded, q.timedOut)
  }

  function Merged(snaps: seq<Snapshot>): map<Text, Profile> {
    if snaps == [] then map[]
    else
      var m, last := Merged(snaps[..|snaps| - 1]), snaps[|snaps| - 1];
      m[last.signature := Merge(if last.signature in m then m[last.signature] else EMPTY, last.profile)]
  }

  /** Refused exactly when some single profile is oversized. */
  method FromSnapshot(snaps: seq<Snapshot>) returns (r: Option<map<Text, Profile>>)
    ensures r.None? <==>
      exists i :: 0 <= i < |snaps| &&
        (|snaps[i].profile.successes| > SUCCESS_RETENTION || |snaps[i].profile.failures| > SUCCESS_RETENTION)
    ensures r.Some? ==> r.value == Merged(snaps)
  {
    var profiles: map<Text, Profile> := map[];
    var i := 0;
    while i < |snaps|
      invariant 0 <= i <= |snaps| && profiles == Merged(snaps[..i])
      invariant forall j :: 0 <= j < i ==> !Oversized(snaps[j].profile)
    {
      var s := snaps[i].signature;
      if Oversized(snaps[i].profile) { return None; }
      assert snaps[..i + 1][..i] == snaps[..i];
      profiles := profiles[s := Merge(if s in profiles then profiles[s] else EMPTY, snaps[i].profile)];
      i := i + 1;
    }
    assert snaps[..i] == snaps;
    r := Some(profiles);
  }

  lemma {:induction false} MergedEnumerated(snaps: seq<Snapshot>)
    requires forall i, j :: 0 <= i < j < |snaps| ==> snaps[i].signature != snaps[j].signature
    ensures forall s :: s in Merged(snaps) <==> exists i :: 0 <= i < |snaps| && snaps[i].signature == s
    ensures forall i :: 0 <= i < |snaps| ==> Merged(snaps)[snaps[i].signature] == snaps[i].profile
  {
    if snaps != [] {
      var front, last := snaps[..|snaps| - 1], snaps[|snaps| - 1];
      MergedEnumerated(front);
      assert snaps == front + [last];
      assert last.signature !in Merged(front);
      assert Merge(EMPTY, last.profile) == last.profile;
      forall s ensures s in Merged(snaps) <==> exists i :: 0 <= i < |snaps| && snaps[i].signature == s {
        if s in Merged(front) {
          var i :| 0 <= i < |front| && front[i].signature == s;
          assert snaps[i].signature == s;
        }
        assert snaps[|snaps| - 1].signature == last.signature;
      }
      forall i | 0 <= i < |snaps| ensures Merged(snaps)[snaps[i].signature] == snaps[i].profile {
        if i < |front| { assert front[i] == snaps[i]; }
      }
    }
  }

  /** Restoring a snapshot of a history, in whatever order its profiles are listed,
      gives that history back. */
  lemma SnapshotRoundTrip(snaps: seq<Snapshot>, log: seq<Record>, profiles: map<Text, Profile>)
    requires forall s :: s in profiles ==> profiles[s] == ProfileOf(log, s)
    requires Enumerates(snaps, profiles)
    ensures Merged(snaps) == profiles && forall i :: 0 <= i < |snaps| ==> !Oversized(snaps[i].profile)
  {
    hide ProfileOf, Merged, Oversized;
    MergedEnumerated(snaps);
    forall s | s in profiles ensures s in Merged(snaps) && Merged(snaps)[s] == profiles[s] {
      var i :| 0 <= i < |snaps| && snaps[i].signature == s;
    }
    assert Merged(snaps).Keys <= profiles.Keys;
    forall i | 0 <= i < |snaps| ensures !Oversized(snaps[i].profile) {
      ProfileBounded(log, snaps[i].signature);
    }
  }

  lemma ProfileBounded(log: seq<Record>, signature: Text)
    ensures !Oversized(ProfileOf(log, signature))
  {
  }

  /** Every success that a snapshot lists for a signature. */
  ghost function ListedSuccesses(snaps: seq<Snapshot>, signature: Text): seq<Word> {
    if snaps == [] then []
    else
      var last := snaps[|snaps| - 1];
      ListedSuccesses(snaps[..|snaps| - 1], signature) + if last.signature == signature then last.profile.successes else []
  }

  ghost function ListedFailures(snaps: seq<Snapshot>, signature: Text): seq<Word> {
    if snaps == [] then []
    else
      var last := snaps[|snaps| - 1];
      ListedFailures(snaps[..|snaps| - 1], signature) + if last.signature == signature then last.profile.failures else []
  }

  /** A signature listed more than once keeps all its samples. */
  lemma {:induction false} RestoredSamples(snaps: seq<Snapshot>, signature: Text)
    ensures signature in Merged(snaps) ==>
      && Merged(snaps)[signature].successes == ListedSuccesses(snaps, signature)
      && Merged(snaps)[signature].failures == ListedFailures(snaps, signature)
    ensures signature !in Merged(snaps) ==> ListedSuccesses(snaps, signature) == [] && ListedFailures(snaps, signature) == []
  {
    if snaps != [] { RestoredSamples(snaps[..|snaps| - 1], signature); }
  }

  /** The counts of a signature are those of its last listing. */
  lemma {:induction false} RestoredCounts(snaps: seq<Snapshot>, i: nat)
    requires i < |snaps| && forall j :: i < j < |snaps| ==> snaps[j].signature != snaps[i].signature
    ensures snaps[i].signature in Merged(snaps)
    ensures var restored, listed := Merged(snaps)[snaps[i].signature], snaps[i].profile;
      restored.cancelled == listed.cancelled && restored.superseded == listed.superseded && restored.timedOut == listed.timedOut
  {
    if i < |snaps| - 1 { RestoredCounts(snaps[..|snaps| - 1], i); }
  }

  /** The retention bound survives restoring exactly when the successes listed for a
      signature, and its failures, number no more than the bound together. */
  lemma RestoredBound(snaps: seq<Snapshot>, signature: Text)
    ensures (signature in Merged(snaps) ==> !Oversized(Merged(snaps)[signature])) <==>
      |ListedSuccesses(snaps, signature)| <= SUCCESS_RETENTION && |ListedFailures(snaps, signature)| <= SUCCESS_RETENTION
  {
    RestoredSamples(snaps, signature);
  }

  /** Two profiles of one signature, each within bounds, that restore to one beyond
      them: by their successes, or by their failures alone. */
  lemma RestoredBeyondBound(s: Text, samples: seq<Word>)
    requires |samples| == SUCCESS_RETENTION
    ensures var p := EMPTY.(successes := samples);
      var snaps := [Snapshot(s, p), Snapshot(s, p)];
      !Oversized(p) && s in Merged(snaps) && Oversized(Merged(snaps)[s])
    ensures var q := EMPTY.(failures := samples);
      var snaps := [Snapshot(s, q), Snapshot(s, q)];
      !Oversized(q) && s in Merged(snaps) && Oversized(Merged(snaps)[s])
  {
    MergedTwice(s, EMPTY.(successes := samples));
    MergedTwice(s, EMPTY.(failures := samples));
  }

  lemma MergedTwice(s: Text, p: Profile)
    ensures var snaps := [Snapshot(s, p), Snapshot(s, p)];
      s in Merged(snaps) && Merged(snaps)[s] == Merge(Merge(EMPTY, p), p)
  {
    var snaps := [Snapshot(s, p), Snapshot(s, p)];
    assert snaps[..1] == [Snapshot(s, p)] && [Snapshot(s, p)][..0] == [];
    assert Merged(snaps[..1]) == map[s := Merge(EMPTY, p)];
  }
}

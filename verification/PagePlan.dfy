/** Which streams a paged retrieval covers, and in what order (`src/output.rs`). */
module PagePlan {
  import opened Plan
  import opened Canonical
  import opened ConfigSort
  import opened Capture
  import opened Retention
  import opened PageSize
  import opened Cursor

  // ------------------------------------------------------------------ resolution

  datatype Resolution =
    | Resolved(ids: seq<Text>, resolved: Option<Text>)
    | Unresolved(candidates: seq<Text>, ambiguous: bool)

  predicate HasPrefix(id: Text, wanted: Text) { |wanted| <= |id| && id[..|wanted|] == wanted }

  function Prefixed(ids: seq<Text>, wanted: Text): (r: seq<Text>)
    ensures forall x :: x in r <==> x in ids && HasPrefix(x, wanted)
  {
    if ids == [] then []
    else (if HasPrefix(ids[0], wanted) then [ids[0]] else []) + Prefixed(ids[1..], wanted)
  }

  function Only(ids: seq<Text>, wanted: Text): (r: seq<Text>)
    ensures forall x :: x in r <==> x in ids && x == wanted
  {
    if ids == [] then []
    else (if ids[0] == wanted then [wanted] else []) + Only(ids[1..], wanted)
  }

  /** An exact identity wins, a single completion resolves, anything else is refused. */
  function Resolve(ids: seq<Text>, wanted: Option<Text>): Resolution {
    if wanted.None? || wanted.value == [] then Resolved(ids, None)
    else if wanted.value in ids then Resolved(Only(ids, wanted.value), None)
    else
      var canonical := Prefixed(ids, wanted.value);
      if |canonical| == 1 then Resolved(Only(ids, canonical[0]), Some(canonical[0]))
      else if |canonical| > 1 then Unresolved(canonical, true)
      else Unresolved(ids, false)
  }

  ghost predicate Distinct(xs: seq<Text>) { forall i, j :: 0 <= i < j < |xs| ==> xs[i] != xs[j] }

  lemma {:induction false} OnlyAbsent(ids: seq<Text>, wanted: Text)
    requires wanted !in ids
    ensures Only(ids, wanted) == []
  {
    if ids != [] { OnlyAbsent(ids[1..], wanted); }
  }

  lemma {:induction false} OnlyOne(ids: seq<Text>, wanted: Text)
    requires Distinct(ids) && wanted in ids
    ensures Only(ids, wanted) == [wanted]
  {
    if ids[0] == wanted {
      OnlyAbsent(ids[1..], wanted);
    } else {
      OnlyOne(ids[1..], wanted);
    }
  }

  lemma {:induction false} PrefixedDistinct(ids: seq<Text>, wanted: Text)
    requires Distinct(ids)
    ensures Distinct(Prefixed(ids, wanted))
  {
    if ids != [] {
      PrefixedDistinct(ids[1..], wanted);
      forall x | x in Prefixed(ids[1..], wanted) ensures x != ids[0] { assert x in ids[1..]; }
    }
  }

  lemma TwoDiffer(xs: seq<Text>)
    requires Distinct(xs) && |xs| > 1
    ensures xs[0] != xs[1]
  {
  }

  lemma LoneMember(xs: seq<Text>, x: Text)
    requires Distinct(xs) && x in xs && forall y :: y in xs ==> y == x
    ensures xs == [x]
  {
    forall i | 0 <= i < |xs| ensures xs[i] == x { assert xs[i] in xs; }
    if |xs| > 1 {
      TwoDiffer(xs);
      assert false;
    }
  }

  /** `x` is the only retained identity that `wanted` begins. */
  ghost predicate SoleCompletion(ids: seq<Text>, wanted: Text, x: Text) {
    x in ids && HasPrefix(x, wanted) && forall y :: y in ids && HasPrefix(y, wanted) ==> y == x
  }

  lemma PrefixedSole(ids: seq<Text>, wanted: Text, x: Text)
    requires Distinct(ids)
    ensures SoleCompletion(ids, wanted, x) <==> Prefixed(ids, wanted) == [x]
  {
    hide Prefixed;
    var canonical := Prefixed(ids, wanted);
    if SoleCompletion(ids, wanted, x) {
      PrefixedDistinct(ids, wanted);
      LoneMember(canonical, x);
    }
    if canonical == [x] { assert x in canonical; }
  }

  /** An identity is guessed exactly when it is the only retained completion of a
      name that is not itself retained. */
  lemma ResolveNeverGuesses(ids: seq<Text>, wanted: Text, x: Text)
    requires Distinct(ids) && wanted != []
    ensures wanted in ids ==> Resolve(ids, Some(wanted)) == Resolved([wanted], None)
    ensures Resolve(ids, Some(wanted)) == Resolved([x], Some(x)) <==> wanted !in ids && SoleCompletion(ids, wanted, x)
  {
    hide Prefixed, Only, HasPrefix;
    var canonical := Prefixed(ids, wanted);
    PrefixedSole(ids, wanted, x);
    if wanted in ids { OnlyOne(ids, wanted); }
    if |canonical| == 1 {
      assert canonical == [canonical[0]];
      assert canonical[0] in canonical;
      OnlyOne(ids, canonical[0]);
    }
  }

  /** The tasks a request means: all of them when it names none, the one it names, or
      the only one that its name begins. */
  ghost predicate Chosen(ids: seq<Text>, wanted: Option<Text>, id: Text) {
    if wanted.None? || wanted.value == [] then id in ids
    else if wanted.value in ids then id == wanted.value
    else SoleCompletion(ids, wanted.value, id)
  }

  /** A request is resolved exactly when it names no task or means one, and then to
      exactly the tasks that it means. */
  lemma ResolveExact(ids: seq<Text>, wanted: Option<Text>)
    requires Distinct(ids)
    ensures Resolve(ids, wanted).Resolved? <==> wanted.None? || wanted.value == [] || exists id :: Chosen(ids, wanted, id)
    ensures Resolve(ids, wanted).Resolved? ==> forall id :: id in Resolve(ids, wanted).ids <==> Chosen(ids, wanted, id)
  {
    hide Prefixed, Only, HasPrefix;
    if wanted.Some? && wanted.value != [] {
      if wanted.value in ids {
        OnlyOne(ids, wanted.value);
        assert Chosen(ids, wanted, wanted.value);
      } else {
        var canonical := Prefixed(ids, wanted.value);
        forall id ensures Chosen(ids, wanted, id) <==> canonical == [id] { PrefixedSole(ids, wanted.value, id); }
        if |canonical| == 1 {
          assert canonical == [canonical[0]];
          assert canonical[0] in canonical && Chosen(ids, wanted, canonical[0]);
          OnlyOne(ids, canonical[0]);
        }
      }
    }
  }

  /** A refusal lists every completion, or every identity when there is none. */
  lemma ResolveRefusals(ids: seq<Text>, wanted: Text)
    requires Distinct(ids) && wanted != [] && Resolve(ids, Some(wanted)).Unresolved?
    ensures var r := Resolve(ids, Some(wanted));
      && (r.ambiguous <==> exists x :: x in ids && HasPrefix(x, wanted))
      && (r.ambiguous ==> |r.candidates| > 1 && forall x :: x in r.candidates <==> x in ids && HasPrefix(x, wanted))
      && (!r.ambiguous ==> r.candidates == ids)
  {
    hide Only, HasPrefix;
    var canonical := Prefixed(ids, wanted);
    if |canonical| > 0 { assert canonical[0] in canonical; }
  }

  // ------------------------------------------------------------------------ order

  ghost predicate Below(a: Text, b: Text) { Leq(a, b) && a != b }

  /** Task identity first, standard output before standard error. */
  ghost predicate Before(a: Position, b: Position) {
    Below(a.id, b.id) || (a.id == b.id && !a.stderr && b.stderr)
  }

  function StreamsOf(id: Text, stream: Option<string>): seq<Position> {
    match stream
    case None => [Position(id, false), Position(id, true)]
    case Some(wanted) => [Position(id, wanted == "stderr")]
  }

  function Positions(ids: seq<Text>, stream: Option<string>): seq<Position> {
    if ids == [] then [] else StreamsOf(ids[0], stream) + Positions(ids[1..], stream)
  }

  lemma {:induction false} PositionsSnoc(ids: seq<Text>, id: Text, stream: Option<string>)
    ensures Positions(ids + [id], stream) == Positions(ids, stream) + StreamsOf(id, stream)
  {
    if ids == [] {
      assert ids + [id] == [id];
      assert Positions([id], stream) == StreamsOf(id, stream) + Positions([], stream);
    } else {
      PositionsSnoc(ids[1..], id, stream);
      assert (ids + [id])[1..] == ids[1..] + [id];
    }
  }

  lemma {:induction false} PositionsMembers(ids: seq<Text>, stream: Option<string>, at: Position)
    ensures at in Positions(ids, stream) <==> at.id in ids && (stream == None || at.stderr == (stream.value == "stderr"))
  {
    if ids != [] {
      PositionsMembers(ids[1..], stream, at);
      assert ids == [ids[0]] + ids[1..];
      assert at in StreamsOf(ids[0], stream) <==> at.id == ids[0] && (stream == None || at.stderr == (stream.value == "stderr"));
    }
  }

  /** The page plan lists each stream once, in order. */
  lemma {:induction false} PositionsAscend(ids: seq<Text>, stream: Option<string>)
    requires forall i, j :: 0 <= i < j < |ids| ==> Below(ids[i], ids[j])
    ensures forall i, j :: 0 <= i < j < |Positions(ids, stream)| ==> Before(Positions(ids, stream)[i], Positions(ids, stream)[j])
    ensures |Positions(ids, stream)| <= 2 * |ids|
  {
    if ids != [] {
      PositionsAscend(ids[1..], stream);
      var head, rest := StreamsOf(ids[0], stream), Positions(ids[1..], stream);
      forall i, j | 0 <= i < |head| && 0 <= j < |rest| ensures Before(head[i], rest[j]) {
        PositionsMembers(ids[1..], stream, rest[j]);
      }
    }
  }

  lemma {:induction false} DistinctCounts(xs: seq<Text>, x: Text)
    requires Distinct(xs)
    ensures multiset(xs)[x] <= 1
  {
    if xs != [] {
      DistinctCounts(xs[1..], x);
      assert xs == [xs[0]] + xs[1..];
      if x == xs[0] { assert x !in xs[1..]; }
    }
  }

  lemma TwiceCounts(xs: seq<Text>, i: nat, j: nat)
    requires i < j < |xs| && xs[i] == xs[j]
    ensures multiset(xs)[xs[i]] >= 2
  {
    assert xs == xs[..j] + ([xs[j]] + xs[j + 1..]);
    assert xs[..j][i] == xs[i];
    assert multiset(xs) == multiset(xs[..j]) + multiset([xs[j]] + xs[j + 1..]);
    assert xs[i] in xs[..j] && xs[j] in [xs[j]] + xs[j + 1..];
  }

  lemma SortedDistinct(ids: seq<Text>)
    requires Distinct(ids)
    ensures forall i, j :: 0 <= i < j < |Sort(ids)| ==> Below(Sort(ids)[i], Sort(ids)[j])
  {
    SortSpec(ids);
    var s := Sort(ids);
    forall i, j | 0 <= i < j < |s| ensures Below(s[i], s[j]) {
      if s[i] == s[j] {
        TwiceCounts(s, i, j);
        DistinctCounts(ids, s[i]);
      }
    }
  }

  /** The nested loops that build the plan. */
  method BuildPlan(ids: seq<Text>, stream: Option<string>) returns (plan: seq<Position>)
    ensures plan == Positions(Sort(ids), stream)
  {
    var sorted := Sort(ids);
    plan := [];
    var i := 0;
    while i < |sorted|
      invariant 0 <= i <= |sorted| && plan == Positions(sorted[..i], stream)
    {
      PositionsSnoc(sorted[..i], sorted[i], stream);
      assert sorted[..i + 1] == sorted[..i] + [sorted[i]];
      ghost var before := plan;
      if stream.None? || stream.value != "stderr" { plan := plan + [Position(sorted[i], false)]; }
      if stream.None? || stream.value == "stderr" { plan := plan + [Position(sorted[i], true)]; }
      assert plan == before + StreamsOf(sorted[i], stream);
      i := i + 1;
    }
    assert sorted[..i] == sorted;
  }

  // ------------------------------------------------------------------------- books

  /** Everything one retrieval pages through: the retained tasks of a generation,
      the ordered streams wanted and the page budget. */
  datatype Book = Book(header: Header, tasks: seq<TaskOutput>, plan: seq<Position>, max: nat)

  ghost predicate Readable(b: Book) {
    && |b.plan| < TWO64
    && (forall p :: 0 <= p < |b.plan| ==> FindTask(b.tasks, b.plan[p].id).Some?)
    && (forall i, j :: 0 <= i < j < |b.plan| ==> Before(b.plan[i], b.plan[j]))
    && (forall i :: 0 <= i < |b.tasks| ==> b.tasks[i].Retained() < TWO64)
  }

  function StreamAt(b: Book, p: nat): (c: Captured)
    requires Readable(b) && p < |b.plan|
    ensures |c.bytes| < TWO64
  {
    var t := FindTask(b.tasks, b.plan[p].id).value;
    assert t in b.tasks && t.Retained() < TWO64;
    if b.plan[p].stderr then t.stderr else t.stdout
  }

  // ----------------------------------------------------------------------- cursors

  datatype CursorError = Malformed | NotNumeric | OtherGeneration | NoSuchPosition | OtherStream | BeyondRetained

  datatype Start = At(index: nat, offset: nat) | Refused(reason: CursorError)

  function StreamIndex(at: Position): nat { if at.stderr then 1 else 0 }

  function StartOf(b: Book, cursor: Option<string>): (s: Start)
    requires Readable(b)
    ensures s.At? && s.index < |b.plan| ==> s.offset <= |StreamAt(b, s.index).bytes|
    ensures s.At? ==> s.index <= |b.plan|
  {
    if cursor.None? then At(0, 0)
    else match Parse(cursor.value)
         case Wrong(arity) => Refused(if arity then Malformed else NotNumeric)
         case Right(parts) =>
           if parts.generation != b.header.generation then Refused(OtherGeneration)
           else if parts.index >= |b.plan| then Refused(NoSuchPosition)
           else if parts.stream != StreamIndex(b.plan[parts.index]) then Refused(OtherStream)
           else if parts.offset > |StreamAt(b, parts.index).bytes| then Refused(BeyondRetained)
           else At(parts.index, parts.offset)
  }

  function CursorTo(b: Book, p: nat, offset: nat): string
    requires p < |b.plan|
  {
    Format(b.header.generation, p, StreamIndex(b.plan[p]), offset)
  }

  /** Reading begins at the first position without a cursor, and otherwise exactly where
      the cursor says, provided it names this generation, a position of the plan with
      the number of its stream, and no offset beyond what is retained there. */
  lemma StartExact(b: Book, raw: string, p: nat, offset: nat)
    requires Readable(b)
    ensures StartOf(b, None) == At(0, 0)
    ensures StartOf(b, Some(raw)) == At(p, offset) <==>
      && p < |b.plan| && offset <= |StreamAt(b, p).bytes|
      && Parse(raw) == Right(Parts(b.header.generation, p, if b.plan[p].stderr then 1 else 0, offset))
  {
    hide Parse;
  }

  /** A refusal names the first of these that the cursor does not meet. */
  lemma RefusalExact(b: Book, raw: string)
    requires Readable(b) && StartOf(b, Some(raw)).Refused?
    ensures var reason := StartOf(b, Some(raw)).reason;
      match Parse(raw)
      case Wrong(_) => reason == if |Split(raw)| == 4 then NotNumeric else Malformed
      case Right(parts) =>
        && (reason == OtherGeneration <==> parts.generation != b.header.generation)
        && (reason == NoSuchPosition ==> parts.index >= |b.plan|)
        && (reason == OtherStream ==>
              parts.index < |b.plan| && (parts.stream != if b.plan[parts.index].stderr then 1 else 0))
        && (reason == BeyondRetained ==> parts.index < |b.plan| && parts.offset > |StreamAt(b, parts.index).bytes|)
        && reason != Malformed && reason != NotNumeric
  {
    hide Split;
  }

  /** A cursor to any retained position is accepted and leads back to it. */
  lemma CursorAccepted(b: Book, p: nat, offset: nat)
    requires Readable(b) && p < |b.plan| && offset <= |StreamAt(b, p).bytes|
    ensures StartOf(b, Some(CursorTo(b, p, offset))) == At(p, offset)
  {
    CursorRoundTrip(b.header.generation, p, StreamIndex(b.plan[p]), offset);
  }

  /** A cursor past the retained bytes is refused, whatever made it. */
  lemma CursorRefused(b: Book, p: nat, offset: nat)
    requires Readable(b) && p < |b.plan| && |StreamAt(b, p).bytes| < offset
    ensures StartOf(b, Some(CursorTo(b, p, offset))) == Refused(if offset < TWO64 then BeyondRetained else NotNumeric)
  {
    if offset < TWO64 {
      CursorRoundTrip(b.header.generation, p, StreamIndex(b.plan[p]), offset);
    } else {
      CursorTooLarge(b.header.generation, p, StreamIndex(b.plan[p]), offset);
    }
  }
}

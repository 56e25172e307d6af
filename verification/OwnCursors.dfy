/** When the server accepts the cursors it hands out, for any output (`src/output.rs`):
    offsets are counted in the decoded text but checked against the retained bytes. */
module OwnCursors {
  import opened Plan
  import opened Canonical
  import opened Utf8
  import opened Capture
  import opened PageSize
  import opened PagePlan
  import opened Paging
  import opened Reading
  import Decimal

  /** Bytes that are left to read at a position. */
  function Left(b: Book, start: Start, p: nat): nat
    requires Readable(b) && StartsIn(b, start) && start.index <= p < |b.plan|
  {
    if Begin(start, p) <= |StreamAt(b, p).bytes| then |StreamAt(b, p).bytes| - Begin(start, p) else 0
  }

  /** Some prefix of the text that fits is longer than the bytes left. */
  ghost predicate Overruns(b: Book, start: Start, p: nat, whole: seq<RetrievedTask>)
    requires Readable(b) && StartsIn(b, start) && start.index <= p < |b.plan|
  {
    exists k :: 0 <= k < |Boundaries(TextAt(b, start, p))| && OverrunsAt(b, start, p, whole, k)
  }

  ghost predicate OverrunsAt(b: Book, start: Start, p: nat, whole: seq<RetrievedTask>, k: nat)
    requires Readable(b) && StartsIn(b, start) && start.index <= p < |b.plan| && k < |Boundaries(TextAt(b, start, p))|
  {
    var text := TextAt(b, start, p);
    && Left(b, start, p) < Boundaries(text)[k] <= |text|
    && Fits(b, whole, Whole(b, start, p), p, text[..Boundaries(text)[k]])
  }

  /** The longest prefix that fits is longer than the bytes left exactly when the
      first character boundary beyond them still fits. */
  lemma LongestOverruns(b: Book, start: Start, p: nat, whole: seq<RetrievedTask>, kept: nat)
    requires Readable(b) && StartsIn(b, start) && start.index <= p < |b.plan|
    requires Longest(b, whole, Whole(b, start, p), p, TextAt(b, start, p), kept)
    ensures kept > Left(b, start, p) <==> Overruns(b, start, p, whole)
    ensures forall k :: FirstBeyond(TextAt(b, start, p), Left(b, start, p), k) ==>
      (Overruns(b, start, p, whole) <==> OverrunsAt(b, start, p, whole, k))
  {
    hide Fits, TextAt, StreamAt, Boundaries, Whole, Left;
    var text, left := TextAt(b, start, p), Left(b, start, p);
    var j :| 0 <= j < |Boundaries(text)| && LongestAt(b, whole, Whole(b, start, p), p, text, kept, j);
    BoundariesAscend(text);
    if kept > left { assert OverrunsAt(b, start, p, whole, j); }
    forall k: nat | FirstBeyond(text, left, k) && Overruns(b, start, p, whole) ensures OverrunsAt(b, start, p, whole, k) {
      var i :| 0 <= i < |Boundaries(text)| && OverrunsAt(b, start, p, whole, i);
      var x, y := Boundaries(text)[k], Boundaries(text)[i];
      assert text[..y][..x] == text[..x];
      ShorterFits(b, whole, Whole(b, start, p), p, text[..y], x);
    }
  }

  /** Boundary `k` of a text is the first one beyond `left` bytes. */
  ghost predicate FirstBeyond(text: seq<Byte>, left: nat, k: nat)
    requires WellFormed(text)
  {
    0 < k < |Boundaries(text)| && Boundaries(text)[k - 1] <= left < Boundaries(text)[k]
  }

  /** A page that ends early is refused its own cursor exactly when the first
      character boundary of the decoded text beyond the bytes left fits the budget. */
  lemma OwnCursorAccepted(b: Book, start: Start, stop: nat, kept: nat, whole: seq<RetrievedTask>, page: Page)
    requires Readable(b) && StartsIn(b, start) && PageIs(b, start, stop, kept, whole, page) && stop < |b.plan|
    ensures page.nextCursor.Some? && (StartOf(b, page.nextCursor).At? <==> !Overruns(b, start, stop, whole))
    ensures forall k :: FirstBeyond(TextAt(b, start, stop), Left(b, start, stop), k) ==>
      (StartOf(b, page.nextCursor).At? <==> !OverrunsAt(b, start, stop, whole, k))
  {
    hide Fits, TextAt, StreamAt, SoFar, Shows, Measure, Longest, StartOf, Overruns, OverrunsAt, FirstBeyond;
    PageCursor(b, start, stop, kept, whole, page);
    LongestOverruns(b, start, stop, whole, kept);
    var offset := Begin(start, stop) + kept;
    if offset <= |StreamAt(b, stop).bytes| {
      CursorAccepted(b, stop, offset);
    } else {
      CursorRefused(b, stop, offset);
    }
  }

  // -------------------------------------------------------------------- any budget

  /** The last decoded character starts within the bytes left. */
  ghost predicate LastStartsWithin(b: Book, start: Start, p: nat)
    requires Readable(b) && StartsIn(b, start) && start.index <= p < |b.plan|
  {
    var bounds := Boundaries(TextAt(b, start, p));
    |bounds| < 2 || bounds[|bounds| - 2] <= Left(b, start, p)
  }

  ghost function Budgeted(b: Book, max: nat): Book { b.(max := max) }

  /** With budget `max`, some page from `start` has a cursor that is refused. */
  ghost predicate RefusedUnder(b: Book, start: Start, max: nat, page: Page)
    requires Readable(b) && StartsIn(b, start)
  {
    var b' := Budgeted(b, max);
    && Readable(b') && StartsIn(b', start) && IsPage(b', start, page)
    && page.nextCursor.Some? && StartOf(b', page.nextCursor).Refused?
  }

  lemma BudgetFree(b: Book, start: Start, max: nat, p: nat)
    requires Readable(b) && StartsIn(b, start) && start.index <= p < |b.plan|
    ensures var b' := Budgeted(b, max);
      && Readable(b') && StartsIn(b', start) && TextAt(b', start, p) == TextAt(b, start, p)
      && StreamAt(b', p) == StreamAt(b, p) && Left(b', start, p) == Left(b, start, p)
      && (LastStartsWithin(b', start, p) <==> LastStartsWithin(b, start, p))
  {
    hide Lossy, Boundaries;
  }

  lemma SamePlan(b: Book, max: nat)
    ensures Budgeted(b, max).plan == b.plan
  {
  }

  /** If every last character starts within the bytes left, no budget makes the
      server refuse its own cursor. */
  lemma NeverRefused(b: Book, start: Start, max: nat, page: Page)
    requires Readable(b) && StartsIn(b, start)
    requires forall p :: start.index <= p < |b.plan| ==> LastStartsWithin(b, start, p)
    ensures !RefusedUnder(b, start, max, page)
  {
    hide PageIs, TextAt, StreamAt, Readable, StartOf, LastStartsWithin, Budgeted;
    if RefusedUnder(b, start, max, page) {
      var b' := Budgeted(b, max);
      SamePlan(b, max);
      var stop, kept, whole :| PageIs(b', start, stop, kept, whole, page);
      StopsEarly(b', start, stop, kept, whole, page);
      BudgetFree(b, start, max, stop);
      KeptWithin(b', start, stop, kept, whole, page);
      assert false;
    }
  }

  lemma StopsEarly(b: Book, start: Start, stop: nat, kept: nat, whole: seq<RetrievedTask>, page: Page)
    requires Readable(b) && StartsIn(b, start) && PageIs(b, start, stop, kept, whole, page) && page.nextCursor.Some?
    ensures start.index <= stop < |b.plan|
  {
    hide TextAt, StreamAt, Shows, Measure, SoFar, Longest;
  }

  lemma KeptWithin(b: Book, start: Start, stop: nat, kept: nat, whole: seq<RetrievedTask>, page: Page)
    requires Readable(b) && StartsIn(b, start) && PageIs(b, start, stop, kept, whole, page) && start.index <= stop < |b.plan|
    requires LastStartsWithin(b, start, stop)
    ensures page.nextCursor.Some? && StartOf(b, page.nextCursor).At?
  {
    hide Fits, TextAt, StreamAt, SoFar, Shows, Measure, StartOf, Boundaries, Left;
    OwnCursorAccepted(b, start, stop, kept, whole, page);
    LongestOverruns(b, start, stop, whole, kept);
    var text := TextAt(b, start, stop);
    var j :| 0 <= j < |Boundaries(text)| && LongestAt(b, whole, Whole(b, start, stop), stop, text, kept, j);
    BoundariesAscend(text);
    assert j <= |Boundaries(text)| - 2;
  }

  // ------------------------------------------------------- a budget that is just enough

  /** Nothing to show at a position. */
  predicate Exhausted(b: Book, start: Start, p: nat)
    requires Readable(b) && StartsIn(b, start) && p < |b.plan|
  {
    p < start.index || Begin(start, p) >= |StreamAt(b, p).bytes|
  }

  /** All the text before position `q`, as a page shows it. */
  function AllBefore(b: Book, start: Start, q: nat): seq<RetrievedTask>
    requires Readable(b) && StartsIn(b, start) && q <= |b.plan|
  {
    if q == 0 then []
    else if Exhausted(b, start, q - 1) then AllBefore(b, start, q - 1)
    else SetStream(AllBefore(b, start, q - 1), b.plan[q - 1], StreamFor(TextAt(b, start, q - 1), StreamAt(b, q - 1)))
  }

  /** A slot that shows nothing yet only grows when it is set. */
  lemma {:induction false} SetStreamGrows(tasks: seq<RetrievedTask>, at: Position, s: StreamOutput)
    requires Shown(tasks, at) == None
    ensures ElementsSize(tasks) <= ElementsSize(SetStream(tasks, at, s))
  {
    hide StreamSize, Key, Quoted;
    NullSize(Some(s));
    if tasks != [] && tasks[0].id != at.id {
      SetStreamGrows(tasks[1..], at, s);
      assert SetStream(tasks, at, s)[1..] == SetStream(tasks[1..], at, s);
    } else if tasks != [] {
      assert SetStream(tasks, at, s)[1..] == tasks[1..];
    }
  }

  /** Showing more of a stream makes the page strictly longer. */
  lemma LongerIsLarger(h: Header, tasks: seq<RetrievedTask>, at: Position, content: seq<Byte>, k: nat, c: Captured, returned: nat)
    requires k < |content|
    ensures Measure(h, SetStream(tasks, at, StreamFor(content[..k], c)), returned + k)
          < Measure(h, SetStream(tasks, at, StreamFor(content, c)), returned + |content|)
  {
    hide HeaderSize, ElementsSize, Decimal.Digits, SetStream, StreamFor;
    StreamStrict(content, k, c);
    SetStreamStrict(tasks, at, StreamFor(content[..k], c), StreamFor(content, c));
    Decimal.DigitsMonotone(returned + k, returned + |content|);
  }

  lemma {:induction false} EscapedPositive(bs: seq<Byte>)
    ensures Escaped(bs) >= |bs|
  {
    if bs != [] { EscapedPositive(bs[1..]); }
  }

  lemma StreamStrict(content: seq<Byte>, k: nat, c: Captured)
    requires k < |content|
    ensures StreamSize(Some(StreamFor(content[..k], c))) < StreamSize(Some(StreamFor(content, c)))
  {
    hide Lines, Decimal.Digits, Escaped;
    EscapedAppend(content[..k], content[k..]);
    assert content[..k] + content[k..] == content;
    EscapedPositive(content[k..]);
    LinesMonotone(content, k);
    Decimal.DigitsMonotone(|Lines(content[..k])|, |Lines(content)|);
  }

  lemma {:induction false} SetStreamStrict(tasks: seq<RetrievedTask>, at: Position, s: StreamOutput, s': StreamOutput)
    requires StreamSize(Some(s)) < StreamSize(Some(s'))
    ensures ElementsSize(SetStream(tasks, at, s)) < ElementsSize(SetStream(tasks, at, s'))
  {
    hide StreamSize, Key, Quoted;
    if tasks != [] && tasks[0].id != at.id {
      SetStreamStrict(tasks[1..], at, s, s');
      assert SetStream(tasks, at, s)[1..] == SetStream(tasks[1..], at, s);
      assert SetStream(tasks, at, s')[1..] == SetStream(tasks[1..], at, s');
    } else {
      var rest := if tasks == [] then [] else tasks[1..];
      assert SetStream(tasks, at, s)[1..] == rest && SetStream(tasks, at, s')[1..] == rest;
    }
  }

  /** What is shown so far does not depend on the budget. */
  lemma {:induction false} AllBeforeShows(b: Book, start: Start, q: nat)
    requires Readable(b) && StartsIn(b, start) && q <= |b.plan|
    ensures Shows(b, start, q, 0, AllBefore(b, start, q)) && Listed(b, q, AllBefore(b, start, q))
    ensures AllBefore(b, start, q) == [] <==> Whole(b, start, q) == 0
  {
    hide StreamAt, TextAt, StreamFor, SetStream, Shown, Lossy, Below, Shows, Listed, Exhausted;
    if q == 0 {
      EmptyStep(b, start);
    } else {
      AllBeforeShows(b, start, q - 1);
      if Exhausted(b, start, q - 1) { ShowsOnSkip(b, start, q - 1); } else { ShowsOnTake(b, start, q - 1); }
    }
  }

  lemma ShowsOnSkip(b: Book, start: Start, p: nat)
    requires Readable(b) && StartsIn(b, start) && p < |b.plan| && Exhausted(b, start, p)
    requires Shows(b, start, p, 0, AllBefore(b, start, p)) && Listed(b, p, AllBefore(b, start, p))
    ensures Shows(b, start, p + 1, 0, AllBefore(b, start, p)) && Listed(b, p + 1, AllBefore(b, start, p))
    ensures Whole(b, start, p + 1) == Whole(b, start, p)
  {
    hide StreamAt, TextAt, StreamFor, SetStream, Shown, Lossy, Below, Listed, Exhausted, AllBefore;
    NoTextLeft(b, start, p);
    forall r | 0 <= r < |b.plan| ensures Content(b, start, p + 1, 0, r) == Content(b, start, p, 0, r) {}
    ListedGrows(b, p, AllBefore(b, start, p));
  }

  lemma ShowsOnTake(b: Book, start: Start, p: nat)
    requires Readable(b) && StartsIn(b, start) && p < |b.plan| && !Exhausted(b, start, p)
    requires Shows(b, start, p, 0, AllBefore(b, start, p)) && Listed(b, p, AllBefore(b, start, p))
    ensures var tasks := SetStream(AllBefore(b, start, p), b.plan[p], StreamFor(TextAt(b, start, p), StreamAt(b, p)));
      Shows(b, start, p + 1, 0, tasks) && Listed(b, p + 1, tasks) && tasks != []
    ensures Whole(b, start, p + 1) > 0
  {
    hide StreamAt, TextAt, StreamFor, Shown, Lossy, Below, Listed, AllBefore;
    SomeTextLeft(b, start, p);
    var tasks, text := AllBefore(b, start, p), TextAt(b, start, p);
    assert text[..|text|] == text;
    TakeShows(b, start, p, tasks, |text|);
    ListedSet(b, p, tasks, StreamFor(text, StreamAt(b, p)));
    forall r | 0 <= r < |b.plan| ensures Content(b, start, p, |text|, r) == Content(b, start, p + 1, 0, r) {}
  }

  lemma NoTextLeft(b: Book, start: Start, p: nat)
    requires Readable(b) && StartsIn(b, start) && p < |b.plan| && Exhausted(b, start, p)
    ensures p >= start.index ==> TextAt(b, start, p) == []
  {
    if p >= start.index { assert StreamAt(b, p).bytes[Begin(start, p)..] == []; }
  }

  lemma SomeTextLeft(b: Book, start: Start, p: nat)
    requires Readable(b) && StartsIn(b, start) && p < |b.plan| && !Exhausted(b, start, p)
    ensures TextAt(b, start, p) != []
  {
  }

  lemma {:induction false} AllBeforeFree(b: Book, start: Start, max: nat, q: nat)
    requires Readable(b) && StartsIn(b, start) && q <= |b.plan|
    ensures var b' := Budgeted(b, max);
      && Readable(b') && StartsIn(b', start)
      && AllBefore(b', start, q) == AllBefore(b, start, q) && Whole(b', start, q) == Whole(b, start, q)
  {
    hide SetStream, StreamFor, Lossy;
    if q > 0 { AllBeforeFree(b, start, max, q - 1); }
  }

  /** The page that shows everything before position `q` and all of `q` but its last
      character, with a budget that is just enough for it. */
  ghost function TightPage(b: Book, start: Start, q: nat, kept: nat): Page
    requires Readable(b) && StartsIn(b, start) && start.index <= q < |b.plan| && kept <= |TextAt(b, start, q)|
  {
    var tasks := SetStream(AllBefore(b, start, q), b.plan[q], StreamFor(TextAt(b, start, q)[..kept], StreamAt(b, q)));
    Page(b.header, tasks, Some(CursorTo(b, q, Begin(start, q) + kept)), Whole(b, start, q) + kept, true)
  }

  /** It is the page the walk ends in. */
  lemma TightPageIs(b: Book, start: Start, q: nat, kept: nat)
    requires Readable(b) && StartsIn(b, start) && start.index <= q < |b.plan|
    requires var bounds := Boundaries(TextAt(b, start, q)); |bounds| > 2 && kept == bounds[|bounds| - 2] <= |TextAt(b, start, q)|
    requires b.max == Measure(b.header, TightPage(b, start, q, kept).tasks, Whole(b, start, q) + kept)
    ensures PageIs(b, start, q, kept, AllBefore(b, start, q), TightPage(b, start, q, kept))
  {
    hide StreamAt, TextAt, StreamFor, Shown, Lossy, Measure, Boundaries, AllBefore, Shows, SetStream;
    var text, tasks := TextAt(b, start, q), AllBefore(b, start, q);
    BoundariesAscend(text);
    AllBeforeShows(b, start, q);
    TightSoFar(b, start, q, kept);
    TakeShows(b, start, q, tasks, kept);
    ListedSet(b, q, tasks, StreamFor(text[..kept], StreamAt(b, q)));
    TightLongest(b, start, q, kept);
    StillBytes(b, start, q);
  }

  lemma StillBytes(b: Book, start: Start, q: nat)
    requires Readable(b) && StartsIn(b, start) && start.index <= q < |b.plan| && TextAt(b, start, q) != []
    ensures Begin(start, q) < |StreamAt(b, q).bytes|
  {
    if Exhausted(b, start, q) { NoTextLeft(b, start, q); }
  }

  lemma TightSoFar(b: Book, start: Start, q: nat, kept: nat)
    requires Readable(b) && StartsIn(b, start) && start.index <= q < |b.plan| && kept <= |TextAt(b, start, q)|
    requires b.max == Measure(b.header, TightPage(b, start, q, kept).tasks, Whole(b, start, q) + kept)
    ensures SoFar(b, start, q, AllBefore(b, start, q), Whole(b, start, q))
  {
    hide StreamAt, TextAt, StreamFor, Lossy, Measure, AllBefore, SetStream, ElementsSize;
    AllBeforeShows(b, start, q);
    var tasks := AllBefore(b, start, q);
    var s := StreamFor(TextAt(b, start, q)[..kept], StreamAt(b, q));
    assert Content(b, start, q, 0, q) == [];
    SetStreamGrows(tasks, b.plan[q], s);
    if tasks != [] {
      MeasureMonotone(b.header, tasks, Whole(b, start, q), SetStream(tasks, b.plan[q], s), Whole(b, start, q) + kept);
    }
  }

  lemma TightLongest(b: Book, start: Start, q: nat, kept: nat)
    requires Readable(b) && StartsIn(b, start) && start.index <= q < |b.plan|
    requires var bounds := Boundaries(TextAt(b, start, q)); |bounds| > 2 && kept == bounds[|bounds| - 2] <= |TextAt(b, start, q)|
    requires b.max == Measure(b.header, TightPage(b, start, q, kept).tasks, Whole(b, start, q) + kept)
    ensures Longest(b, AllBefore(b, start, q), Whole(b, start, q), q, TextAt(b, start, q), kept)
  {
    hide StreamAt, TextAt, StreamFor, Lossy, Measure, AllBefore, Whole, SetStream, Boundaries, Longest, Readable, StartsIn;
    AllButLast(b, AllBefore(b, start, q), Whole(b, start, q), q, TextAt(b, start, q), kept);
  }

  /** All but the last character is the longest prefix for the budget it just needs. */
  lemma AllButLast(b: Book, tasks: seq<RetrievedTask>, returned: nat, p: nat, text: seq<Byte>, kept: nat)
    requires Readable(b) && p < |b.plan| && WellFormed(text)
    requires |Boundaries(text)| > 2 && kept == Boundaries(text)[|Boundaries(text)| - 2] <= |text|
    requires b.max == Measure(b.header, SetStream(tasks, b.plan[p], StreamFor(text[..kept], StreamAt(b, p))), returned + kept)
    ensures Longest(b, tasks, returned, p, text, kept)
  {
    hide StreamAt, StreamFor, Measure, SetStream, Boundaries, WellFormed;
    BoundariesAscend(text);
    LongerIsLarger(b.header, tasks, b.plan[p], text, kept, StreamAt(b, p), returned);
    assert text[..|text|] == text;
    assert LongestAt(b, tasks, returned, p, text, kept, |Boundaries(text)| - 2);
  }

  /** If a last character starts beyond the bytes left, some budget makes the server
      refuse its own cursor. */
  lemma SometimesRefused(b: Book, start: Start, q: nat) returns (max: nat, page: Page)
    requires Readable(b) && StartsIn(b, start) && start.index <= q < |b.plan| && !LastStartsWithin(b, start, q)
    ensures RefusedUnder(b, start, max, page)
  {
    hide StreamAt, TextAt, Measure, Boundaries, PageIs, StartOf, AllBefore, Whole, SetStream, StreamFor;
    var text := TextAt(b, start, q);
    BoundariesAscend(text);
    var kept := Boundaries(text)[|Boundaries(text)| - 2];
    max := Measure(b.header, TightPage(b, start, q, kept).tasks, Whole(b, start, q) + kept);
    var b' := Budgeted(b, max);
    BudgetFree(b, start, max, q);
    AllBeforeFree(b, start, max, q);
    page := TightPage(b', start, q, kept);
    TightPageIs(b', start, q, kept);
    CursorRefused(b', q, Begin(start, q) + kept);
  }

  /** No budget makes the server refuse a cursor of its own exactly when, at every
      position still to be read, the last decoded character starts within the bytes left. */
  lemma OwnCursorsAccepted(b: Book, start: Start)
    requires Readable(b) && StartsIn(b, start)
    ensures (forall max, page :: !RefusedUnder(b, start, max, page)) <==>
      (forall p :: start.index <= p < |b.plan| ==> LastStartsWithin(b, start, p))
  {
    hide RefusedUnder, LastStartsWithin;
    if forall p :: start.index <= p < |b.plan| ==> LastStartsWithin(b, start, p) {
      forall max, page ensures !RefusedUnder(b, start, max, page) { NeverRefused(b, start, max, page); }
    } else {
      var q :| start.index <= q < |b.plan| && !LastStartsWithin(b, start, q);
      var max, page := SometimesRefused(b, start, q);
    }
  }

  // ---------------------------------------------------------------- accepted but not exact

  /** A cursor behind `k` decoded characters stands as many bytes behind their source
      as they have grown: no byte is skipped exactly when every ill-formed run among
      them is three bytes long, and then the next page goes on with the very next
      character. */
  lemma CursorSkips(b: Book, start: Start, p: nat, k: nat)
    requires Readable(b) && StartsIn(b, start) && start.index <= p < |b.plan| && k < |Boundaries(TextAt(b, start, p))|
    ensures var source, text := StreamAt(b, p).bytes[Begin(start, p)..], TextAt(b, start, p);
      var kept := Boundaries(text)[k];
      && kept == Decoded(source, k) + Growth(source, k) <= |text|
      && (kept == Decoded(source, k) <==> FullRuns(source, k))
      && (FullRuns(source, k) ==>
            && StartsIn(b, At(p, Begin(start, p) + kept))
            && TextAt(b, At(p, Begin(start, p) + kept), p) == text[kept..])
  {
    hide StreamAt, Boundaries, Decoded, Growth, FullRuns, Lossy, WellFormed;
    var bytes, from := StreamAt(b, p).bytes, Begin(start, p);
    var source := bytes[from..];
    DecodedBoundary(source, k);
    GrowthZero(source, k);
    if FullRuns(source, k) {
      var d := Decoded(source, k);
      assert source[d..] == bytes[from + d..];
    }
  }
}

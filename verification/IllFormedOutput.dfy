/** Why paging needs UTF-8 output: offsets are counted in the decoded text, so a
    cursor can point past the bytes it stands for (`src/output.rs`). */
module IllFormedOutput {
  import opened Plan
  import opened Canonical
  import opened Utf8
  import opened Capture
  import opened Retention
  import opened PageSize
  import opened PagePlan
  import opened Paging
  import opened Reading

  const STRAY: Captured := Captured([0xFF, 0xFF], 2, false)
  const PLACE: Position := Position([0x61], false)

  /** One task whose output is two stray bytes, and a budget for one replacement
      character. */
  function StrayBook(h: Header): Book {
    Book(h, [TaskOutput([0x61], STRAY, Captured([], 0, false))], [PLACE], Measure(h, Showing(REPLACEMENT), 3))
  }

  function Showing(content: seq<Byte>): seq<RetrievedTask> { SetStream([], PLACE, StreamFor(content, STRAY)) }

  lemma StrayReadable(h: Header)
    ensures Readable(StrayBook(h)) && StreamAt(StrayBook(h), 0) == STRAY && StartsIn(StrayBook(h), At(0, 0))
  {
    hide Measure;
    assert FindTask(StrayBook(h).tasks, PLACE.id) == Some(StrayBook(h).tasks[0]);
  }

  lemma StrayText()
    ensures Lossy(STRAY.bytes) == REPLACEMENT + REPLACEMENT
  {
    assert STRAY.bytes[1..] == [0xFF];
    assert Lossy([0xFF]) == REPLACEMENT + Lossy([]);
  }

  lemma StrayBoundaries()
    ensures WellFormed(REPLACEMENT + REPLACEMENT) && Boundaries(REPLACEMENT + REPLACEMENT) == [0, 3, 6]
  {
    var two := REPLACEMENT + REPLACEMENT;
    assert two[3..] == REPLACEMENT && REPLACEMENT[3..] == [];
    assert Boundaries(REPLACEMENT) == [0] + Shifted(Boundaries([]), 3) == [0, 3];
    assert Boundaries(two) == [0] + Shifted(Boundaries(REPLACEMENT), 3);
  }

  lemma ReplacementLines(n: nat)
    requires n == 3 || n == 6
    ensures |Lines((REPLACEMENT + REPLACEMENT)[..n])| == 1
    ensures Escaped((REPLACEMENT + REPLACEMENT)[..n]) == n
  {
    var text := (REPLACEMENT + REPLACEMENT)[..n];
    assert forall i :: 0 <= i < n ==> text[i] >= 0x80;
    PlainLines(text);
    PlainEscaped(text);
  }

  lemma PlainLines(text: seq<Byte>)
    requires text != [] && forall i :: 0 <= i < |text| ==> text[i] >= 0x80
    ensures |Lines(text)| == 1
  {
    assert LineLength(text) == |text|;
  }

  lemma {:induction false} PlainEscaped(text: seq<Byte>)
    requires forall i :: 0 <= i < |text| ==> text[i] >= 0x80
    ensures Escaped(text) == |text|
  {
    if text != [] { PlainEscaped(text[1..]); }
  }

  /** Two replacement characters are over the budget. */
  lemma TwoDoNotFit(h: Header)
    ensures Measure(h, Showing(REPLACEMENT + REPLACEMENT), 6) > Measure(h, Showing(REPLACEMENT), 3)
  {
    hide HeaderSize;
    var two := REPLACEMENT + REPLACEMENT;
    ReplacementLines(3);
    ReplacementLines(6);
    assert two[..3] == REPLACEMENT && two[..6] == two;
    assert Showing(two)[1..] == [] && Showing(REPLACEMENT)[1..] == [];
  }

  /** The first page is then cut after one replacement character, three bytes into
      two bytes of output, and its own cursor is refused. */
  lemma StrayCursorRefused(h: Header, page: Page)
    requires Readable(StrayBook(h)) && StartsIn(StrayBook(h), At(0, 0)) && IsPage(StrayBook(h), At(0, 0), page)
    ensures page.nextCursor.Some? && StartOf(StrayBook(h), page.nextCursor) == Refused(BeyondRetained)
  {
    hide StartOf, PageIs, Measure, StreamAt, Readable;
    var b, start := StrayBook(h), At(0, 0);
    var stop, kept, whole :| PageIs(b, start, stop, kept, whole, page);
    StrayReadable(h);
    StrayStop(h, stop, kept, whole, page);
    PageCursor(b, start, stop, kept, whole, page);
    CursorRefused(b, 0, 3);
  }

  lemma StrayStop(h: Header, stop: nat, kept: nat, whole: seq<RetrievedTask>, page: Page)
    requires Readable(StrayBook(h)) && StartsIn(StrayBook(h), At(0, 0))
    requires PageIs(StrayBook(h), At(0, 0), stop, kept, whole, page)
    ensures stop == 0 && kept == 3
  {
    hide Lossy, Boundaries, WellFormed, Measure, StreamFor, SetStream, StreamAt, Listed, ElementsSize;
    var b, start, two := StrayBook(h), At(0, 0), REPLACEMENT + REPLACEMENT;
    StrayReadable(h);
    StrayText();
    StrayBoundaries();
    assert STRAY.bytes[0..] == STRAY.bytes;
    assert TextAt(b, start, 0) == two;
    TwoDoNotFit(h);
    assert Whole(b, start, 0) == 0;
    assert two[..3] == REPLACEMENT;
    if stop == 1 {
      assert Whole(b, start, 1) == 6;
      assert Shown(whole, PLACE) == ShownAs(b, 0, Content(b, start, 1, 0, 0));
      AloneIsSmaller(whole, PLACE, StreamFor(two, STRAY));
      MeasureMonotone(h, Showing(two), 6, whole, 6);
      assert false;
    } else {
      var k :| 0 <= k < |Boundaries(two)| && LongestAt(b, whole, 0, 0, two, kept, k);
      assert Fits(b, whole, 0, 0, two[..Boundaries(two)[1]]);
      if k == 0 { assert false; }
    }
  }

  // ----------------------------------------------------------------- text that is skipped

  /** One stray byte, then "abc". */
  const SKIPPED: Captured := Captured([0xFF, 0x61, 0x62, 0x63], 4, false)

  function SkippedBook(h: Header, max: nat): Book {
    Book(h, [TaskOutput([0x61], SKIPPED, Captured([], 0, false))], [PLACE], max)
  }

  lemma SkippedReadable(h: Header, max: nat)
    ensures Readable(SkippedBook(h, max)) && StreamAt(SkippedBook(h, max), 0) == SKIPPED
    ensures StartsIn(SkippedBook(h, max), At(0, 0)) && StartsIn(SkippedBook(h, max), At(0, 3))
  {
    assert FindTask(SkippedBook(h, max).tasks, PLACE.id) == Some(SkippedBook(h, max).tasks[0]);
  }

  lemma SkippedDecoding()
    ensures Lossy(SKIPPED.bytes) == REPLACEMENT + [0x61, 0x62, 0x63] && Lossy([0x63]) == [0x63]
    ensures WellFormed(REPLACEMENT + [0x61, 0x62, 0x63]) && Boundaries(REPLACEMENT + [0x61, 0x62, 0x63])[1] == 3
  {
    var abc: seq<Byte> := [0x61, 0x62, 0x63];
    PlainText(abc);
    PlainText([0x63]);
    LossyIdentity([0x63]);
    LossyIdentity(abc);
    assert SKIPPED.bytes[1..] == abc;
    SkippedBoundary(abc);
  }

  lemma {:induction false} PlainText(text: seq<Byte>)
    requires forall i :: 0 <= i < |text| ==> text[i] < 0x80
    ensures WellFormed(text)
  {
    if text != [] { PlainText(text[1..]); }
  }

  lemma SkippedBoundary(rest: seq<Byte>)
    requires WellFormed(rest)
    ensures WellFormed(REPLACEMENT + rest) && Boundaries(REPLACEMENT + rest)[1] == 3
  {
    var text := REPLACEMENT + rest;
    assert text[3..] == rest && HeadLength(text) == 3;
    assert Boundaries(text) == [0] + Shifted(Boundaries(rest), 3);
  }

  /** The cursor behind the replacement character is accepted, but reading goes on at
      "c": "ab" is lost. */
  lemma TextSkipped(h: Header, max: nat)
    ensures Readable(SkippedBook(h, max)) && StartsIn(SkippedBook(h, max), At(0, 0)) && StartsIn(SkippedBook(h, max), At(0, 3))
    ensures var b := SkippedBook(h, max);
      && Boundaries(TextAt(b, At(0, 0), 0))[1] == 3 && TextAt(b, At(0, 0), 0)[3..] == [0x61, 0x62, 0x63]
      && StartOf(b, Some(CursorTo(b, 0, 3))) == At(0, 3) && TextAt(b, At(0, 3), 0) == [0x63]
  {
    SkippedReadable(h, max);
    SkippedDecoding();
    hide Lossy, Boundaries, StreamAt, StartOf, Readable;
    var b := SkippedBook(h, max);
    CursorAccepted(b, 0, 3);
    assert SKIPPED.bytes[0..] == SKIPPED.bytes && SKIPPED.bytes[3..] == [0x63];
  }
}

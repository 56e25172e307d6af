/** Paged retrieval (`OutputRegistry::retrieve_page` of `src/output.rs`): the walk
    over the plan, the search for the longest prefix that fits, and what a client
    that follows the cursors reads. */
module Paging {
  import opened Plan
  import opened Canonical
  import opened Utf8
  import opened Capture
  import opened PageSize
  import opened PagePlan

  // --------------------------------------------------------------------- fitting

  /** Whether the page still fits the budget with `content` shown at position `p`. */
  ghost predicate Fits(b: Book, tasks: seq<RetrievedTask>, returned: nat, p: nat, content: seq<Byte>)
    requires Readable(b) && p < |b.plan|
  {
    Measure(b.header, SetStream(tasks, b.plan[p], StreamFor(content, StreamAt(b, p))), returned + |content|) <= b.max
  }

  /** Measures the page that would result. */
  method Measured(b: Book, tasks: seq<RetrievedTask>, returned: nat, p: nat, content: seq<Byte>) returns (fits: bool)
    requires Readable(b) && p < |b.plan|
    ensures fits <==> Fits(b, tasks, returned, p, content)
  {
    var grown := SetStream(tasks, b.plan[p], StreamFor(content, StreamAt(b, p)));
    fits := Measure(b.header, grown, returned + |content|) <= b.max;
  }

  /** The shorter the content, the sooner it fits. */
  lemma ShorterFits(b: Book, tasks: seq<RetrievedTask>, returned: nat, p: nat, content: seq<Byte>, k: nat)
    requires Readable(b) && p < |b.plan| && k <= |content|
    requires Fits(b, tasks, returned, p, content)
    ensures Fits(b, tasks, returned, p, content[..k])
  {
    hide Measure, StreamFor, StreamSize, SetStream;
    var c := StreamAt(b, p);
    StreamSlice(content, 0, k, c);
    assert content[0..k] == content[..k];
    SetStreamSize(tasks, b.plan[p], StreamFor(content[..k], c), StreamFor(content, c));
    MeasureMonotone(b.header, SetStream(tasks, b.plan[p], StreamFor(content[..k], c)), returned + k,
                    SetStream(tasks, b.plan[p], StreamFor(content, c)), returned + |content|);
  }

  /** `keep` bytes end at the last character boundary of `text` that fits, or at its
      start when not even one character does. */
  ghost predicate Longest(b: Book, tasks: seq<RetrievedTask>, returned: nat, p: nat, text: seq<Byte>, keep: nat)
    requires Readable(b) && p < |b.plan| && WellFormed(text)
  {
    exists k :: 0 <= k < |Boundaries(text)| && LongestAt(b, tasks, returned, p, text, keep, k)
  }

  ghost predicate LongestAt(b: Book, tasks: seq<RetrievedTask>, returned: nat, p: nat, text: seq<Byte>, keep: nat, k: nat)
    requires Readable(b) && p < |b.plan| && WellFormed(text) && k < |Boundaries(text)|
  {
    && keep == Boundaries(text)[k] < |text|
    && (k > 0 ==> Fits(b, tasks, returned, p, text[..keep]))
    && forall j :: k < j < |Boundaries(text)| ==>
         Boundaries(text)[j] <= |text| && !Fits(b, tasks, returned, p, text[..Boundaries(text)[j]])
  }

  lemma LongestFits(b: Book, tasks: seq<RetrievedTask>, returned: nat, p: nat, text: seq<Byte>, keep: nat)
    requires Readable(b) && p < |b.plan| && WellFormed(text) && Longest(b, tasks, returned, p, text, keep)
    ensures keep < |text| && (keep > 0 ==> Fits(b, tasks, returned, p, text[..keep]))
  {
    hide Fits;
  }

  lemma LongerFails(b: Book, tasks: seq<RetrievedTask>, returned: nat, p: nat, text: seq<Byte>, i: nat, j: nat)
    requires Readable(b) && p < |b.plan| && WellFormed(text) && i <= j < |Boundaries(text)|
    requires Boundaries(text)[i] <= |text| && !Fits(b, tasks, returned, p, text[..Boundaries(text)[i]])
    ensures Boundaries(text)[i] <= Boundaries(text)[j] <= |text| && !Fits(b, tasks, returned, p, text[..Boundaries(text)[j]])
  {
    hide Fits, Boundaries;
    BoundariesAscend(text);
    BoundaryInside(text, j);
    var x, y := Boundaries(text)[i], Boundaries(text)[j];
    assert text[..y][..x] == text[..x];
    if Fits(b, tasks, returned, p, text[..y]) { ShorterFits(b, tasks, returned, p, text[..y], x); }
  }

  /** Binary search over the character boundaries. The upper end starts one past
      the last boundary; it is never read because the whole text does not fit. */
  method SearchPrefix(b: Book, tasks: seq<RetrievedTask>, returned: nat, p: nat, text: seq<Byte>) returns (keep: nat)
    requires Readable(b) && p < |b.plan| && WellFormed(text) && text != []
    requires !Fits(b, tasks, returned, p, text)
    ensures Longest(b, tasks, returned, p, text, keep)
  {
    hide Fits;
    hide Boundaries;
    var boundaries := Boundaries(text);
    BoundariesAscend(text);
    ghost var n := |boundaries| - 1;
    assert text[..boundaries[n]] == text;
    var lo, hi := 0, |boundaries|;
    while lo < hi
      invariant 0 <= lo <= hi <= |boundaries| && lo < n
      invariant boundaries[lo] <= |text| && (lo > 0 ==> Fits(b, tasks, returned, p, text[..boundaries[lo]]))
      invariant forall j :: hi < j < |boundaries| ==>
        boundaries[j] <= |text| && !Fits(b, tasks, returned, p, text[..boundaries[j]])
    {
      var mid := (lo + hi + 1) / 2;
      BoundaryInside(text, mid);
      var fits := Measured(b, tasks, returned, p, text[..boundaries[mid]]);
      if fits {
        lo := mid;
      } else {
        forall j | mid <= j < |boundaries|
          ensures boundaries[j] <= |text| && !Fits(b, tasks, returned, p, text[..boundaries[j]])
        {
          LongerFails(b, tasks, returned, p, text, mid, j);
        }
        hi := mid - 1;
      }
    }
    keep := boundaries[lo];
    assert LongestAt(b, tasks, returned, p, text, keep, lo);
  }

  // ------------------------------------------------------------------- page contents

  ghost predicate StartsIn(b: Book, start: Start)
    requires Readable(b)
  {
    start.At? && start.index <= |b.plan| && (start.index < |b.plan| ==> start.offset <= |StreamAt(b, start.index).bytes|)
  }

  function Begin(start: Start, p: nat): nat
    requires start.At?
  {
    if p == start.index then start.offset else 0
  }

  /** The text that remains to be read at a position. */
  function TextAt(b: Book, start: Start, p: nat): (text: seq<Byte>)
    requires Readable(b) && StartsIn(b, start) && p < |b.plan|
    ensures WellFormed(text)
  {
    Lossy(StreamAt(b, p).bytes[Begin(start, p)..])
  }

  /** What a page from `start` to `kept` bytes into position `stop` holds of position `p`. */
  ghost function Content(b: Book, start: Start, stop: nat, kept: nat, p: nat): seq<Byte>
    requires Readable(b) && StartsIn(b, start) && p < |b.plan|
    requires stop < |b.plan| ==> kept <= |TextAt(b, start, stop)|
  {
    if p < start.index || p > stop then []
    else if p < stop then TextAt(b, start, p)
    else TextAt(b, start, p)[..kept]
  }

  ghost predicate Shows(b: Book, start: Start, stop: nat, kept: nat, tasks: seq<RetrievedTask>)
    requires Readable(b) && StartsIn(b, start)
    requires stop < |b.plan| ==> kept <= |TextAt(b, start, stop)|
  {
    forall p :: 0 <= p < |b.plan| ==>
      Shown(tasks, b.plan[p]) == ShownAs(b, p, Content(b, start, stop, kept, p))
  }

  ghost function ShownAs(b: Book, p: nat, content: seq<Byte>): Option<StreamOutput>
    requires Readable(b) && p < |b.plan|
  {
    if content == [] then None else Some(StreamFor(content, StreamAt(b, p)))
  }

  /** Bytes of text at the positions from the start up to `stop`. */
  ghost function Whole(b: Book, start: Start, stop: nat): nat
    requires Readable(b) && StartsIn(b, start) && stop <= |b.plan|
  {
    if stop <= start.index then 0 else Whole(b, start, stop - 1) + |TextAt(b, start, stop - 1)|
  }

  /** Tasks appear in plan order. */
  ghost predicate Listed(b: Book, stop: nat, tasks: seq<RetrievedTask>)
    requires stop <= |b.plan|
  {
    && (forall i, j :: 0 <= i < j < |tasks| ==> Below(tasks[i].id, tasks[j].id))
    && (forall i :: 0 <= i < |tasks| ==> Earlier(b, stop, tasks[i].id))
  }

  ghost predicate Earlier(b: Book, stop: nat, id: Text)
    requires stop <= |b.plan|
  {
    exists p :: 0 <= p < stop && b.plan[p].id == id
  }

  /** A page under construction that has taken all text before position `stop`. */
  ghost predicate SoFar(b: Book, start: Start, stop: nat, tasks: seq<RetrievedTask>, returned: nat)
    requires Readable(b) && StartsIn(b, start) && stop <= |b.plan|
  {
    && Shows(b, start, stop, 0, tasks)
    && returned == Whole(b, start, stop)
    && (tasks == [] <==> returned == 0)
    && (tasks != [] ==> Measure(b.header, tasks, returned) <= b.max)
    && Listed(b, stop, tasks)
  }

  lemma OtherPositions(b: Book, p: nat, q: nat)
    requires Readable(b) && p < |b.plan| && q < |b.plan| && p != q
    ensures b.plan[p] != b.plan[q]
  {
    assert Before(b.plan[p], b.plan[q]) || Before(b.plan[q], b.plan[p]);
  }

  /** The same, for the identities alone. */
  ghost predicate ListedIds(b: Book, stop: nat, ids: seq<Text>)
    requires stop <= |b.plan|
  {
    && (forall i, j :: 0 <= i < j < |ids| ==> Below(ids[i], ids[j]))
    && (forall i :: 0 <= i < |ids| ==> Earlier(b, stop, ids[i]))
  }

  lemma ListedByIds(b: Book, stop: nat, tasks: seq<RetrievedTask>)
    requires stop <= |b.plan|
    ensures Listed(b, stop, tasks) <==> ListedIds(b, stop, Ids(tasks))
  {
    hide Below, Earlier;
    var ids := Ids(tasks);
    if Listed(b, stop, tasks) {
      forall i, j | 0 <= i < j < |ids| ensures Below(ids[i], ids[j]) {
        assert Below(tasks[i].id, tasks[j].id);
      }
    }
    if ListedIds(b, stop, ids) {
      forall i, j | 0 <= i < j < |tasks| ensures Below(tasks[i].id, tasks[j].id) {
        assert Below(ids[i], ids[j]);
      }
      forall i | 0 <= i < |tasks| ensures Earlier(b, stop, tasks[i].id) {
        assert Earlier(b, stop, ids[i]);
      }
    }
  }

  lemma EarlierGrows(b: Book, p: nat, id: Text)
    requires p < |b.plan| && (Earlier(b, p, id) || b.plan[p].id == id)
    ensures Earlier(b, p + 1, id)
  {
  }

  lemma EarlierBelow(b: Book, p: nat, id: Text)
    requires Readable(b) && p < |b.plan| && Earlier(b, p, id)
    ensures id == b.plan[p].id || Below(id, b.plan[p].id)
  {
    var q :| 0 <= q < p && b.plan[q].id == id;
    assert Before(b.plan[q], b.plan[p]);
  }

  lemma IdsGrow(b: Book, p: nat, ids: seq<Text>)
    requires Readable(b) && p < |b.plan| && ListedIds(b, p, ids)
    ensures ListedIds(b, p + 1, ids)
    ensures b.plan[p].id !in ids ==> ListedIds(b, p + 1, ids + [b.plan[p].id])
  {
    hide Below, Earlier, Readable;
    forall i | 0 <= i < |ids| ensures Earlier(b, p + 1, ids[i]) && (ids[i] == b.plan[p].id || Below(ids[i], b.plan[p].id)) {
      EarlierGrows(b, p, ids[i]);
      EarlierBelow(b, p, ids[i]);
    }
    EarlierGrows(b, p, b.plan[p].id);
  }

  lemma ListedSet(b: Book, p: nat, tasks: seq<RetrievedTask>, s: StreamOutput)
    requires Readable(b) && p < |b.plan| && Listed(b, p, tasks)
    ensures Listed(b, p + 1, SetStream(tasks, b.plan[p], s))
  {
    hide SetStream, Listed, ListedIds, Readable;
    ListedByIds(b, p, tasks);
    ListedByIds(b, p + 1, SetStream(tasks, b.plan[p], s));
    IdsSet(tasks, b.plan[p], s);
    IdsGrow(b, p, Ids(tasks));
  }

  lemma ListedGrows(b: Book, p: nat, tasks: seq<RetrievedTask>)
    requires Readable(b) && p < |b.plan| && Listed(b, p, tasks)
    ensures Listed(b, p + 1, tasks)
  {
    hide Listed, ListedIds, Readable;
    ListedByIds(b, p, tasks);
    ListedByIds(b, p + 1, tasks);
    IdsGrow(b, p, Ids(tasks));
  }

  /** Nothing to read at a position. */
  lemma SkipStep(b: Book, start: Start, p: nat, tasks: seq<RetrievedTask>, returned: nat)
    requires Readable(b) && StartsIn(b, start) && p < |b.plan| && SoFar(b, start, p, tasks, returned)
    requires p < start.index || Begin(start, p) >= |StreamAt(b, p).bytes|
    ensures SoFar(b, start, p + 1, tasks, returned)
  {
    hide Shown, StreamFor, Lossy, StreamAt, Measure;
    if p >= start.index { assert StreamAt(b, p).bytes[Begin(start, p)..] == []; }
    forall q | 0 <= q < |b.plan| ensures Content(b, start, p + 1, 0, q) == Content(b, start, p, 0, q) {}
    ListedGrows(b, p, tasks);
  }

  lemma EmptyStep(b: Book, start: Start)
    requires Readable(b) && StartsIn(b, start)
    ensures SoFar(b, start, 0, [], 0)
  {
    hide StreamAt, Lossy;
  }

  /** Taking `keep` bytes of the text at a position. */
  lemma TakeShows(b: Book, start: Start, p: nat, tasks: seq<RetrievedTask>, keep: nat)
    requires Readable(b) && StartsIn(b, start) && start.index <= p < |b.plan|
    requires 0 < keep <= |TextAt(b, start, p)| && Shows(b, start, p, 0, tasks)
    ensures Shows(b, start, p, keep, SetStream(tasks, b.plan[p], StreamFor(TextAt(b, start, p)[..keep], StreamAt(b, p))))
  {
    hide Shown, SetStream, StreamFor, TextAt, StreamAt;
    var s := StreamFor(TextAt(b, start, p)[..keep], StreamAt(b, p));
    forall q | 0 <= q < |b.plan|
      ensures Shown(SetStream(tasks, b.plan[p], s), b.plan[q]) == ShownAs(b, q, Content(b, start, p, keep, q))
    {
      ShownSet(tasks, b.plan[p], s, b.plan[q]);
      if q != p { OtherPositions(b, p, q); }
    }
  }

  /** Taking all the text at a position. */
  lemma TakeStep(b: Book, start: Start, p: nat, tasks: seq<RetrievedTask>, returned: nat)
    requires Readable(b) && StartsIn(b, start) && start.index <= p < |b.plan| && SoFar(b, start, p, tasks, returned)
    requires TextAt(b, start, p) != [] && Fits(b, tasks, returned, p, TextAt(b, start, p))
    ensures SoFar(b, start, p + 1, SetStream(tasks, b.plan[p], StreamFor(TextAt(b, start, p), StreamAt(b, p))),
                  returned + |TextAt(b, start, p)|)
  {
    hide Shown, StreamFor, TextAt, StreamAt, Measure;
    var text := TextAt(b, start, p);
    assert text[..|text|] == text;
    TakeShows(b, start, p, tasks, |text|);
    ListedSet(b, p, tasks, StreamFor(text, StreamAt(b, p)));
    forall q | 0 <= q < |b.plan| ensures Content(b, start, p, |text|, q) == Content(b, start, p + 1, 0, q) {}
  }

  // --------------------------------------------------------------------------- pages

  /** `page` holds the text from `start` to `kept` bytes into position `stop`, in
      order and nothing else; it ends early only where one more character would not
      fit, and then carries a cursor to that place. */
  ghost predicate PageIs(b: Book, start: Start, stop: nat, kept: nat, whole: seq<RetrievedTask>, page: Page)
    requires Readable(b) && StartsIn(b, start)
  {
    && start.index <= stop <= |b.plan|
    && SoFar(b, start, stop, whole, Whole(b, start, stop))
    && page.header == b.header
    && page.truncated == page.nextCursor.Some?
    && page.returned == Whole(b, start, stop) + kept
    && (page.tasks == [] <==> page.returned == 0)
    && (page.tasks != [] ==> Measure(b.header, page.tasks, page.returned) <= b.max)
    && (forall i, j :: 0 <= i < j < |page.tasks| ==> Below(page.tasks[i].id, page.tasks[j].id))
    && (stop == |b.plan| ==> kept == 0 && page.nextCursor == None && page.tasks == whole)
    && (stop < |b.plan| ==> StopsAt(b, start, stop, kept, whole, page))
  }

  ghost predicate StopsAt(b: Book, start: Start, stop: nat, kept: nat, whole: seq<RetrievedTask>, page: Page)
    requires Readable(b) && StartsIn(b, start) && stop < |b.plan|
  {
    && Begin(start, stop) < |StreamAt(b, stop).bytes|
    && Longest(b, whole, Whole(b, start, stop), stop, TextAt(b, start, stop), kept)
    && kept < |TextAt(b, start, stop)|
    && page.nextCursor == Some(CursorTo(b, stop, Begin(start, stop) + kept))
    && Shows(b, start, stop, kept, page.tasks)
  }

  /** Some walk from `start` ends in `page`. */
  ghost predicate IsPage(b: Book, start: Start, page: Page)
    requires Readable(b) && StartsIn(b, start)
  {
    exists stop, kept, whole :: PageIs(b, start, stop, kept, whole, page)
  }

  method Walk(b: Book, start: Start) returns (page: Page)
    requires Readable(b) && StartsIn(b, start)
    ensures IsPage(b, start, page)
  {
    hide Fits, Measure, StreamFor, Lossy, Longest, SetStream, Shows;
    EmptyStep(b, start);
    var tasks: seq<RetrievedTask>, returned: nat := [], 0;
    var p := 0;
    while p < |b.plan|
      invariant 0 <= p <= |b.plan| && SoFar(b, start, p, tasks, returned)
    {
      if p < start.index || Begin(start, p) >= |StreamAt(b, p).bytes| {
        SkipStep(b, start, p, tasks, returned);
      } else {
        var text := Lossy(StreamAt(b, p).bytes[Begin(start, p)..]);
        assert text == TextAt(b, start, p) != [];
        var fits := Measured(b, tasks, returned, p, text);
        if !fits {
          page := Cut(b, start, p, tasks, returned);
          return;
        }
        TakeStep(b, start, p, tasks, returned);
        tasks := SetStream(tasks, b.plan[p], StreamFor(text, StreamAt(b, p)));
        returned := returned + |text|;
      }
      p := p + 1;
    }
    page := Page(b.header, tasks, None, returned, false);
    assert PageIs(b, start, |b.plan|, 0, tasks, page);
  }

  /** The end of a walk at a stream that does not fit as a whole. */
  method Cut(b: Book, start: Start, p: nat, tasks: seq<RetrievedTask>, returned: nat) returns (page: Page)
    requires Readable(b) && StartsIn(b, start) && start.index <= p < |b.plan| && SoFar(b, start, p, tasks, returned)
    requires Begin(start, p) < |StreamAt(b, p).bytes|
    requires TextAt(b, start, p) != [] && !Fits(b, tasks, returned, p, TextAt(b, start, p))
    ensures IsPage(b, start, page)
    ensures exists kept :: PageIs(b, start, p, kept, tasks, page)
  {
    hide Measure, StreamFor, Lossy, SetStream, TextAt, StreamAt, Longest, Shows;
    var text := TextAt(b, start, p);
    var keep := SearchPrefix(b, tasks, returned, p, text);
    LongestFits(b, tasks, returned, p, text, keep);
    var tasks', returned' := tasks, returned;
    if keep > 0 {
      TakeShows(b, start, p, tasks, keep);
      ListedSet(b, p, tasks, StreamFor(text[..keep], StreamAt(b, p)));
      tasks' := SetStream(tasks, b.plan[p], StreamFor(text[..keep], StreamAt(b, p)));
      returned' := returned + keep;
    }
    page := Page(b.header, tasks', Some(CursorTo(b, p, Begin(start, p) + keep)), returned', true);
    assert PageIs(b, start, p, keep, tasks, page);
  }
}

/** Paged retrieval from the registry (`OutputRegistry::retrieve_page` of
    `src/output.rs`) and the client that follows its cursors to the end. */
module Reading {
  import opened Plan
  import opened Canonical
  import opened ConfigSort
  import opened Utf8
  import opened Capture
  import opened Retention
  import opened PageSize
  import opened PagePlan
  import opened Paging

  datatype Retrieval =
    | Paged(page: Page)
    | GenerationNotFound(retained: seq<Word>)
    | TaskNotFound(task: Text, candidates: seq<Text>, ambiguous: bool)
    | InvalidCursor(reason: CursorError)

  function TaskIds(tasks: seq<TaskOutput>): (ids: seq<Text>)
    ensures |ids| == |tasks| && forall i :: 0 <= i < |ids| ==> ids[i] == tasks[i].task
  {
    seq(|tasks|, i requires 0 <= i < |tasks| => tasks[i].task)
  }

  function GenerationIds(gens: seq<GenerationOutput>): (ids: seq<Word>)
    ensures |ids| == |gens| && forall i :: 0 <= i < |ids| ==> ids[i] == gens[i].generation
  {
    seq(|gens|, i requires 0 <= i < |gens| => gens[i].generation)
  }

  /** The task and stream filters and the budget of a request. */
  datatype Request = Request(wanted: Option<Text>, stream: Option<string>, max: nat)

  ghost function BookOf(g: GenerationOutput, request: Request): Book
    requires Resolve(TaskIds(g.tasks), request.wanted).Resolved?
  {
    var r := Resolve(TaskIds(g.tasks), request.wanted);
    Book(Header(g.generation, g.revision, g.revisionHash, r.resolved), g.tasks,
         Positions(Sort(r.ids), request.stream), request.max)
  }

  /** The request means this stream of this retained task. */
  ghost predicate Asks(g: GenerationOutput, request: Request, at: Position) {
    && Chosen(TaskIds(g.tasks), request.wanted, at.id)
    && (request.stream == None || (request.stream == Some("stderr") <==> at.stderr))
  }

  /** What is retained of the named stream of the named task. */
  ghost predicate Kept(tasks: seq<TaskOutput>, at: Position, c: Captured) {
    exists i :: 0 <= i < |tasks| && tasks[i].task == at.id && c == if at.stderr then tasks[i].stderr else tasks[i].stdout
  }

  /** A book lists exactly the streams asked for. */
  lemma PlanExact(g: GenerationOutput, request: Request)
    requires DistinctTasks(g.tasks) && Resolve(TaskIds(g.tasks), request.wanted).Resolved?
    ensures forall at :: at in BookOf(g, request).plan <==> Asks(g, request, at)
  {
    hide Resolve, Sort, Positions, Chosen;
    var ids := Resolve(TaskIds(g.tasks), request.wanted).ids;
    ResolveExact(TaskIds(g.tasks), request.wanted);
    SortSpec(ids);
    forall at ensures at in BookOf(g, request).plan <==> Asks(g, request, at) {
      PositionsMembers(Sort(ids), request.stream, at);
      assert at.id in Sort(ids) <==> at.id in multiset(Sort(ids));
      assert at.id in ids <==> at.id in multiset(ids);
    }
  }

  /** A position of a book reads its own task's own stream, and nothing else. */
  lemma OwnStream(b: Book, p: nat)
    requires Readable(b) && DistinctTasks(b.tasks) && p < |b.plan|
    ensures forall c :: Kept(b.tasks, b.plan[p], c) <==> c == StreamAt(b, p)
  {
    var t := FindTask(b.tasks, b.plan[p].id).value;
    var i :| 0 <= i < |b.tasks| && b.tasks[i] == t;
    forall j | 0 <= j < |b.tasks| && b.tasks[j].task == b.plan[p].id ensures j == i {}
    assert Kept(b.tasks, b.plan[p], StreamAt(b, p));
  }

  // ------------------------------------------------------------------- readable books

  lemma {:induction false} TaskBound(tasks: seq<TaskOutput>, i: nat)
    requires i < |tasks|
    ensures tasks[i].Retained() <= TaskSum(tasks)
  {
    if i > 0 { TaskBound(tasks[1..], i - 1); }
  }

  lemma {:induction false} GenerationBound(gens: seq<GenerationOutput>, i: nat)
    requires i < |gens|
    ensures gens[i].bytes <= Total(gens)
  {
    if i > 0 { GenerationBound(gens[1..], i - 1); }
  }

  lemma ResolvedIds(ids: seq<Text>, wanted: Option<Text>)
    requires Distinct(ids) && Resolve(ids, wanted).Resolved?
    ensures Distinct(Resolve(ids, wanted).ids) && |Resolve(ids, wanted).ids| <= |ids|
    ensures forall x :: x in Resolve(ids, wanted).ids ==> x in ids
  {
    hide Only, Prefixed;
    if wanted.Some? && wanted.value != [] {
      if wanted.value in ids {
        OnlyOne(ids, wanted.value);
      } else {
        var x := Prefixed(ids, wanted.value)[0];
        assert x in Prefixed(ids, wanted.value);
        OnlyOne(ids, x);
      }
    }
  }

  lemma FoundTask(tasks: seq<TaskOutput>, id: Text)
    requires id in TaskIds(tasks)
    ensures FindTask(tasks, id).Some?
  {
    var i :| 0 <= i < |TaskIds(tasks)| && TaskIds(tasks)[i] == id;
    assert tasks[i].task == id;
  }

  /** Any retained generation can be paged through, in order, each stream once. */
  lemma BookReadable(g: GenerationOutput, request: Request)
    requires Accounted(g) && g.bytes <= OUTPUT_RETENTION_BYTES && 2 * |g.tasks| < TWO64
    requires Resolve(TaskIds(g.tasks), request.wanted).Resolved?
    ensures Readable(BookOf(g, request))
  {
    hide Resolve, Sort, Leq;
    var ids := Resolve(TaskIds(g.tasks), request.wanted).ids;
    ResolvedIds(TaskIds(g.tasks), request.wanted);
    SortedDistinct(ids);
    PositionsAscend(Sort(ids), request.stream);
    var b := BookOf(g, request);
    forall p | 0 <= p < |b.plan| ensures FindTask(b.tasks, b.plan[p].id).Some? {
      PositionsMembers(Sort(ids), request.stream, b.plan[p]);
      SortSpec(ids);
      assert b.plan[p].id in multiset(Sort(ids));
      FoundTask(b.tasks, b.plan[p].id);
    }
    forall i | 0 <= i < |b.tasks| ensures b.tasks[i].Retained() < TWO64 { TaskBound(b.tasks, i); }
  }

  // ------------------------------------------------------------------------- retrieval

  method RetrievePage(registry: OutputRegistry, generation: Word, request: Request, cursor: Option<string>) returns (r: Retrieval)
    requires registry.Valid()
    requires forall i :: 0 <= i < |registry.generations| ==> 2 * |registry.generations[i].tasks| < TWO64
    ensures var gens := registry.generations;
      var i := IndexOf(gens, generation);
      if i == |gens| then r == GenerationNotFound(GenerationIds(gens))
      else
        var resolution := Resolve(TaskIds(gens[i].tasks), request.wanted);
        if resolution.Unresolved? then
          request.wanted.Some? && r == TaskNotFound(request.wanted.value, resolution.candidates, resolution.ambiguous)
        else
          var b := BookOf(gens[i], request);
          && Readable(b) && (forall at :: at in b.plan <==> Asks(gens[i], request, at))
          && (StartOf(b, cursor).Refused? ==> r == InvalidCursor(StartOf(b, cursor).reason))
          && (StartOf(b, cursor).At? ==> r.Paged? && StartsIn(b, StartOf(b, cursor)) && IsPage(b, StartOf(b, cursor), r.page))
  {
    hide PageIs, Readable, Total, StartOf;
    var gens := registry.generations;
    var i := IndexOf(gens, generation);
    if i == |gens| { return GenerationNotFound(GenerationIds(gens)); }
    var g := gens[i];
    var resolution := Resolve(TaskIds(g.tasks), request.wanted);
    if resolution.Unresolved? {
      return TaskNotFound(request.wanted.value, resolution.candidates, resolution.ambiguous);
    }
    var plan := BuildPlan(resolution.ids, request.stream);
    var b := Book(Header(g.generation, g.revision, g.revisionHash, resolution.resolved), g.tasks, plan, request.max);
    GenerationBound(gens, i);
    BookReadable(g, request);
    PlanExact(g, request);
    var start := StartOf(b, cursor);
    if start.Refused? { return InvalidCursor(start.reason); }
    var page := Walk(b, start);
    r := Paged(page);
  }

  /** A page with content exceeds the budget by no more than its cursor exceeds
      the six-character placeholder it was measured with. */
  lemma PageWithinBudget(b: Book, start: Start, page: Page)
    requires Readable(b) && StartsIn(b, start) && IsPage(b, start, page) && page.tasks != []
    ensures SerializedSize(page) <=
      b.max + if page.nextCursor.Some? && |page.nextCursor.value| > 6 then |page.nextCursor.value| - 6 else 0
  {
    hide SoFar, StopsAt, Measure;
    var stop, kept, whole :| PageIs(b, start, stop, kept, whole, page);
    SentSize(page, b.max);
  }

  // -------------------------------------------------------------------- reading on

  /** Every stream of the book is UTF-8. */
  ghost predicate AllText(b: Book)
    requires Readable(b)
  {
    forall p :: 0 <= p < |b.plan| ==> WellFormed(StreamAt(b, p).bytes)
  }

  ghost predicate OnBoundary(text: seq<Byte>, offset: nat)
    requires WellFormed(text)
  {
    exists k :: 0 <= k < |Boundaries(text)| && Boundaries(text)[k] == offset
  }

  /** A place between two characters of some stream, or the end of the book. */
  ghost predicate Between(b: Book, at: Start)
    requires Readable(b) && AllText(b)
  {
    at.At? && at.index <= |b.plan| && (at.index < |b.plan| ==> OnBoundary(StreamAt(b, at.index).bytes, at.offset))
  }

  lemma BetweenStarts(b: Book, at: Start)
    requires Readable(b) && AllText(b) && Between(b, at)
    ensures StartsIn(b, at)
  {
    hide StreamAt, WellFormed, Boundaries;
    if at.index < |b.plan| {
      var text := StreamAt(b, at.index).bytes;
      var k :| 0 <= k < |Boundaries(text)| && Boundaries(text)[k] == at.offset;
      BoundaryInside(text, k);
    }
  }

  /** From such a place on, the text shown is the retained bytes themselves. */
  lemma TextIsBytes(b: Book, at: Start, p: nat)
    requires Readable(b) && AllText(b) && Between(b, at) && StartsIn(b, at) && at.index <= p < |b.plan|
    ensures TextAt(b, at, p) == StreamAt(b, p).bytes[Begin(at, p)..]
  {
    hide StreamAt, WellFormed, Boundaries, Lossy;
    var bytes := StreamAt(b, p).bytes;
    if p == at.index {
      var k :| 0 <= k < |Boundaries(bytes)| && Boundaries(bytes)[k] == at.offset;
      CutAtBoundary(bytes, k);
    } else {
      assert bytes[0..] == bytes;
    }
    LossyIdentity(bytes[Begin(at, p)..]);
  }

  /** What has been read of position `p` when reading has come to `at`. */
  ghost function ReadOf(b: Book, at: Start, p: nat): seq<Byte>
    requires Readable(b) && StartsIn(b, at) && p < |b.plan|
  {
    if p < at.index then StreamAt(b, p).bytes
    else if p == at.index then StreamAt(b, p).bytes[..at.offset]
    else []
  }

  /** Where a page leaves off. */
  function EndOf(start: Start, stop: nat, kept: nat): Start
    requires start.At?
  {
    At(stop, Begin(start, stop) + kept)
  }

  lemma EndsBetween(b: Book, start: Start, stop: nat, kept: nat, whole: seq<RetrievedTask>, page: Page)
    requires Readable(b) && AllText(b) && Between(b, start) && StartsIn(b, start)
    requires PageIs(b, start, stop, kept, whole, page)
    ensures Between(b, EndOf(start, stop, kept))
  {
    hide StreamAt, WellFormed, Boundaries, SoFar, Shows, Measure, Fits;
    if stop < |b.plan| {
      TextIsBytes(b, start, stop);
      var bytes, text := StreamAt(b, stop).bytes, TextAt(b, start, stop);
      var j :| 0 <= j < |Boundaries(text)| && LongestAt(b, whole, Whole(b, start, stop), stop, text, kept, j);
      var k :| 0 <= k < |Boundaries(bytes)| && Boundaries(bytes)[k] == Begin(start, stop)
        by { BeginOnBoundary(b, start, stop); }
      CutAtBoundary(bytes, k);
      assert Boundaries(bytes)[k + j] == Boundaries(bytes)[k..][j];
    }
  }

  lemma BeginOnBoundary(b: Book, start: Start, p: nat)
    requires Readable(b) && AllText(b) && Between(b, start) && start.index <= p < |b.plan|
    ensures OnBoundary(StreamAt(b, p).bytes, Begin(start, p))
  {
    hide StreamAt, WellFormed;
    if p != start.index { assert Boundaries(StreamAt(b, p).bytes)[0] == 0; }
  }

  /** The text a page shows at a position. */
  function PageText(page: Page, at: Position): seq<Byte> {
    match Shown(page.tasks, at)
    case Some(s) => s.content
    case None => []
  }

  lemma PageShows(b: Book, start: Start, stop: nat, kept: nat, whole: seq<RetrievedTask>, page: Page)
    requires Readable(b) && StartsIn(b, start) && PageIs(b, start, stop, kept, whole, page)
    ensures stop < |b.plan| ==> kept <= |TextAt(b, start, stop)|
    ensures Shows(b, start, stop, kept, page.tasks)
  {
    hide TextAt, Longest, Measure, Listed, StreamAt;
  }

  /** A page continues each stream exactly where the pages before it left off. */
  lemma PageContinues(b: Book, start: Start, stop: nat, kept: nat, whole: seq<RetrievedTask>, page: Page, p: nat)
    requires Readable(b) && AllText(b) && Between(b, start) && StartsIn(b, start) && p < |b.plan|
    requires PageIs(b, start, stop, kept, whole, page) && StartsIn(b, EndOf(start, stop, kept))
    ensures ReadOf(b, start, p) + PageText(page, b.plan[p]) == ReadOf(b, EndOf(start, stop, kept), p)
  {
    PageTextIs(b, start, stop, kept, whole, page, p);
    hide TextAt, StreamAt, PageText, WellFormed, AllText, Between, SoFar, StopsAt, ReadOf, Content, Below, Measure;
    ContentContinues(b, start, stop, kept, p);
  }

  /** From a place between characters a page takes a slice of each stream. */
  lemma ContentIs(b: Book, start: Start, stop: nat, kept: nat, p: nat)
    requires Readable(b) && AllText(b) && Between(b, start) && StartsIn(b, start) && StartsIn(b, EndOf(start, stop, kept))
    requires start.index <= p <= stop && p < |b.plan|
    requires stop < |b.plan| ==> kept <= |TextAt(b, start, stop)|
    ensures Begin(start, p) <= To(b, start, stop, kept, p) <= |StreamAt(b, p).bytes|
    ensures Content(b, start, stop, kept, p) == StreamAt(b, p).bytes[Begin(start, p)..To(b, start, stop, kept, p)]
  {
    hide TextAt, StreamAt, WellFormed, AllText, Between;
    TextIsBytes(b, start, p);
  }

  ghost function To(b: Book, start: Start, stop: nat, kept: nat, p: nat): nat
    requires Readable(b) && start.At? && p < |b.plan|
  {
    if p == stop then Begin(start, p) + kept else |StreamAt(b, p).bytes|
  }

  lemma ContentContinues(b: Book, start: Start, stop: nat, kept: nat, p: nat)
    requires Readable(b) && AllText(b) && Between(b, start) && StartsIn(b, start) && p < |b.plan|
    requires start.index <= stop && StartsIn(b, EndOf(start, stop, kept))
    requires stop < |b.plan| ==> kept <= |TextAt(b, start, stop)|
    ensures ReadOf(b, start, p) + Content(b, start, stop, kept, p) == ReadOf(b, EndOf(start, stop, kept), p)
  {
    hide TextAt, StreamAt, WellFormed, AllText, Between;
    var bytes := StreamAt(b, p).bytes;
    if start.index <= p <= stop {
      ContentIs(b, start, stop, kept, p);
      var from, to := Begin(start, p), To(b, start, stop, kept, p);
      assert ReadOf(b, start, p) == bytes[..from];
      assert ReadOf(b, EndOf(start, stop, kept), p) == bytes[..to];
      SliceJoin(bytes, from, to);
    }
  }

  lemma TailSlice(bytes: seq<Byte>, from: nat, n: nat)
    requires from + n <= |bytes|
    ensures bytes[from..][..n] == bytes[from..from + n]
  {
  }

  lemma SliceJoin(bytes: seq<Byte>, from: nat, to: nat)
    requires from <= to <= |bytes|
    ensures bytes[..from] + bytes[from..to] == bytes[..to]
  {
  }

  lemma PageTextIs(b: Book, start: Start, stop: nat, kept: nat, whole: seq<RetrievedTask>, page: Page, p: nat)
    requires Readable(b) && StartsIn(b, start) && PageIs(b, start, stop, kept, whole, page) && p < |b.plan|
    ensures stop < |b.plan| ==> kept <= |TextAt(b, start, stop)|
    ensures PageText(page, b.plan[p]) == Content(b, start, stop, kept, p)
  {
    PageShows(b, start, stop, kept, whole, page);
    hide PageIs, Content, TextAt, StreamAt, Shown;
  }

  /** What a page shows of a stream is a piece of the decoded text of the named task's
      own stream, from where the page starts, with the numbers of that stream. */
  lemma PageShowsOwn(b: Book, start: Start, page: Page, p: nat, c: Captured)
    requires Readable(b) && DistinctTasks(b.tasks) && StartsIn(b, start) && IsPage(b, start, page)
    requires p < |b.plan| && Kept(b.tasks, b.plan[p], c)
    ensures Begin(start, p) <= |c.bytes| && PageText(page, b.plan[p]) <= Lossy(c.bytes[Begin(start, p)..])
    ensures var shown := Shown(page.tasks, b.plan[p]);
      shown.Some? ==>
        && shown.value.content == PageText(page, b.plan[p]) != [] && shown.value.lines == |Lines(PageText(page, b.plan[p]))|
        && shown.value.retained == |c.bytes| && shown.value.observed == c.observed && shown.value.truncated == c.truncated
  {
    hide PageIs, Lossy, Lines, Content;
    OwnStream(b, p);
    var stop, kept, whole :| PageIs(b, start, stop, kept, whole, page);
    PageShows(b, start, stop, kept, whole, page);
    PageTextIs(b, start, stop, kept, whole, page, p);
    ContentPrefix(b, start, stop, kept, p);
  }

  lemma ContentPrefix(b: Book, start: Start, stop: nat, kept: nat, p: nat)
    requires Readable(b) && StartsIn(b, start) && p < |b.plan| && (stop < |b.plan| ==> kept <= |TextAt(b, start, stop)|)
    ensures Content(b, start, stop, kept, p) <= TextAt(b, start, p)
  {
    hide TextAt;
  }

  // ---------------------------------------------------------------------- admission

  /** A page holding only character `k` of position `p` fits the budget. */
  ghost predicate AdmitsChar(b: Book, p: nat, k: nat)
    requires Readable(b) && AllText(b) && p < |b.plan| && k + 1 < |Boundaries(StreamAt(b, p).bytes)|
  {
    var bytes := StreamAt(b, p).bytes;
    BoundaryInside(bytes, k);
    Fits(b, [], 0, p, bytes[Boundaries(bytes)[k]..Boundaries(bytes)[k + 1]])
  }

  /** The budget always admits one more character. */
  ghost predicate Admits(b: Book)
    requires Readable(b) && AllText(b)
  {
    forall p, k :: 0 <= p < |b.plan| && 0 <= k && k + 1 < |Boundaries(StreamAt(b, p).bytes)| ==> AdmitsChar(b, p, k)
  }

  /** Every character read so far is admitted. */
  ghost predicate AdmittedTo(b: Book, at: Start)
    requires Readable(b) && AllText(b) && at.At?
  {
    forall p, k :: 0 <= p < |b.plan| && 0 <= k && k + 1 < |Boundaries(StreamAt(b, p).bytes)|
        && (p < at.index || (p == at.index && Boundaries(StreamAt(b, p).bytes)[k + 1] <= at.offset))
      ==> AdmitsChar(b, p, k)
  }

  lemma {:induction false} WholeBound(b: Book, start: Start, stop: nat, p: nat)
    requires Readable(b) && StartsIn(b, start) && start.index <= p < stop <= |b.plan|
    ensures |TextAt(b, start, p)| <= Whole(b, start, stop)
  {
    hide TextAt, StreamAt;
    if p < stop - 1 { WholeBound(b, start, stop - 1, p); }
  }

  lemma ContentBound(b: Book, start: Start, stop: nat, kept: nat, p: nat)
    requires Readable(b) && StartsIn(b, start) && p < |b.plan| && start.index <= stop <= |b.plan|
    requires stop < |b.plan| ==> kept <= |TextAt(b, start, stop)|
    ensures |Content(b, start, stop, kept, p)| <= Whole(b, start, stop) + kept
  {
    hide TextAt, StreamAt;
    if start.index <= p < stop { WholeBound(b, start, stop, p); }
  }

  /** Any part of the text on a fitting page fits alone. */
  lemma PartFits(b: Book, tasks: seq<RetrievedTask>, returned: nat, p: nat, content: seq<Byte>, i: nat, j: nat)
    requires Readable(b) && p < |b.plan| && i <= j <= |content| <= returned
    requires Shown(tasks, b.plan[p]) == Some(StreamFor(content, StreamAt(b, p)))
    requires Measure(b.header, tasks, returned) <= b.max
    ensures Fits(b, [], 0, p, content[i..j])
  {
    hide StreamFor, StreamAt, Measure, StreamSize, ElementsSize, SetStream;
    var c := StreamAt(b, p);
    StreamSlice(content, i, j, c);
    AloneIsSmaller(tasks, b.plan[p], StreamFor(content[i..j], c));
    MeasureMonotone(b.header, SetStream([], b.plan[p], StreamFor(content[i..j], c)), j - i, tasks, returned);
  }

  lemma SlicesAgree(bytes: seq<Byte>, from: nat, to: nat, i: nat, j: nat)
    requires from <= i <= j <= to <= |bytes|
    ensures bytes[from..to][i - from..j - from] == bytes[i..j]
  {
    forall x | 0 <= x < j - i ensures bytes[from..to][i - from..j - from][x] == bytes[i..j][x] {
      assert bytes[from..to][i - from + x] == bytes[i + x];
    }
  }

  /** What a page shows at a position is measured and counted. */
  lemma PageCarries(b: Book, start: Start, stop: nat, kept: nat, whole: seq<RetrievedTask>, page: Page, p: nat)
    requires Readable(b) && StartsIn(b, start) && PageIs(b, start, stop, kept, whole, page) && p < |b.plan|
    ensures stop < |b.plan| ==> kept <= |TextAt(b, start, stop)|
    ensures Content(b, start, stop, kept, p) != [] ==>
      && Shown(page.tasks, b.plan[p]) == Some(StreamFor(Content(b, start, stop, kept, p), StreamAt(b, p)))
      && Measure(b.header, page.tasks, page.returned) <= b.max
      && |Content(b, start, stop, kept, p)| <= page.returned
  {
    PageShows(b, start, stop, kept, whole, page);
    ContentBound(b, start, stop, kept, p);
    hide StreamAt, Measure, StreamFor, SoFar, StopsAt, TextAt, Content, Below;
  }

  lemma CharAdmitted(b: Book, p: nat, k: nat, tasks: seq<RetrievedTask>, returned: nat, from: nat, to: nat)
    requires Readable(b) && AllText(b) && p < |b.plan| && from <= to <= |StreamAt(b, p).bytes| && to - from <= returned
    requires Shown(tasks, b.plan[p]) == Some(StreamFor(StreamAt(b, p).bytes[from..to], StreamAt(b, p)))
    requires Measure(b.header, tasks, returned) <= b.max
    requires k + 1 < |Boundaries(StreamAt(b, p).bytes)|
    requires from <= Boundaries(StreamAt(b, p).bytes)[k] && Boundaries(StreamAt(b, p).bytes)[k + 1] <= to
    ensures AdmitsChar(b, p, k)
  {
    hide StreamAt, Measure, StreamFor, WellFormed, Boundaries, Fits, Shown;
    var bytes := StreamAt(b, p).bytes;
    BoundaryInside(bytes, k);
    var x, y := Boundaries(bytes)[k], Boundaries(bytes)[k + 1];
    SlicesAgree(bytes, from, to, x, y);
    PartFits(b, tasks, returned, p, bytes[from..to], x - from, y - from);
  }

  /** Every character on a page is admitted. */
  lemma PageAdmits(b: Book, start: Start, stop: nat, kept: nat, whole: seq<RetrievedTask>, page: Page, p: nat, k: nat)
    requires Readable(b) && AllText(b) && Between(b, start) && StartsIn(b, start) && StartsIn(b, EndOf(start, stop, kept))
    requires PageIs(b, start, stop, kept, whole, page) && start.index <= p <= stop && p < |b.plan|
    requires k + 1 < |Boundaries(StreamAt(b, p).bytes)|
    requires Begin(start, p) <= Boundaries(StreamAt(b, p).bytes)[k]
    requires p == stop ==> Boundaries(StreamAt(b, p).bytes)[k + 1] <= Begin(start, p) + kept
    ensures AdmitsChar(b, p, k)
  {
    hide StreamAt, Measure, StreamFor, TextAt, WellFormed, Boundaries, Below, Between, Shown;
    hide AdmitsChar, Content, PageIs, Readable;
    PageCarries(b, start, stop, kept, whole, page, p);
    ContentIs(b, start, stop, kept, p);
    BoundaryInside(StreamAt(b, p).bytes, k);
    CharAdmitted(b, p, k, page.tasks, page.returned, Begin(start, p), To(b, start, stop, kept, p));
  }

  lemma NotBefore(text: seq<Byte>, offset: nat, k: nat)
    requires WellFormed(text) && OnBoundary(text, offset) && k + 1 < |Boundaries(text)| && Boundaries(text)[k + 1] > offset
    ensures Boundaries(text)[k] >= offset
  {
    hide WellFormed, Boundaries;
    BoundariesAscend(text);
    var j :| 0 <= j < |Boundaries(text)| && Boundaries(text)[j] == offset;
    assert j <= k;
  }

  lemma AdmittedStep(b: Book, start: Start, stop: nat, kept: nat, whole: seq<RetrievedTask>, page: Page)
    requires Readable(b) && AllText(b) && Between(b, start) && StartsIn(b, start) && StartsIn(b, EndOf(start, stop, kept))
    requires PageIs(b, start, stop, kept, whole, page) && AdmittedTo(b, start)
    ensures AdmittedTo(b, EndOf(start, stop, kept))
  {
    hide StreamAt, WellFormed, Boundaries, AdmitsChar, SoFar, StopsAt, Below, Measure;
    forall p, k | 0 <= p < |b.plan| && 0 <= k && k + 1 < |Boundaries(StreamAt(b, p).bytes)|
        && (p < stop || (p == stop && Boundaries(StreamAt(b, p).bytes)[k + 1] <= Begin(start, stop) + kept))
      ensures AdmitsChar(b, p, k)
    {
      if start.index < p || (start.index == p && Boundaries(StreamAt(b, p).bytes)[k + 1] > start.offset) {
        if p == start.index { NotBefore(StreamAt(b, p).bytes, start.offset, k); }
        PageAdmits(b, start, stop, kept, whole, page, p, k);
      }
    }
  }

  /** A page that ends early without any content proves that the budget does not
      admit the character it stopped at. */
  lemma StuckRefuses(b: Book, start: Start, stop: nat, kept: nat, whole: seq<RetrievedTask>, page: Page)
    requires Readable(b) && AllText(b) && Between(b, start) && StartsIn(b, start)
    requires PageIs(b, start, stop, kept, whole, page) && stop < |b.plan| && page.returned == 0
    ensures !Admits(b)
  {
    hide StreamAt, WellFormed, Boundaries, Shows, Measure, Listed, Fits, Below;
    TextIsBytes(b, start, stop);
    BeginOnBoundary(b, start, stop);
    var bytes, text := StreamAt(b, stop).bytes, TextAt(b, start, stop);
    var k := FirstChar(bytes, Begin(start, stop));
    NothingFits(b, whole, stop, text);
    CharRefused(b, stop, k);
  }

  /** When the longest prefix that fits is empty, the first character does not fit. */
  lemma NothingFits(b: Book, tasks: seq<RetrievedTask>, p: nat, text: seq<Byte>)
    requires Readable(b) && p < |b.plan| && WellFormed(text) && text != [] && Longest(b, tasks, 0, p, text, 0)
    ensures Boundaries(text)[1] <= |text| && !Fits(b, tasks, 0, p, text[..Boundaries(text)[1]])
  {
    hide Fits, Readable, WellFormed;
    var j :| 0 <= j < |Boundaries(text)| && LongestAt(b, tasks, 0, p, text, 0, j);
    BoundariesAscend(text);
    assert j == 0;
  }

  /** The first character of a tail is a character of the whole. */
  lemma FirstChar(bytes: seq<Byte>, from: nat) returns (k: nat)
    requires WellFormed(bytes) && OnBoundary(bytes, from) && from < |bytes|
    ensures k + 1 < |Boundaries(bytes)| && Boundaries(bytes)[k] == from && WellFormed(bytes[from..])
    ensures Boundaries(bytes[from..])[1] <= |bytes| - from && from <= Boundaries(bytes)[k + 1] <= |bytes|
    ensures bytes[from..][..Boundaries(bytes[from..])[1]] == bytes[Boundaries(bytes)[k]..Boundaries(bytes)[k + 1]]
  {
    hide WellFormed, Boundaries;
    k :| 0 <= k < |Boundaries(bytes)| && Boundaries(bytes)[k] == from;
    CutAtBoundary(bytes, k);
    var text := bytes[from..];
    BoundaryInside(text, 0);
    assert |Boundaries(bytes)[k..]| == |Boundaries(text)| >= 2;
    assert Boundaries(bytes)[k + 1] == Boundaries(bytes)[k..][1] == Boundaries(text)[1] + from;
    TailSlice(bytes, from, Boundaries(text)[1]);
  }

  lemma CharRefused(b: Book, p: nat, k: nat)
    requires Readable(b) && AllText(b) && p < |b.plan| && k + 1 < |Boundaries(StreamAt(b, p).bytes)|
    requires !AdmitsChar(b, p, k)
    ensures !Admits(b)
  {
    hide AdmitsChar, StreamAt, Boundaries, WellFormed;
  }

  // ----------------------------------------------------------------------- the client

  /** The request names a retained generation whose wanted streams are all UTF-8. */
  ghost predicate Wanted(registry: OutputRegistry, generation: Word, request: Request)
    reads registry
  {
    var gens := registry.generations;
    var i := IndexOf(gens, generation);
    && i < |gens|
    && Resolve(TaskIds(gens[i].tasks), request.wanted).Resolved?
    && Readable(BookOf(gens[i], request))
    && AllText(BookOf(gens[i], request))
  }

  ghost function WantedBook(registry: OutputRegistry, generation: Word, request: Request): (b: Book)
    requires Wanted(registry, generation, request)
    reads registry
    ensures Readable(b) && AllText(b)
  {
    BookOf(registry.generations[IndexOf(registry.generations, generation)], request)
  }

  ghost predicate Ahead(b: Book, from: Start, to: Start)
    requires Readable(b) && from.At? && to.At?
  {
    from.index < to.index || (from.index == to.index && from.offset < to.offset)
  }

  /** What one page does for a reader who has come to `at`. */
  lemma PageAdvances(b: Book, at: Start, stop: nat, kept: nat, whole: seq<RetrievedTask>, page: Page) returns (end: Start)
    requires Readable(b) && AllText(b) && Between(b, at) && StartsIn(b, at) && AdmittedTo(b, at)
    requires PageIs(b, at, stop, kept, whole, page)
    ensures Between(b, end) && StartsIn(b, end) && AdmittedTo(b, end)
    ensures forall p :: 0 <= p < |b.plan| ==> ReadOf(b, at, p) + PageText(page, b.plan[p]) == ReadOf(b, end, p)
    ensures page.nextCursor == None ==> end.index == |b.plan|
    ensures page.nextCursor.Some? ==>
      && StartOf(b, page.nextCursor) == end && end.index < |b.plan|
      && if page.returned == 0 then !Admits(b) else Ahead(b, at, end)
  {
    hide PageIs, Readable, AllText, Between, AdmittedTo, ReadOf, PageText, StartOf, Admits;
    end := EndOf(at, stop, kept);
    EndsBetween(b, at, stop, kept, whole, page);
    BetweenStarts(b, end);
    AdmittedStep(b, at, stop, kept, whole, page);
    forall p | 0 <= p < |b.plan| ensures ReadOf(b, at, p) + PageText(page, b.plan[p]) == ReadOf(b, end, p) {
      PageContinues(b, at, stop, kept, whole, page, p);
    }
    PageProgress(b, at, stop, kept, whole, page);
  }

  lemma PageProgress(b: Book, at: Start, stop: nat, kept: nat, whole: seq<RetrievedTask>, page: Page)
    requires Readable(b) && AllText(b) && Between(b, at) && StartsIn(b, at) && StartsIn(b, EndOf(at, stop, kept))
    requires PageIs(b, at, stop, kept, whole, page)
    ensures page.nextCursor == None ==> stop == |b.plan|
    ensures page.nextCursor.Some? ==>
      && StartOf(b, page.nextCursor) == EndOf(at, stop, kept) && stop < |b.plan|
      && if page.returned == 0 then !Admits(b) else Ahead(b, at, EndOf(at, stop, kept))
  {
    hide PageIs, StreamAt, Between, Admits, AllText, StartOf, Readable;
    PageCursor(b, at, stop, kept, whole, page);
    if stop < |b.plan| {
      if page.returned == 0 { StuckRefuses(b, at, stop, kept, whole, page); }
      CursorAccepted(b, stop, Begin(at, stop) + kept);
    }
  }

  lemma PageCursor(b: Book, start: Start, stop: nat, kept: nat, whole: seq<RetrievedTask>, page: Page)
    requires Readable(b) && StartsIn(b, start) && PageIs(b, start, stop, kept, whole, page)
    ensures start.index <= stop <= |b.plan| && (stop == start.index ==> page.returned == kept)
    ensures page.nextCursor == if stop == |b.plan| then None else Some(CursorTo(b, stop, Begin(start, stop) + kept))
  {
    hide StreamAt, TextAt, Shows, Measure, SoFar, Below, Longest;
  }

  method NextPage(registry: OutputRegistry, generation: Word, request: Request, cursor: Option<string>, ghost at: Start)
      returns (page: Page, ghost end: Start)
    requires registry.Valid() && Wanted(registry, generation, request)
    requires forall i :: 0 <= i < |registry.generations| ==> 2 * |registry.generations[i].tasks| < TWO64
    requires var b := WantedBook(registry, generation, request);
      StartOf(b, cursor) == at && Between(b, at) && StartsIn(b, at) && AdmittedTo(b, at)
    ensures var b := WantedBook(registry, generation, request);
      && Between(b, end) && StartsIn(b, end) && AdmittedTo(b, end)
      && (forall p :: 0 <= p < |b.plan| ==> ReadOf(b, at, p) + PageText(page, b.plan[p]) == ReadOf(b, end, p))
      && (page.nextCursor == None ==> end.index == |b.plan|)
      && (page.nextCursor.Some? ==>
            && StartOf(b, page.nextCursor) == end && end.index < |b.plan|
            && if page.returned == 0 then !Admits(b) else Ahead(b, at, end))
  {
    hide PageIs, StartOf, Between, AdmittedTo, ReadOf, PageText, Admits, Readable, AllText, Resolve;
    var r := RetrievePage(registry, generation, request, cursor);
    ghost var b := WantedBook(registry, generation, request);
    page := r.page;
    ghost var stop, kept, whole :| PageIs(b, at, stop, kept, whole, page);
    end := PageAdvances(b, at, stop, kept, whole, page);
  }

  ghost function BytesLeft(b: Book, at: Start): nat
    requires Readable(b) && StartsIn(b, at)
  {
    if at.index < |b.plan| then |StreamAt(b, at.index).bytes| - at.offset else 0
  }

  lemma StartBetween(b: Book)
    requires Readable(b) && AllText(b)
    ensures StartOf(b, None) == At(0, 0) && Between(b, At(0, 0)) && StartsIn(b, At(0, 0)) && AdmittedTo(b, At(0, 0))
    ensures forall p :: 0 <= p < |b.plan| ==> ReadOf(b, At(0, 0), p) == []
  {
    hide StreamAt, WellFormed, AdmittedTo, Boundaries;
    if 0 < |b.plan| { assert Boundaries(StreamAt(b, 0).bytes)[0] == 0; }
    NoneAdmitted(b);
  }

  lemma NoneAdmitted(b: Book)
    requires Readable(b) && AllText(b)
    ensures AdmittedTo(b, At(0, 0))
  {
    hide StreamAt, WellFormed, Boundaries, AdmitsChar;
    if 0 < |b.plan| { BoundariesAscend(StreamAt(b, 0).bytes); }
  }

  lemma EndAdmits(b: Book, at: Start)
    requires Readable(b) && AllText(b) && at.At? && at.index == |b.plan| && AdmittedTo(b, at)
    ensures Admits(b)
  {
    hide AdmitsChar, StreamAt, WellFormed, Boundaries;
  }

  /** The generation that a request is about. */
  ghost function Generation(registry: OutputRegistry, generation: Word): GenerationOutput
    requires IndexOf(registry.generations, generation) < |registry.generations|
    reads registry
  {
    registry.generations[IndexOf(registry.generations, generation)]
  }

  /** Follows the cursors from the first page on, and collects what each page shows of
      each stream. The streams are exactly those asked for. Reading gets to the end
      exactly when the budget admits every character, and has then collected each stream
      once and whole; otherwise it stops at an empty page with a prefix of each. */
  method ReadAll(registry: OutputRegistry, generation: Word, request: Request)
      returns (contents: map<Position, seq<Byte>>, complete: bool)
    requires registry.Valid() && Wanted(registry, generation, request)
    requires forall i :: 0 <= i < |registry.generations| ==> 2 * |registry.generations[i].tasks| < TWO64
    ensures forall at :: at in contents <==> Asks(Generation(registry, generation), request, at)
    ensures forall at, c :: at in contents && Kept(Generation(registry, generation).tasks, at, c) ==>
      contents[at] <= c.bytes && (complete ==> contents[at] == c.bytes)
    ensures complete <==> Admits(WantedBook(registry, generation, request))
  {
    hide PageIs, StartOf, Between, AdmittedTo, PageText, Admits, Readable, AllText, Resolve, Sort, Positions, Asks, Kept;
    ghost var b := WantedBook(registry, generation, request);
    var gens := registry.generations;
    var ids := Resolve(TaskIds(gens[IndexOf(gens, generation)].tasks), request.wanted).ids;
    var plan := Positions(Sort(ids), request.stream);
    StartBetween(b);
    contents := map at | at in plan :: [];
    var cursor: Option<string>, done := None, false;
    ghost var at := At(0, 0);
    complete := false;
    while !done
      invariant StartsIn(b, at) && forall x :: x in contents <==> x in plan
      invariant forall p :: 0 <= p < |b.plan| ==> contents[b.plan[p]] == ReadOf(b, at, p)
      invariant !done ==> !complete && StartOf(b, cursor) == at && Between(b, at) && AdmittedTo(b, at)
      invariant done && complete ==> at.index == |b.plan|
      invariant done ==> (complete <==> Admits(b))
      decreases !done, |b.plan| - at.index, BytesLeft(b, at)
    {
      var page, end := NextPage(registry, generation, request, cursor, at);
      contents := map x | x in plan :: contents[x] + PageText(page, x);
      at := end;
      cursor := page.nextCursor;
      if cursor == None {
        done, complete := true, true;
        EndAdmits(b, end);
      } else if page.returned == 0 {
        done := true;
      }
    }
    AllCollected(Generation(registry, generation), request, at, contents);
  }

  /** What has been read of the positions of a book has been read of the streams asked for. */
  lemma AllCollected(g: GenerationOutput, request: Request, at: Start, contents: map<Position, seq<Byte>>)
    requires DistinctTasks(g.tasks) && Resolve(TaskIds(g.tasks), request.wanted).Resolved?
    requires Readable(BookOf(g, request)) && StartsIn(BookOf(g, request), at)
    requires forall x :: x in contents <==> x in BookOf(g, request).plan
    requires var b := BookOf(g, request); forall p :: 0 <= p < |b.plan| ==> contents[b.plan[p]] == ReadOf(b, at, p)
    ensures forall x :: x in contents <==> Asks(g, request, x)
    ensures forall x, c :: x in contents && Kept(g.tasks, x, c) ==>
      contents[x] <= c.bytes && (at.index == |BookOf(g, request).plan| ==> contents[x] == c.bytes)
  {
    hide Resolve, Readable, Kept, Asks, StreamAt;
    var b := BookOf(g, request);
    PlanExact(g, request);
    forall x, c | x in contents && Kept(g.tasks, x, c)
      ensures contents[x] <= c.bytes && (at.index == |b.plan| ==> contents[x] == c.bytes)
    {
      var p :| 0 <= p < |b.plan| && b.plan[p] == x;
      OwnStream(b, p);
    }
  }
}

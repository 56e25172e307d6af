/** The pages of paged retrieval and the exact length of their JSON serialization
    (`src/output.rs`, section 7 of RFC 8259). */
module PageSize {
  import opened Plan
  import opened Canonical
  import opened Capture
  import Decimal

  datatype Position = Position(id: Text, stderr: bool)

  datatype RetrievedTask = RetrievedTask(id: Text, stdout: Option<StreamOutput>, stderr: Option<StreamOutput>)

  /** The fields every page of one retrieval shares. */
  datatype Header = Header(generation: Word, revision: Option<Word>, revisionHash: Option<Text>, resolved: Option<Text>)

  datatype Page = Page(
    header: Header, tasks: seq<RetrievedTask>, nextCursor: Option<string>, returned: nat, truncated: bool)

  // ----------------------------------------------------------------------- sizes

  function EscapedByte(b: Byte): nat {
    if b == 0x22 || b == 0x5C || b == 0x08 || b == 0x09 || b == 0x0A || b == 0x0C || b == 0x0D then 2
    else if b < 0x20 then 6
    else 1
  }

  function Escaped(bs: seq<Byte>): nat {
    if bs == [] then 0 else EscapedByte(bs[0]) + Escaped(bs[1..])
  }

  function Quoted(bs: seq<Byte>): nat { 2 + Escaped(bs) }

  /** A member name with its quotes, its colon and the brace or comma before it. */
  function Key(name: string): nat { |name| + 4 }

  function Number(n: nat): nat { |Decimal.Digits(n)| }

  function Boolean(b: bool): nat { if b then 4 else 5 }

  /** `null` or an object. */
  function StreamSize(s: Option<StreamOutput>): (n: nat)
    ensures n >= 4
  {
    match s
    case None => 4
    case Some(o) =>
      Key("content") + Quoted(o.content) + Key("lines") + Number(o.lines) + Key("retainedBytes") + Number(o.retained)
      + Key("observedBytes") + Number(o.observed) + Key("truncated") + Boolean(o.truncated) + 1
  }

  function TaskSize(t: RetrievedTask): nat {
    Key("id") + Quoted(t.id) + Key("stdout") + StreamSize(t.stdout) + Key("stderr") + StreamSize(t.stderr) + 1
  }

  /** Each element with the comma or bracket after it. */
  function ElementsSize(tasks: seq<RetrievedTask>): nat {
    if tasks == [] then 0 else TaskSize(tasks[0]) + 1 + ElementsSize(tasks[1..])
  }

  function ListSize(tasks: seq<RetrievedTask>): nat {
    if tasks == [] then 2 else 1 + ElementsSize(tasks)
  }

  function HeaderSize(h: Header): nat {
    Key("generation") + Number(h.generation)
    + (if h.revision.Some? then Key("revision") + Number(h.revision.value) else 0)
    + (if h.revisionHash.Some? then Key("revisionHash") + Quoted(h.revisionHash.value) else 0)
    + (if h.resolved.Some? then Key("resolvedTask") + Quoted(h.resolved.value) else 0)
  }

  /** Cursors are made of digits and bars, which JSON does not escape. */
  function SerializedSize(p: Page): nat {
    HeaderSize(p.header) + Key("tasks") + ListSize(p.tasks)
    + (if p.nextCursor.Some? then Key("nextCursor") + 2 + |p.nextCursor.value| else 0)
    + Key("returnedBytes") + Number(p.returned) + Key("truncated") + Boolean(p.truncated) + 1
  }

  /** The size the walk compares with the budget: the cursor is a placeholder. */
  function Measure(h: Header, tasks: seq<RetrievedTask>, returned: nat): nat {
    SerializedSize(Page(h, tasks, Some("cursor"), returned, true))
  }

  /** What the measured size says about the page finally sent. */
  lemma SentSize(p: Page, max: nat)
    requires Measure(p.header, p.tasks, p.returned) <= max && p.truncated == p.nextCursor.Some?
    ensures SerializedSize(p) <= max + if p.nextCursor.Some? && |p.nextCursor.value| > 6 then |p.nextCursor.value| - 6 else 0
  {
    hide HeaderSize, ListSize, Number;
  }

  // --------------------------------------------------------------------- updates

  function With(t: RetrievedTask, stderr: bool, s: StreamOutput): RetrievedTask {
    if stderr then t.(stderr := Some(s)) else t.(stdout := Some(s))
  }

  function SetStream(tasks: seq<RetrievedTask>, at: Position, s: StreamOutput): (r: seq<RetrievedTask>)
    ensures r != []
  {
    if tasks == [] then [With(RetrievedTask(at.id, None, None), at.stderr, s)]
    else if tasks[0].id == at.id then [With(tasks[0], at.stderr, s)] + tasks[1..]
    else [tasks[0]] + SetStream(tasks[1..], at, s)
  }

  /** The stream a page shows at a position. */
  function Shown(tasks: seq<RetrievedTask>, at: Position): Option<StreamOutput> {
    if tasks == [] then None
    else if tasks[0].id == at.id then (if at.stderr then tasks[0].stderr else tasks[0].stdout)
    else Shown(tasks[1..], at)
  }

  lemma {:induction false} ShownSet(tasks: seq<RetrievedTask>, at: Position, s: StreamOutput, other: Position)
    ensures Shown(SetStream(tasks, at, s), other) == if other == at then Some(s) else Shown(tasks, other)
  {
    if tasks == [] || tasks[0].id == at.id {
      assert SetStream(tasks, at, s)[1..] == if tasks == [] then [] else tasks[1..];
    } else {
      ShownSet(tasks[1..], at, s, other);
      assert SetStream(tasks, at, s)[1..] == SetStream(tasks[1..], at, s);
    }
  }

  /** A page lists its tasks in the order in which they were first shown. */
  function Ids(tasks: seq<RetrievedTask>): (ids: seq<Text>)
    ensures |ids| == |tasks| && forall i :: 0 <= i < |ids| ==> ids[i] == tasks[i].id
  {
    seq(|tasks|, i requires 0 <= i < |tasks| => tasks[i].id)
  }

  lemma {:induction false} IdsSet(tasks: seq<RetrievedTask>, at: Position, s: StreamOutput)
    ensures Ids(SetStream(tasks, at, s)) == if at.id in Ids(tasks) then Ids(tasks) else Ids(tasks) + [at.id]
  {
    if tasks != [] {
      assert Ids(tasks) == [tasks[0].id] + Ids(tasks[1..]);
      if tasks[0].id != at.id { IdsSet(tasks[1..], at, s); }
    }
  }

  // -------------------------------------------------------------- monotonicity

  lemma {:induction false} EscapedAppend(a: seq<Byte>, b: seq<Byte>)
    ensures Escaped(a + b) == Escaped(a) + Escaped(b)
  {
    if a == [] {
      assert a + b == b;
    } else {
      EscapedAppend(a[1..], b);
      assert (a + b)[1..] == a[1..] + b;
    }
  }

  lemma EscapedSlice(text: seq<Byte>, i: nat, j: nat)
    requires i <= j <= |text|
    ensures Escaped(text[i..j]) <= Escaped(text)
  {
    assert text == text[..i] + (text[i..j] + text[j..]);
    EscapedAppend(text[..i], text[i..j] + text[j..]);
    EscapedAppend(text[i..j], text[j..]);
  }

  lemma {:induction false} LinesSuffix(text: seq<Byte>, i: nat)
    requires i <= |text|
    ensures |Lines(text[i..])| <= |Lines(text)|
  {
    if i == 0 {
      assert text[0..] == text;
    } else {
      LinesSuffix(text[1..], i - 1);
      assert text[1..][i - 1..] == text[i..];
      var n := LineLength(text);
      if n > 1 && |text| > 1 { assert text[1..][n - 1..] == text[n..]; }
    }
  }

  lemma LinesSlice(text: seq<Byte>, i: nat, j: nat)
    requires i <= j <= |text|
    ensures |Lines(text[i..j])| <= |Lines(text)|
  {
    LinesMonotone(text, j);
    LinesSuffix(text[..j], i);
    assert text[..j][i..] == text[i..j];
  }

  /** A slice of a stream as a page shows it. */
  function StreamFor(content: seq<Byte>, c: Captured): StreamOutput {
    StreamOutput(content, |Lines(content)|, |c.bytes|, c.observed, c.truncated)
  }

  /** Showing less of a stream never makes the page longer. */
  lemma StreamSlice(content: seq<Byte>, i: nat, j: nat, c: Captured)
    requires i <= j <= |content|
    ensures StreamSize(Some(StreamFor(content[i..j], c))) <= StreamSize(Some(StreamFor(content, c)))
  {
    hide Lines, Decimal.Digits, Escaped;
    EscapedSlice(content, i, j);
    LinesSlice(content, i, j);
    Decimal.DigitsMonotone(|Lines(content[i..j])|, |Lines(content)|);
  }

  lemma {:induction false} SetStreamSize(tasks: seq<RetrievedTask>, at: Position, s: StreamOutput, s': StreamOutput)
    requires StreamSize(Some(s)) <= StreamSize(Some(s'))
    ensures ElementsSize(SetStream(tasks, at, s)) <= ElementsSize(SetStream(tasks, at, s'))
  {
    hide StreamSize, Key, Quoted;
    if tasks != [] && tasks[0].id != at.id {
      SetStreamSize(tasks[1..], at, s, s');
      assert SetStream(tasks, at, s)[1..] == SetStream(tasks[1..], at, s);
      assert SetStream(tasks, at, s')[1..] == SetStream(tasks[1..], at, s');
    } else {
      var rest := if tasks == [] then [] else tasks[1..];
      assert SetStream(tasks, at, s)[1..] == rest && SetStream(tasks, at, s')[1..] == rest;
    }
  }

  lemma MeasureMonotone(h: Header, tasks: seq<RetrievedTask>, n: nat, tasks': seq<RetrievedTask>, n': nat)
    requires tasks != [] && tasks' != [] && ElementsSize(tasks) <= ElementsSize(tasks') && n <= n'
    ensures Measure(h, tasks, n) <= Measure(h, tasks', n')
  {
    hide HeaderSize, ElementsSize, Decimal.Digits;
    Decimal.DigitsMonotone(n, n');
  }

  lemma NullSize(s: Option<StreamOutput>)
    ensures StreamSize(None) <= StreamSize(s)
  {
  }

  /** A page that shows a stream is no smaller than one that shows only part of it. */
  lemma {:induction false} AloneIsSmaller(tasks: seq<RetrievedTask>, at: Position, s: StreamOutput)
    requires Shown(tasks, at).Some? && StreamSize(Some(s)) <= StreamSize(Shown(tasks, at))
    ensures ElementsSize(SetStream([], at, s)) <= ElementsSize(tasks)
  {
    hide StreamSize, Key, Quoted;
    var alone := SetStream([], at, s);
    assert ElementsSize(alone) == TaskSize(alone[0]) + 1 by { assert alone[1..] == []; }
    NullSize(tasks[0].stdout);
    NullSize(tasks[0].stderr);
    if tasks[0].id != at.id { AloneIsSmaller(tasks[1..], at, s); }
  }
}

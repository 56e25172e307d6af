/** The JSON text of a page, as `serde_json` writes it (RFC 8259), and the proof that
    the sizes compared with the page budget are its exact lengths. */
module Json {
  import opened Plan
  import opened Canonical
  import opened Capture
  import opened PageSize
  import Decimal

  function HexDigit(d: nat): Byte
    requires d < 16
  {
    if d < 10 then 0x30 + d else 0x57 + d
  }

  /** Section 7: two-character escapes where there is one, `\u00XX` for the other
      control characters, everything else as it is. */
  function EscapeByte(b: Byte): seq<Byte> {
    match b
    case 0x22 => Ascii("\\\"")
    case 0x5C => Ascii("\\\\")
    case 0x08 => Ascii("\\b")
    case 0x09 => Ascii("\\t")
    case 0x0A => Ascii("\\n")
    case 0x0C => Ascii("\\f")
    case 0x0D => Ascii("\\r")
    case _ => if b < 0x20 then Ascii("\\u00") + [HexDigit(b / 16), HexDigit(b % 16)] else [b]
  }

  function Escape(bs: seq<Byte>): seq<Byte> {
    if bs == [] then [] else EscapeByte(bs[0]) + Escape(bs[1..])
  }

  function String(bs: seq<Byte>): seq<Byte> { Ascii("\"") + Escape(bs) + Ascii("\"") }

  function Numeral(n: nat): seq<Byte> { Ascii(Decimal.Digits(n)) }

  function Literal(b: bool): seq<Byte> { Ascii(if b then "true" else "false") }

  /** A member of an object: its name and the text of its value. */
  datatype Member = Member(name: string, value: seq<Byte>)

  function MemberText(m: Member): seq<Byte> { Ascii("\"" + m.name + "\":") + m.value }

  function Members(ms: seq<Member>): seq<Byte> {
    if ms == [] then []
    else if |ms| == 1 then MemberText(ms[0])
    else MemberText(ms[0]) + Ascii(",") + Members(ms[1..])
  }

  function Object(ms: seq<Member>): seq<Byte> { Ascii("{") + Members(ms) + Ascii("}") }

  function Elements(values: seq<seq<Byte>>): seq<Byte> {
    if values == [] then []
    else if |values| == 1 then values[0]
    else values[0] + Ascii(",") + Elements(values[1..])
  }

  function Array(values: seq<seq<Byte>>): seq<Byte> { Ascii("[") + Elements(values) + Ascii("]") }

  /** A member that is left out when it has no value. */
  function Optional<T>(name: string, value: Option<T>, text: T -> seq<Byte>): seq<Member> {
    match value
    case Some(v) => [Member(name, text(v))]
    case None => []
  }

  // ---------------------------------------------------------------------- the page

  function StreamText(s: Option<StreamOutput>): seq<Byte> {
    match s
    case None => Ascii("null")
    case Some(o) =>
      Object([Member("content", String(o.content)), Member("lines", Numeral(o.lines)),
              Member("retainedBytes", Numeral(o.retained)), Member("observedBytes", Numeral(o.observed)),
              Member("truncated", Literal(o.truncated))])
  }

  function TaskText(t: RetrievedTask): seq<Byte> {
    Object([Member("id", String(t.id)), Member("stdout", StreamText(t.stdout)), Member("stderr", StreamText(t.stderr))])
  }

  function TaskTexts(tasks: seq<RetrievedTask>): (r: seq<seq<Byte>>)
    ensures |r| == |tasks| && forall i :: 0 <= i < |r| ==> r[i] == TaskText(tasks[i])
  {
    seq(|tasks|, i requires 0 <= i < |tasks| => TaskText(tasks[i]))
  }

  function HeaderMembers(h: Header): seq<Member> {
    [Member("generation", Numeral(h.generation))]
    + Optional("revision", h.revision, (n: Word) => Numeral(n))
    + Optional("revisionHash", h.revisionHash, (t: Text) => String(t))
    + Optional("resolvedTask", h.resolved, (t: Text) => String(t))
  }

  /** Cursors hold nothing that is escaped, so their text needs no decoding. */
  function PageMembers(p: Page): seq<Member> {
    HeaderMembers(p.header)
    + [Member("tasks", Array(TaskTexts(p.tasks)))]
    + Optional("nextCursor", p.nextCursor, (c: string) => Ascii("\"" + c + "\""))
    + [Member("returnedBytes", Numeral(p.returned)), Member("truncated", Literal(p.truncated))]
  }

  function PageJson(p: Page): seq<Byte> { Object(PageMembers(p)) }

  // ------------------------------------------------------------------------ lengths

  lemma {:induction false} EscapedLength(bs: seq<Byte>)
    ensures |Escape(bs)| == Escaped(bs)
  {
    if bs != [] { EscapedLength(bs[1..]); }
  }

  /** What the members of an object take, with the brace or comma before each. */
  function MemberSum(ms: seq<Member>): nat {
    if ms == [] then 0 else Key(ms[0].name) + |ms[0].value| + MemberSum(ms[1..])
  }

  lemma {:induction false} MembersLength(ms: seq<Member>)
    requires ms != []
    ensures |Object(ms)| == MemberSum(ms) + 1
  {
    hide Ascii;
    if |ms| == 1 {
      assert ms[1..] == [];
    } else {
      MembersLength(ms[1..]);
    }
  }

  lemma {:induction false} MemberSumAppend(a: seq<Member>, b: seq<Member>)
    ensures MemberSum(a + b) == MemberSum(a) + MemberSum(b)
  {
    if a == [] {
      assert a + b == b;
    } else {
      MemberSumAppend(a[1..], b);
      assert (a + b)[1..] == a[1..] + b && (a + b)[0] == a[0];
    }
  }

  lemma OptionalSum<T>(name: string, value: Option<T>, text: T -> seq<Byte>)
    ensures MemberSum(Optional(name, value, text)) == if value.Some? then Key(name) + |text(value.value)| else 0
  {
    if value.Some? { assert Optional(name, value, text)[1..] == []; }
  }

  lemma StreamLength(s: Option<StreamOutput>)
    ensures |StreamText(s)| == StreamSize(s)
  {
    hide Escape, Escaped, Decimal.Digits;
    if s.Some? {
      var o := s.value;
      EscapedLength(o.content);
      var ms := [Member("content", String(o.content)), Member("lines", Numeral(o.lines)),
                 Member("retainedBytes", Numeral(o.retained)), Member("observedBytes", Numeral(o.observed)),
                 Member("truncated", Literal(o.truncated))];
      MembersLength(ms);
      FiveSum(ms);
    }
  }

  lemma FiveSum(ms: seq<Member>)
    requires |ms| == 5
    ensures MemberSum(ms) == Key(ms[0].name) + |ms[0].value| + Key(ms[1].name) + |ms[1].value| + Key(ms[2].name) + |ms[2].value|
      + Key(ms[3].name) + |ms[3].value| + Key(ms[4].name) + |ms[4].value|
  {
    ThreeSum(ms[2..]);
    assert ms[1..][1..] == ms[2..];
  }

  lemma ThreeSum(ms: seq<Member>)
    requires |ms| == 3
    ensures MemberSum(ms) == Key(ms[0].name) + |ms[0].value| + Key(ms[1].name) + |ms[1].value| + Key(ms[2].name) + |ms[2].value|
  {
    TwoSum(ms[1..]);
  }

  lemma TaskLength(t: RetrievedTask)
    ensures |TaskText(t)| == TaskSize(t)
  {
    hide Escape, Escaped, StreamText, StreamSize;
    EscapedLength(t.id);
    StreamLength(t.stdout);
    StreamLength(t.stderr);
    var ms := [Member("id", String(t.id)), Member("stdout", StreamText(t.stdout)), Member("stderr", StreamText(t.stderr))];
    MembersLength(ms);
    ThreeSum(ms);
  }

  lemma {:induction false} TasksLength(tasks: seq<RetrievedTask>)
    ensures |Array(TaskTexts(tasks))| == ListSize(tasks)
  {
    hide TaskText, TaskSize;
    if tasks == [] {
      assert TaskTexts(tasks) == [];
    } else {
      var rest := tasks[1..];
      TaskLength(tasks[0]);
      TasksLength(rest);
      assert TaskTexts(tasks)[1..] == TaskTexts(rest);
    }
  }

  lemma HeaderLength(h: Header)
    ensures MemberSum(HeaderMembers(h)) == HeaderSize(h)
  {
    hide Escape, Escaped, Decimal.Digits;
    var revision := Optional("revision", h.revision, (n: Word) => Numeral(n));
    var hash := Optional("revisionHash", h.revisionHash, (t: Text) => String(t));
    var resolved := Optional("resolvedTask", h.resolved, (t: Text) => String(t));
    var first := [Member("generation", Numeral(h.generation))];
    assert MemberSum(first) == Key("generation") + |Numeral(h.generation)| by { assert first[1..] == []; }
    OptionalSum("revision", h.revision, (n: Word) => Numeral(n));
    OptionalSum("revisionHash", h.revisionHash, (t: Text) => String(t));
    OptionalSum("resolvedTask", h.resolved, (t: Text) => String(t));
    MemberSumAppend(first, revision);
    MemberSumAppend(first + revision, hash);
    MemberSumAppend(first + revision + hash, resolved);
    if h.revisionHash.Some? { EscapedLength(h.revisionHash.value); }
    if h.resolved.Some? { EscapedLength(h.resolved.value); }
  }

  /** The size compared with the budget is the exact length of the JSON text. */
  lemma SizeIsLength(p: Page)
    ensures |PageJson(p)| == SerializedSize(p)
  {
    hide HeaderMembers, HeaderSize, Array, TaskTexts, ListSize, Decimal.Digits;
    var head, tasks := HeaderMembers(p.header), [Member("tasks", Array(TaskTexts(p.tasks)))];
    var cursor := Optional("nextCursor", p.nextCursor, (c: string) => Ascii("\"" + c + "\""));
    var last := [Member("returnedBytes", Numeral(p.returned)), Member("truncated", Literal(p.truncated))];
    HeaderLength(p.header);
    TasksLength(p.tasks);
    OptionalSum("nextCursor", p.nextCursor, (c: string) => Ascii("\"" + c + "\""));
    assert MemberSum(tasks) == Key("tasks") + ListSize(p.tasks) by { assert tasks[1..] == []; }
    TwoSum(last);
    MemberSumAppend(head, tasks);
    MemberSumAppend(head + tasks, cursor);
    MemberSumAppend(head + tasks + cursor, last);
    MembersLength(PageMembers(p));
  }

  lemma TwoSum(ms: seq<Member>)
    requires |ms| == 2
    ensures MemberSum(ms) == Key(ms[0].name) + |ms[0].value| + Key(ms[1].name) + |ms[1].value|
  {
    var rest := ms[1..];
    assert rest[1..] == [];
    assert MemberSum(rest) == Key(rest[0].name) + |rest[0].value| + MemberSum([]);
  }
}

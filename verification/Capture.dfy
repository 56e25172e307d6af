/** Bounded capture of a child's output (`CaptureBuffer` of `src/cmd.rs`) and the
    line arithmetic of its retrieval (`src/output.rs`). */
module Capture {
  import opened Plan
  import opened Canonical
  import opened Utf8

  /** The last `n` elements, all of them when there are fewer. */
  function Suffix<T>(s: seq<T>, n: nat): (r: seq<T>)
    ensures |r| == if |s| < n then |s| else n
  {
    if |s| <= n then s else s[|s| - n..]
  }

  /** Truncating as the input arrives or once at the end makes no difference. */
  lemma SuffixAppend<T>(s: seq<T>, chunk: seq<T>, n: nat)
    ensures Suffix(Suffix(s, n) + chunk, n) == Suffix(s + chunk, n)
  {
  }

  /** A finished capture of one stream. */
  datatype Captured = Captured(bytes: seq<Byte>, observed: nat, truncated: bool)

  /** What capturing `input` with the given bound leaves. */
  ghost function CaptureOf(input: seq<Byte>, bound: nat): Captured {
    Captured(Suffix(input, bound), |input|, |input| > bound)
  }

  /** `input` is everything ever appended. */
  class CaptureBuffer {
    const bound: nat
    var bytes: seq<Byte>
    var observed: nat
    var truncated: bool
    ghost var input: seq<Byte>

    ghost predicate Valid()
      reads this
    {
      Captured(bytes, observed, truncated) == CaptureOf(input, bound)
    }

    constructor (bound: nat)
      ensures Valid() && input == [] && this.bound == bound
    {
      this.bound := bound;
      bytes, observed, truncated := [], 0, false;
      input := [];
    }

    method Append(chunk: seq<Byte>)
      requires Valid()
      modifies this
      ensures Valid() && input == old(input) + chunk
    {
      SuffixAppend(input, chunk, bound);
      observed := observed + |chunk|;
      bytes := bytes + chunk;
      var over := if |bytes| > bound then |bytes| - bound else 0;
      if over > 0 {
        bytes := bytes[over..];
        truncated := true;
      }
      input := input + chunk;
    }

    /** The bytes, sizes and flag that a finished capture hands over. */
    function Data(): (c: Captured)
      requires Valid()
      reads this
      ensures c == CaptureOf(input, bound)
    {
      Captured(bytes, observed, truncated)
    }
  }

  // ---------------------------------------------------------------------- lines

  const NEWLINE: Byte := 10

  /** Length of the first line with its newline. */
  function LineLength(text: seq<Byte>): (n: nat)
    ensures n <= |text| && (text != [] ==> n > 0)
    ensures forall i :: 0 <= i < n - 1 ==> text[i] != NEWLINE
    ensures n < |text| ==> n > 0 && text[n - 1] == NEWLINE
  {
    if text == [] then 0 else if text[0] == NEWLINE then 1 else 1 + LineLength(text[1..])
  }

  /** `split_inclusive('\n')`. */
  function Lines(text: seq<Byte>): (lines: seq<seq<Byte>>)
    ensures lines == [] <==> text == []
    ensures |lines| <= |text|
  {
    if text == [] then [] else [text[..LineLength(text)]] + Lines(text[LineLength(text)..])
  }

  function Unlines(lines: seq<seq<Byte>>): seq<Byte> {
    if lines == [] then [] else lines[0] + Unlines(lines[1..])
  }

  /** The last `n` lines. */
  function TailLines(text: seq<Byte>, n: nat): seq<Byte> { Unlines(Suffix(Lines(text), n)) }

  lemma {:induction false} UnlinesLines(text: seq<Byte>)
    ensures Unlines(Lines(text)) == text
  {
    if text != [] {
      UnlinesLines(text[LineLength(text)..]);
      assert Lines(text)[1..] == Lines(text[LineLength(text)..]);
    }
  }

  /** Dropping leading lines drops a prefix of the text and leaves the other lines alone. */
  lemma {:induction false} DropLines(text: seq<Byte>, k: nat) returns (cut: nat)
    requires k <= |Lines(text)|
    ensures cut <= |text| && Unlines(Lines(text)[k..]) == text[cut..]
    ensures Lines(text[cut..]) == Lines(text)[k..]
  {
    hide LineLength, Unlines;
    if k == 0 {
      cut := 0;
      UnlinesLines(text);
      assert Lines(text)[0..] == Lines(text) && text[0..] == text;
    } else {
      var n, rest := LineLength(text), text[LineLength(text)..];
      var c := DropLines(rest, k - 1);
      assert Lines(text)[k..] == Lines(rest)[k - 1..];
      cut := n + c;
      assert rest[c..] == text[cut..];
    }
  }

  /** A tail is a suffix of the text made of its last lines, as many as asked for
      or all of them. */
  lemma TailIsSuffix(text: seq<Byte>, n: nat) returns (cut: nat)
    ensures cut <= |text| && TailLines(text, n) == text[cut..]
    ensures Lines(TailLines(text, n)) == Suffix(Lines(text), n)
    ensures |Lines(TailLines(text, n))| == if |Lines(text)| < n then |Lines(text)| else n
  {
    var k := if |Lines(text)| <= n then 0 else |Lines(text)| - n;
    cut := DropLines(text, k);
    assert Suffix(Lines(text), n) == Lines(text)[k..];
  }

  lemma {:induction false} LineOfPrefix(text: seq<Byte>, k: nat)
    requires k <= |text|
    ensures LineLength(text[..k]) == if k < LineLength(text) then k else LineLength(text)
  {
    if k > 0 && text[0] != NEWLINE {
      LineOfPrefix(text[1..], k - 1);
      assert text[..k][1..] == text[1..][..k - 1];
    }
  }

  /** A prefix has no more lines than the text. */
  lemma {:induction false} LinesMonotone(text: seq<Byte>, k: nat)
    requires k <= |text|
    ensures |Lines(text[..k])| <= |Lines(text)|
    decreases |text|
  {
    hide Lines, LineLength;
    if k > 0 {
      var n, front := LineLength(text), text[..k];
      LineOfPrefix(text, k);
      LinesStep(text);
      LinesStep(front);
      if k > n {
        LinesMonotone(text[n..], k - n);
        assert front[n..] == text[n..][..k - n];
      } else {
        assert front[k..] == [];
      }
    }
  }

  lemma LinesStep(text: seq<Byte>)
    requires text != []
    ensures |Lines(text)| == 1 + |Lines(text[LineLength(text)..])|
  {
  }

  // ------------------------------------------------------------------ retrieval

  const DEFAULT_RETRIEVAL_TAIL: nat := 40

  datatype StreamOutput = StreamOutput(content: seq<Byte>, lines: nat, retained: nat, observed: nat, truncated: bool)

  /** One stream as a tail or in full. */
  function RenderStream(c: Captured, stream: Option<string>, tail: Option<nat>, full: bool, stderr: bool): Option<StreamOutput> {
    if stream.Some? && stream.value != (if stderr then "stderr" else "stdout") then None
    else
      var text := Lossy(c.bytes);
      var content := if full then text else TailLines(text, if tail.Some? then tail.value else DEFAULT_RETRIEVAL_TAIL);
      Some(StreamOutput(content, |Lines(text)|, |c.bytes|, c.observed, c.truncated))
  }

  /** Retrieval shows the lossy decoding of what was captured, in full or its last
      lines; for UTF-8 output that is the end of everything the child ever wrote,
      after at most three replacement characters where the bound cut a character. */
  lemma RenderedSuffix(input: seq<Byte>, bound: nat, stream: Option<string>, tail: Option<nat>, full: bool, stderr: bool)
      returns (lost: nat, cut: nat)
    ensures var kept := Suffix(input, bound);
      var r := RenderStream(CaptureOf(input, bound), stream, tail, full, stderr);
      && (r.None? <==> stream.Some? && stream != Some(if stderr then "stderr" else "stdout"))
      && lost <= 3 && lost <= |kept| && (lost > 0 ==> |input| > bound)
      && (WellFormed(input) ==> Lossy(kept) == Replacements(lost) + input[|input| - |kept| + lost..])
      && cut <= |Lossy(kept)|
      && (r.Some? ==>
            && r.value.content == Lossy(kept)[cut..] && (full ==> cut == 0)
            && (!full ==> Lines(r.value.content)
                          == Suffix(Lines(Lossy(kept)), if tail.Some? then tail.value else DEFAULT_RETRIEVAL_TAIL))
            && r.value.lines == |Lines(Lossy(kept))| && r.value.retained == |kept| && r.value.observed == |input|
            && (r.value.truncated <==> |input| > bound))
  {
    hide Lossy, WellFormed, Lines, TailLines, Replacements;
    var kept := Suffix(input, bound);
    var skip := |input| - |kept|;
    assert kept == input[skip..];
    lost := 0;
    if WellFormed(input) {
      lost := LossyCut(input, skip);
      if skip == 0 { assert input[0..] == input; }
    }
    cut := 0;
    if full {
      assert Lossy(kept)[0..] == Lossy(kept);
    } else {
      cut := TailIsSuffix(Lossy(kept), if tail.Some? then tail.value else DEFAULT_RETRIEVAL_TAIL);
    }
  }
}

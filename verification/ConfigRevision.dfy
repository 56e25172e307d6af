/** Immutable runtime config revisions (`src/config_revision.rs`): the canonical
    encoding of a config and the tracker that numbers semantic changes. */
module ConfigRevision {
  import opened Plan
  import opened Canonical
  import opened ConfigSort
  import Decimal

  const REVISION_SCHEMA_VERSION: nat := 2

  datatype OutputPolicy = Inherit | Quiet | Capture | ShowOnFailure

  datatype RecoveryPolicy = Prompt | Skip

  /** Milliseconds of any `Duration`. */
  type Millis = n: nat | n < 1_000_000_000_000_000_000_000_000 witness 0

  datatype WatchBackend = Native | Poll(interval: Millis) | Auto

  /** A `BTreeMap` in key order. */
  type Environment = e: seq<(Text, Text)> | KeysAscend(e) witness []

  predicate KeysAscend(e: seq<(Text, Text)>) {
    |e| < TWO64 && forall i, j :: 0 <= i < j < |e| ==> Leq(e[i].0, e[j].0) && e[i].0 != e[j].0
  }

  datatype Rule = Rule(
    name: Text,
    runOnInit: bool,
    parallel: Option<Text>,
    service: bool,
    output: OutputPolicy,
    cwd: Option<Text>,
    change: Texts,
    ignored: Texts,
    commands: Texts,
    recovery: Option<Texts>,
    environment: Environment)

  type Rules = rs: seq<Rule> | |rs| < TWO64 witness []

  /** The frozen effective config. Hooks are given as their debug text. */
  datatype RuntimeConfig = RuntimeConfig(
    root: Text,
    rules: Rules,
    concurrency: Word,
    debounce: Millis,
    backend: WatchBackend,
    respectGitignore: bool,
    recoveryPolicy: RecoveryPolicy,
    hooks: Text,
    sessionHooks: Text,
    controlSocket: Option<Text>)

  // ----------------------------------------------------------------------- tags

  function OutputTag(policy: OutputPolicy): Text {
    match policy
    case Inherit => Ascii("inherit")
    case Quiet => Ascii("quiet")
    case Capture => Ascii("capture")
    case ShowOnFailure => Ascii("show_on_failure")
  }

  function PolicyTag(policy: RecoveryPolicy): Text {
    match policy
    case Prompt => Ascii("prompt")
    case Skip => Ascii("skip")
  }

  function BackendTag(backend: WatchBackend): Text {
    match backend
    case Native => Ascii("native")
    case Poll(interval) =>
      assert |Ascii("poll:" + Decimal.Digits(interval))| < TWO64 by { PollTagShort(interval); }
      Ascii("poll:" + Decimal.Digits(interval))
    case Auto => Ascii("auto")
  }

  lemma PollTagShort(interval: Millis)
    ensures |Decimal.Digits(interval)| <= 24
  {
    assert Decimal.Pow10000(5) == 100_000_000_000_000_000_000 by {
      assert Decimal.Pow10000(1) == 10_000 && Decimal.Pow10000(2) == 100_000_000;
      assert Decimal.Pow10000(3) == 1_000_000_000_000 && Decimal.Pow10000(4) == 10_000_000_000_000_000;
    }
    Decimal.DigitBound(interval, 5);
  }

  lemma OutputTagInjective(a: OutputPolicy, b: OutputPolicy)
    requires OutputTag(a) == OutputTag(b)
    ensures a == b
  {
    assert OutputTag(a)[0] == OutputTag(b)[0];
    assert |OutputTag(Quiet)| == 5 && |OutputTag(Capture)| == 7 && |OutputTag(ShowOnFailure)| == 15;
  }

  lemma PolicyTagInjective(a: RecoveryPolicy, b: RecoveryPolicy)
    requires PolicyTag(a) == PolicyTag(b)
    ensures a == b
  {
    assert PolicyTag(a)[0] == PolicyTag(b)[0];
  }

  // ------------------------------------------------------------------- surfaces

  /** What one rule means to a revision: patterns and commands count without
      their order, recovery commands with it, environment values not at all. */
  datatype RuleSurface = RuleSurface(
    name: Text,
    runOnInit: bool,
    parallel: Option<Text>,
    service: bool,
    output: OutputPolicy,
    cwd: Option<Text>,
    change: multiset<Text>,
    ignored: multiset<Text>,
    commands: multiset<Text>,
    recovery: Option<Texts>,
    keys: set<Text>)

  datatype Surface = Surface(
    root: Text,
    concurrency: Word,
    debounce: Word,
    backend: WatchBackend,
    respectGitignore: bool,
    recoveryPolicy: RecoveryPolicy,
    hooks: Text,
    sessionHooks: Text,
    controlSocket: Option<Text>,
    rules: seq<RuleSurface>)

  /** What decides whether a running service is kept. */
  datatype ServiceSurface = ServiceSurface(
    name: Text, service: bool, output: OutputPolicy, cwd: Option<Text>, commands: multiset<Text>, keys: set<Text>)

  function KeySet(e: seq<(Text, Text)>): set<Text> { set i | 0 <= i < |e| :: e[i].0 }

  function SurfaceOfRule(r: Rule): RuleSurface {
    RuleSurface(r.name, r.runOnInit, r.parallel, r.service, r.output, r.cwd, multiset(r.change),
                multiset(r.ignored), multiset(r.commands), r.recovery, KeySet(r.environment))
  }

  function SurfacesOf(rules: seq<Rule>): (r: seq<RuleSurface>)
    ensures |r| == |rules| && forall i :: 0 <= i < |rules| ==> r[i] == SurfaceOfRule(rules[i])
  {
    seq(|rules|, i requires 0 <= i < |rules| => SurfaceOfRule(rules[i]))
  }

  /** The debounce is truncated to 64 bits. */
  function SurfaceOf(c: RuntimeConfig): Surface {
    Surface(c.root, c.concurrency, c.debounce % TWO64, c.backend, c.respectGitignore, c.recoveryPolicy,
            c.hooks, c.sessionHooks, c.controlSocket, SurfacesOf(c.rules))
  }

  function SurfaceOfService(r: Rule): ServiceSurface {
    ServiceSurface(r.name, r.service, r.output, r.cwd, multiset(r.commands), KeySet(r.environment))
  }

  // ----------------------------------------------------------- canonical records

  function Keys(e: Environment): (ks: Texts)
    ensures |ks| == |e| && forall i :: 0 <= i < |e| ==> ks[i] == e[i].0
  {
    seq(|e|, i requires 0 <= i < |e| => e[i].0)
  }

  function RuleFields(r: Rule): seq<Field> {
    [Str(r.name), Bit(r.runOnInit), OptStr(r.parallel), Bit(r.service), Str(OutputTag(r.output)), OptStr(r.cwd),
     List(Sort(r.change)), List(Sort(r.ignored)), List(Sort(r.commands)), OptList(r.recovery), List(Keys(r.environment))]
  }

  function RuleShapes(): seq<Shape> {
    [StrShape, BitShape, OptStrShape, BitShape, StrShape, OptStrShape,
     ListShape, ListShape, ListShape, OptListShape, ListShape]
  }

  function ConfigFields(c: RuntimeConfig): seq<Field> {
    [Num(REVISION_SCHEMA_VERSION), Str(c.root), Num(c.concurrency), Num(c.debounce % TWO64), Str(BackendTag(c.backend)),
     Bit(c.respectGitignore), Str(PolicyTag(c.recoveryPolicy)), Str(c.hooks), Str(c.sessionHooks),
     OptStr(c.controlSocket), Num(|c.rules|)]
  }

  function ConfigShapes(): seq<Shape> {
    [NumShape, StrShape, NumShape, NumShape, StrShape, BitShape, StrShape, StrShape, StrShape, OptStrShape, NumShape]
  }

  function ServiceFields(r: Rule): seq<Field> {
    [Num(REVISION_SCHEMA_VERSION), Bit(true), Str(r.name), Bit(r.service), Str(OutputTag(r.output)), OptStr(r.cwd),
     List(Sort(r.commands)), List(Sort(Keys(r.environment)))]
  }

  function ServiceShapes(): seq<Shape> {
    [NumShape, BitShape, StrShape, BitShape, StrShape, OptStrShape, ListShape, ListShape]
  }

  function RuleBytes(r: Rule): seq<Byte> { RecordBytes(RuleFields(r)) }

  function RulesBytes(rules: seq<Rule>): seq<Byte> {
    if rules == [] then [] else RuleBytes(rules[0]) + RulesBytes(rules[1..])
  }

  function ConfigBytes(c: RuntimeConfig): seq<Byte> { RecordBytes(ConfigFields(c)) + RulesBytes(c.rules) }

  function ServiceBytes(r: Rule): seq<Byte> { RecordBytes(ServiceFields(r)) }

  // -------------------------------------------------------------------- decoding

  function OutputOf(tag: Text): Option<OutputPolicy> {
    if tag == OutputTag(Inherit) then Some(Inherit)
    else if tag == OutputTag(Quiet) then Some(Quiet)
    else if tag == OutputTag(Capture) then Some(Capture)
    else if tag == OutputTag(ShowOnFailure) then Some(ShowOnFailure)
    else None
  }

  function PolicyOf(tag: Text): Option<RecoveryPolicy> {
    if tag == PolicyTag(Prompt) then Some(Prompt)
    else if tag == PolicyTag(Skip) then Some(Skip)
    else None
  }

  function Chars(bs: seq<Byte>): (s: string)
    ensures |s| == |bs| && forall i :: 0 <= i < |s| ==> s[i] == bs[i] as char
  {
    seq(|bs|, i requires 0 <= i < |bs| => bs[i] as char)
  }

  function BackendOf(tag: Text): Option<WatchBackend> {
    if tag == Ascii("native") then Some(Native)
    else if tag == Ascii("auto") then Some(Auto)
    else if |tag| > 5 && tag[..5] == Ascii("poll:") then
      var digits := Chars(tag[5..]);
      if Decimal.AllDigits(digits) && Decimal.Value(digits) < 1_000_000_000_000_000_000_000_000
      then Some(Poll(Decimal.Value(digits)))
      else None
    else None
  }

  function Elements(xs: seq<Text>): set<Text> { set i | 0 <= i < |xs| :: xs[i] }

  function RuleOf(fs: seq<Field>): Option<RuleSurface>
    requires Shaped(fs, RuleShapes())
  {
    match OutputOf(fs[4].text)
    case None => None
    case Some(output) =>
      Some(RuleSurface(fs[0].text, fs[1].flag, fs[2].optional, fs[3].flag, output, fs[5].optional,
                       multiset(fs[6].texts), multiset(fs[7].texts), multiset(fs[8].texts), fs[9].optionals,
                       Elements(fs[10].texts)))
  }

  function ReadRules(n: nat, bs: seq<Byte>): Read<seq<RuleSurface>> {
    if n == 0 then Got([], bs)
    else match ReadRecord(RuleShapes(), bs)
         case Fail => Fail
         case Got(fs, rest) =>
           match RuleOf(fs)
           case None => Fail
           case Some(rule) =>
             match ReadRules(n - 1, rest)
             case Fail => Fail
             case Got(rules, rest') => Got([rule] + rules, rest')
  }

  function ConfigOf(fs: seq<Field>, rules: seq<RuleSurface>): Option<Surface>
    requires Shaped(fs, ConfigShapes())
  {
    match (BackendOf(fs[4].text), PolicyOf(fs[6].text))
    case (Some(backend), Some(policy)) =>
      Some(Surface(fs[1].text, fs[2].number, fs[3].number, backend, fs[5].flag, policy, fs[7].text, fs[8].text,
                   fs[9].optional, rules))
    case _ => None
  }

  /** Reads a whole canonical config; anything left over is an error. */
  function DecodeConfig(bs: seq<Byte>): Option<Surface> {
    match ReadRecord(ConfigShapes(), bs)
    case Fail => None
    case Got(fs, rest) =>
      if fs[0].number != REVISION_SCHEMA_VERSION then None
      else match ReadRules(fs[10].number, rest)
           case Fail => None
           case Got(rules, rest') => if rest' == [] then ConfigOf(fs, rules) else None
  }

  function DecodeService(bs: seq<Byte>): Option<ServiceSurface> {
    match ReadRecord(ServiceShapes(), bs)
    case Fail => None
    case Got(fs, rest) =>
      if fs[0].number != REVISION_SCHEMA_VERSION || !fs[1].flag || rest != [] then None
      else match OutputOf(fs[4].text)
           case None => None
           case Some(output) =>
             Some(ServiceSurface(fs[2].text, fs[3].flag, output, fs[5].optional, multiset(fs[6].texts), Elements(fs[7].texts)))
  }

  lemma OutputTagRead(p: OutputPolicy)
    ensures OutputOf(OutputTag(p)) == Some(p)
  {
    var q := OutputOf(OutputTag(p));
    if q.Some? { OutputTagInjective(p, q.value); }
  }

  lemma PolicyTagRead(p: RecoveryPolicy)
    ensures PolicyOf(PolicyTag(p)) == Some(p)
  {
    var q := PolicyOf(PolicyTag(p));
    if q.Some? { PolicyTagInjective(p, q.value); }
  }

  lemma TagParts(digits: string)
    requires Decimal.AllDigits(digits)
    ensures Ascii("poll:" + digits)[..5] == Ascii("poll:")
    ensures Chars(Ascii("poll:" + digits)[5..]) == digits
  {
    var tag := Ascii("poll:" + digits);
    forall i | 0 <= i < |digits| ensures Chars(tag[5..])[i] == digits[i] {
      assert tag[5..][i] == ("poll:" + digits)[5 + i] as int % 256;
      assert Decimal.IsDigit(digits[i]);
    }
  }

  lemma PollTagRead(interval: Millis)
    ensures BackendOf(BackendTag(Poll(interval))) == Some(Poll(interval))
  {
    hide Decimal.Digits, Decimal.Value;
    var digits := Decimal.Digits(interval);
    var tag := BackendTag(Poll(interval));
    assert tag == Ascii("poll:" + digits);
    TagParts(digits);
    Decimal.ValueOfDigits(interval);
    assert tag[0] == 'p' as int && Ascii("native")[0] == 'n' as int && Ascii("auto")[0] == 'a' as int;
  }

  lemma BackendTagRead(b: WatchBackend)
    ensures BackendOf(BackendTag(b)) == Some(b)
  {
    match b
    case Poll(interval) => PollTagRead(interval);
    case Native =>
    case Auto =>
      assert Ascii("auto")[0] != Ascii("native")[0];
  }

  lemma SortElements(xs: seq<Text>)
    ensures Elements(Sort(xs)) == Elements(xs)
  {
    SortSpec(xs);
    forall x ensures x in Elements(Sort(xs)) <==> x in Elements(xs) {
      assert x in Sort(xs) <==> x in multiset(Sort(xs));
      assert x in xs <==> x in multiset(xs);
    }
  }

  lemma KeysElements(e: Environment)
    ensures Elements(Keys(e)) == KeySet(e)
  {
    assert forall i :: 0 <= i < |e| ==> Keys(e)[i] == e[i].0;
    forall x ensures x in Elements(Keys(e)) <==> x in KeySet(e) {
      if x in Elements(Keys(e)) {
        var i :| 0 <= i < |Keys(e)| && Keys(e)[i] == x;
        assert e[i].0 == x;
      }
      if x in KeySet(e) {
        var i :| 0 <= i < |e| && e[i].0 == x;
        assert Keys(e)[i] == x;
      }
    }
  }

  lemma RuleFieldsFit(r: Rule)
    ensures Shaped(RuleFields(r), RuleShapes())
  {
    hide Sort, Keys, OutputTag;
  }

  lemma RuleRead(r: Rule)
    ensures Shaped(RuleFields(r), RuleShapes()) && RuleOf(RuleFields(r)) == Some(SurfaceOfRule(r))
  {
    hide Sort, Keys, OutputTag, OutputOf, KeySet, Elements;
    RuleFieldsFit(r);
    OutputTagRead(r.output);
    SortSpec(r.change);
    SortSpec(r.ignored);
    SortSpec(r.commands);
    KeysElements(r.environment);
    assert RuleFields(r)[4].text == OutputTag(r.output);
    assert RuleOf(RuleFields(r)).Some?;
  }

  lemma {:induction false} RulesRead(rules: seq<Rule>, rest: seq<Byte>)
    ensures ReadRules(|rules|, RulesBytes(rules) + rest) == Got(SurfacesOf(rules), rest)
  {
    hide RecordBytes, ReadRecord, RuleFields, RuleOf, SurfaceOfRule;
    if rules == [] {
      assert RulesBytes(rules) + rest == rest;
    } else {
      var tail := RulesBytes(rules[1..]) + rest;
      assert RulesBytes(rules) + rest == RuleBytes(rules[0]) + tail;
      RuleRead(rules[0]);
      ReadsRecord(RuleFields(rules[0]), RuleShapes(), tail);
      RulesRead(rules[1..], rest);
      assert SurfacesOf(rules) == [SurfaceOfRule(rules[0])] + SurfacesOf(rules[1..]);
    }
  }

  lemma FieldsRead(c: RuntimeConfig)
    ensures Shaped(ConfigFields(c), ConfigShapes())
    ensures ConfigOf(ConfigFields(c), SurfacesOf(c.rules)) == Some(SurfaceOf(c))
  {
    hide BackendTag, BackendOf, PolicyTag, PolicyOf;
    BackendTagRead(c.backend);
    PolicyTagRead(c.recoveryPolicy);
  }

  /** The encoding is unambiguous: a decoder recovers the whole semantic surface
      of the config from its canonical bytes. */
  lemma ConfigRoundTrip(c: RuntimeConfig)
    ensures DecodeConfig(ConfigBytes(c)) == Some(SurfaceOf(c))
  {
    hide RecordBytes, ReadRecord, ConfigOf, SurfaceOf, ReadRules, RulesBytes;
    FieldsRead(c);
    var fs := ConfigFields(c);
    assert fs[0] == Num(REVISION_SCHEMA_VERSION) && fs[10] == Num(|c.rules|);
    ReadsRecord(fs, ConfigShapes(), RulesBytes(c.rules));
    RulesRead(c.rules, []);
    assert RulesBytes(c.rules) + [] == RulesBytes(c.rules);
  }

  lemma ServiceFieldsFit(r: Rule)
    ensures Shaped(ServiceFields(r), ServiceShapes())
  {
  }

  lemma ServiceRoundTrip(r: Rule)
    ensures DecodeService(ServiceBytes(r)) == Some(SurfaceOfService(r))
  {
    hide RecordBytes, ReadRecord, OutputTag, OutputOf, Sort, Keys;
    ServiceFieldsFit(r);
    ReadsRecord(ServiceFields(r), ServiceShapes(), []);
    assert RecordBytes(ServiceFields(r)) + [] == RecordBytes(ServiceFields(r));
    OutputTagRead(r.output);
    SortSpec(r.commands);
    SortElements(Keys(r.environment));
    KeysElements(r.environment);
  }

  // ---------------------------------------------------------------- completeness

  lemma AscendingIsSet(e: Environment)
    ensures multiset(Keys(e)) == multiset(KeySet(e)) && Sorted(Keys(e))
  {
    var ks := Keys(e);
    assert forall i, j :: 0 <= i < j < |ks| ==> ks[i] != ks[j];
    KeysElements(e);
    DistinctMultiset(ks);
  }

  lemma {:induction false} DistinctMultiset(ks: seq<Text>)
    requires forall i, j :: 0 <= i < j < |ks| ==> ks[i] != ks[j]
    ensures multiset(ks) == multiset(Elements(ks))
  {
    if ks != [] {
      DistinctMultiset(ks[1..]);
      assert ks == [ks[0]] + ks[1..];
      assert ks[0] !in Elements(ks[1..]);
      forall x ensures x in Elements(ks) <==> x in {ks[0]} + Elements(ks[1..]) {
        if x in Elements(ks[1..]) {
          var i :| 0 <= i < |ks[1..]| && ks[1..][i] == x;
          assert ks[i + 1] == x;
        }
      }
      assert Elements(ks) == {ks[0]} + Elements(ks[1..]);
    }
  }

  lemma EqualKeys(a: Environment, b: Environment)
    requires KeySet(a) == KeySet(b)
    ensures Keys(a) == Keys(b)
  {
    AscendingIsSet(a);
    AscendingIsSet(b);
    SortedUnique(Keys(a), Keys(b));
  }

  lemma EqualRules(a: Rule, b: Rule)
    requires SurfaceOfRule(a) == SurfaceOfRule(b)
    ensures RuleBytes(a) == RuleBytes(b)
  {
    SortEqual(a.change, b.change);
    SortEqual(a.ignored, b.ignored);
    SortEqual(a.commands, b.commands);
    EqualKeys(a.environment, b.environment);
  }

  lemma {:induction false} EqualRuleLists(a: seq<Rule>, b: seq<Rule>)
    requires SurfacesOf(a) == SurfacesOf(b)
    ensures RulesBytes(a) == RulesBytes(b)
  {
    assert |a| == |SurfacesOf(a)| && |b| == |SurfacesOf(b)|;
    if a != [] {
      assert SurfacesOf(a)[0] == SurfacesOf(b)[0];
      EqualRules(a[0], b[0]);
      assert SurfacesOf(a[1..]) == SurfacesOf(a)[1..] && SurfacesOf(b[1..]) == SurfacesOf(b)[1..];
      EqualRuleLists(a[1..], b[1..]);
    }
  }

  /** Canonical bytes coincide exactly when the semantic surfaces do. */
  lemma BytesDecideSurface(a: RuntimeConfig, b: RuntimeConfig)
    ensures ConfigBytes(a) == ConfigBytes(b) <==> SurfaceOf(a) == SurfaceOf(b)
  {
    ConfigRoundTrip(a);
    ConfigRoundTrip(b);
    if SurfaceOf(a) == SurfaceOf(b) {
      EqualRuleLists(a.rules, b.rules);
      assert |a.rules| == |SurfacesOf(a.rules)| && |b.rules| == |SurfacesOf(b.rules)|;
      assert ConfigFields(a) == ConfigFields(b);
    }
  }

  lemma BytesDecideService(a: Rule, b: Rule)
    ensures ServiceBytes(a) == ServiceBytes(b) <==> SurfaceOfService(a) == SurfaceOfService(b)
  {
    ServiceRoundTrip(a);
    ServiceRoundTrip(b);
    if SurfaceOfService(a) == SurfaceOfService(b) {
      SortEqual(a.commands, b.commands);
      EqualKeys(a.environment, b.environment);
      assert ServiceFields(a) == ServiceFields(b);
    }
  }
}

/** Hashing of configs and services and the tracker that numbers semantic changes
    (`src/config_revision.rs`). SHA-256 in hex is a parameter, `digest`. */
module Revisions {
  import opened Plan
  import opened Canonical
  import opened ConfigSort
  import opened ConfigRevision

  type Hash = string

  type Digest = seq<Byte> -> Hash

  /** No two byte strings collide. */
  ghost predicate Collisionless(digest: Digest) {
    forall a, b :: digest(a) == digest(b) ==> a == b
  }

  // ------------------------------------------------------------------- encoding

  /** The first `k` fields of a record have been appended to `base`. */
  ghost predicate Written(base: seq<Byte>, fs: seq<Field>, k: nat, bytes: seq<Byte>) {
    k <= |fs| && bytes == base + RecordBytes(fs[..k])
  }

  lemma WriteNext(base: seq<Byte>, fs: seq<Field>, k: nat, before: seq<Byte>)
    requires k < |fs| && Written(base, fs, k, before)
    ensures Written(base, fs, k + 1, before + FieldBytes(fs[k]))
  {
    hide FieldBytes;
    assert fs[..k + 1] == fs[..k] + [fs[k]];
    RecordAppend(fs[..k], [fs[k]]);
    RecordOne(fs[k]);
  }

  lemma NoneWritten(base: seq<Byte>, fs: seq<Field>)
    ensures Written(base, fs, 0, base)
  {
    assert RecordBytes(fs[..0]) == [];
  }

  lemma AllWritten(base: seq<Byte>, fs: seq<Field>, bytes: seq<Byte>)
    requires Written(base, fs, |fs|, bytes)
    ensures bytes == base + RecordBytes(fs)
  {
    assert fs[..|fs|] == fs;
  }

  method EncodeIdentity(canonical: CanonicalEncoder, rule: Rule)
    modifies canonical
    ensures Written(old(canonical.bytes), RuleFields(rule), 6, canonical.bytes)
  {
    hide RecordBytes, Sort, OutputTag, Keys, U64, Flag, StringBytes, OptionalBytes, ListBytes, OptionalListBytes;
    ghost var base, fs := canonical.bytes, RuleFields(rule);
    NoneWritten(base, fs);
    WriteNext(base, fs, 0, canonical.bytes);
    canonical.PutString(rule.name);
    WriteNext(base, fs, 1, canonical.bytes);
    canonical.PutBool(rule.runOnInit);
    WriteNext(base, fs, 2, canonical.bytes);
    canonical.PutOptionalString(rule.parallel);
    WriteNext(base, fs, 3, canonical.bytes);
    canonical.PutBool(rule.service);
    WriteNext(base, fs, 4, canonical.bytes);
    canonical.PutString(OutputTag(rule.output));
    WriteNext(base, fs, 5, canonical.bytes);
    canonical.PutOptionalString(rule.cwd);
  }

  method EncodeLists(canonical: CanonicalEncoder, rule: Rule, ghost base: seq<Byte>)
    requires Written(base, RuleFields(rule), 6, canonical.bytes)
    modifies canonical
    ensures canonical.bytes == base + RuleBytes(rule)
  {
    hide RecordBytes, Sort, OutputTag, Keys, U64, Flag, StringBytes, OptionalBytes, ListBytes, OptionalListBytes;
    ghost var fs := RuleFields(rule);
    WriteNext(base, fs, 6, canonical.bytes);
    canonical.PutList(Sort(rule.change));
    WriteNext(base, fs, 7, canonical.bytes);
    canonical.PutList(Sort(rule.ignored));
    WriteNext(base, fs, 8, canonical.bytes);
    canonical.PutList(Sort(rule.commands));
    WriteNext(base, fs, 9, canonical.bytes);
    canonical.PutOptionalList(rule.recovery);
    WriteNext(base, fs, 10, canonical.bytes);
    canonical.PutList(Keys(rule.environment));
    AllWritten(base, fs, canonical.bytes);
  }

  /** Appends one rule's surface in canonical form. */
  method EncodeRule(canonical: CanonicalEncoder, rule: Rule)
    modifies canonical
    ensures canonical.bytes == old(canonical.bytes) + RuleBytes(rule)
  {
    ghost var base := canonical.bytes;
    EncodeIdentity(canonical, rule);
    EncodeLists(canonical, rule, base);
  }

  method EncodeSettings(canonical: CanonicalEncoder, config: RuntimeConfig)
    requires canonical.bytes == []
    modifies canonical
    ensures Written([], ConfigFields(config), 6, canonical.bytes)
  {
    hide RecordBytes, BackendTag, PolicyTag, U64, Flag, StringBytes, OptionalBytes;
    ghost var base, fs := canonical.bytes, ConfigFields(config);
    NoneWritten(base, fs);
    WriteNext(base, fs, 0, canonical.bytes);
    canonical.PutU64(REVISION_SCHEMA_VERSION);
    WriteNext(base, fs, 1, canonical.bytes);
    canonical.PutString(config.root);
    WriteNext(base, fs, 2, canonical.bytes);
    canonical.PutU64(config.concurrency);
    WriteNext(base, fs, 3, canonical.bytes);
    canonical.PutU64(config.debounce % TWO64);
    WriteNext(base, fs, 4, canonical.bytes);
    canonical.PutString(BackendTag(config.backend));
    WriteNext(base, fs, 5, canonical.bytes);
    canonical.PutBool(config.respectGitignore);
  }

  method EncodePolicy(canonical: CanonicalEncoder, config: RuntimeConfig)
    requires canonical.bytes == []
    modifies canonical
    ensures canonical.bytes == RecordBytes(ConfigFields(config))
  {
    hide RecordBytes, BackendTag, PolicyTag, U64, Flag, StringBytes, OptionalBytes;
    EncodeSettings(canonical, config);
    ghost var base, fs := [], ConfigFields(config);
    WriteNext(base, fs, 6, canonical.bytes);
    canonical.PutString(PolicyTag(config.recoveryPolicy));
    WriteNext(base, fs, 7, canonical.bytes);
    canonical.PutString(config.hooks);
    WriteNext(base, fs, 8, canonical.bytes);
    canonical.PutString(config.sessionHooks);
    WriteNext(base, fs, 9, canonical.bytes);
    canonical.PutOptionalString(config.controlSocket);
    WriteNext(base, fs, 10, canonical.bytes);
    canonical.PutU64(|config.rules|);
    AllWritten(base, fs, canonical.bytes);
  }

  lemma {:induction false} RulesSnoc(rules: seq<Rule>, rule: Rule)
    ensures RulesBytes(rules + [rule]) == RulesBytes(rules) + RuleBytes(rule)
  {
    hide RuleBytes;
    if rules == [] {
      assert rules + [rule] == [rule];
      assert RulesBytes([rule]) == RuleBytes(rule) + RulesBytes([]);
    } else {
      RulesSnoc(rules[1..], rule);
      assert (rules + [rule])[1..] == rules[1..] + [rule] && (rules + [rule])[0] == rules[0];
      assert RulesBytes(rules + [rule]) == RuleBytes(rules[0]) + (RulesBytes(rules[1..]) + RuleBytes(rule));
    }
  }

  method SemanticHash(config: RuntimeConfig, digest: Digest) returns (hash: Hash)
    ensures hash == digest(ConfigBytes(config))
  {
    hide RecordBytes, RuleBytes;
    var canonical := new CanonicalEncoder();
    EncodePolicy(canonical, config);
    ghost var policy := RecordBytes(ConfigFields(config));
    var i := 0;
    while i < |config.rules|
      invariant 0 <= i <= |config.rules|
      invariant canonical.bytes == policy + RulesBytes(config.rules[..i])
    {
      ghost var before := canonical.bytes;
      EncodeRule(canonical, config.rules[i]);
      RulesSnoc(config.rules[..i], config.rules[i]);
      assert config.rules[..i + 1] == config.rules[..i] + [config.rules[i]];
      assert before + RuleBytes(config.rules[i]) == policy + (RulesBytes(config.rules[..i]) + RuleBytes(config.rules[i]));
      i := i + 1;
    }
    assert config.rules[..i] == config.rules;
    hash := digest(canonical.bytes);
  }

  method EncodeService(canonical: CanonicalEncoder, rule: Rule)
    requires canonical.bytes == []
    modifies canonical
    ensures Written([], ServiceFields(rule), 4, canonical.bytes)
  {
    hide RecordBytes, Sort, OutputTag, Keys, U64, Flag, StringBytes, OptionalBytes, ListBytes, OptionalListBytes;
    ghost var fs := ServiceFields(rule);
    NoneWritten([], fs);
    WriteNext([], fs, 0, canonical.bytes);
    canonical.PutU64(REVISION_SCHEMA_VERSION);
    WriteNext([], fs, 1, canonical.bytes);
    canonical.PutBool(true);
    WriteNext([], fs, 2, canonical.bytes);
    canonical.PutString(rule.name);
    WriteNext([], fs, 3, canonical.bytes);
    canonical.PutBool(rule.service);
  }

  method ServiceSignature(rule: Rule, digest: Digest) returns (signature: Hash)
    ensures signature == digest(ServiceBytes(rule))
  {
    hide RecordBytes, Sort, OutputTag, Keys, U64, Flag, StringBytes, OptionalBytes, ListBytes, OptionalListBytes;
    var canonical := new CanonicalEncoder();
    EncodeService(canonical, rule);
    ghost var fs := ServiceFields(rule);
    WriteNext([], fs, 4, canonical.bytes);
    canonical.PutString(OutputTag(rule.output));
    WriteNext([], fs, 5, canonical.bytes);
    canonical.PutOptionalString(rule.cwd);
    WriteNext([], fs, 6, canonical.bytes);
    canonical.PutList(Sort(rule.commands));
    WriteNext([], fs, 7, canonical.bytes);
    canonical.PutList(Sort(Keys(rule.environment)));
    AllWritten([], fs, canonical.bytes);
    assert [] + RecordBytes(fs) == ServiceBytes(rule);
    signature := digest(canonical.bytes);
  }

  // ------------------------------------------------------------------- services

  /** Name and signature of every service rule, in config order. */
  function Services(rules: seq<Rule>, digest: Digest): seq<(Text, Hash)> {
    if rules == [] then []
    else (if rules[0].service then [(rules[0].name, digest(ServiceBytes(rules[0])))] else []) + Services(rules[1..], digest)
  }

  /** The rule at `i` declares this service. */
  ghost predicate Declares(rules: seq<Rule>, i: nat, digest: Digest, service: (Text, Hash)) {
    i < |rules| && rules[i].service && service == (rules[i].name, digest(ServiceBytes(rules[i])))
  }

  /** Exactly the service rules are listed. */
  lemma {:induction false} ServicesExact(rules: seq<Rule>, digest: Digest, service: (Text, Hash))
    ensures service in Services(rules, digest) <==> exists i: nat :: Declares(rules, i, digest, service)
  {
    hide ServiceBytes;
    if rules != [] {
      var rest := rules[1..];
      ServicesExact(rest, digest, service);
      if i: nat :| Declares(rest, i, digest, service) { assert Declares(rules, i + 1, digest, service); }
      if i: nat :| Declares(rules, i, digest, service) {
        if i == 0 { assert service in Services(rules, digest); } else { assert Declares(rest, i - 1, digest, service); }
      }
      if rules[0].service && service == (rules[0].name, digest(ServiceBytes(rules[0]))) {
        assert Declares(rules, 0, digest, service);
      }
    }
  }

  /** Rules with equal surfaces declare equal services. */
  lemma {:induction false} EqualServices(a: seq<Rule>, b: seq<Rule>, digest: Digest)
    requires SurfacesOf(a) == SurfacesOf(b)
    ensures Services(a, digest) == Services(b, digest)
  {
    assert |a| == |SurfacesOf(a)| && |b| == |SurfacesOf(b)|;
    if a != [] {
      assert SurfacesOf(a)[0] == SurfacesOf(b)[0];
      BytesDecideService(a[0], b[0]);
      assert SurfacesOf(a[1..]) == SurfacesOf(a)[1..] && SurfacesOf(b[1..]) == SurfacesOf(b)[1..];
      EqualServices(a[1..], b[1..], digest);
    }
  }

  /** A config hash decides the semantic surface, and with it every service. */
  lemma HashDecidesSurface(a: RuntimeConfig, b: RuntimeConfig, digest: Digest)
    requires Collisionless(digest)
    ensures digest(ConfigBytes(a)) == digest(ConfigBytes(b)) <==> SurfaceOf(a) == SurfaceOf(b)
    ensures digest(ConfigBytes(a)) == digest(ConfigBytes(b)) ==> Services(a.rules, digest) == Services(b.rules, digest)
  {
    BytesDecideSurface(a, b);
    if SurfaceOf(a) == SurfaceOf(b) { EqualServices(a.rules, b.rules, digest); }
  }

  /** A running service is kept exactly when its surface is unchanged. */
  lemma SignatureDecidesService(a: Rule, b: Rule, digest: Digest)
    requires Collisionless(digest)
    ensures digest(ServiceBytes(a)) == digest(ServiceBytes(b)) <==> SurfaceOfService(a) == SurfaceOfService(b)
  {
    BytesDecideService(a, b);
  }

  // -------------------------------------------------------------- command order

  /** No two commands of the rule differ. */
  predicate OneCommand(commands: seq<Text>) {
    forall i, j :: 0 <= i < j < |commands| ==> commands[i] == commands[j]
  }

  lemma {:induction false} SwapPermutes(xs: seq<Text>, i: nat, j: nat)
    requires i < j < |xs|
    ensures multiset(xs[i := xs[j]][j := xs[i]]) == multiset(xs)
  {
  }

  /** Equal encodings promise an equal command order exactly when the rule has no
      two different commands: any other rule shares its encoding with a reordering. */
  lemma CommandOrderDecided(r: Rule)
    ensures (forall r': Rule :: RuleBytes(r') == RuleBytes(r) ==> r'.commands == r.commands) <==> OneCommand(r.commands)
  {
    hide RuleBytes, SurfaceOfRule;
    if OneCommand(r.commands) {
      forall r': Rule | RuleBytes(r') == RuleBytes(r) ensures r'.commands == r.commands { OrderFixed(r, r'); }
    } else {
      var r' := OrderLost(r);
    }
  }

  lemma OrderFixed(r: Rule, r': Rule)
    requires OneCommand(r.commands) && RuleBytes(r') == RuleBytes(r)
    ensures r'.commands == r.commands
  {
    hide RuleBytes;
    RuleBytesDecide(r', r);
    SameElement(r.commands, r'.commands);
  }

  lemma OrderLost(r: Rule) returns (r': Rule)
    requires !OneCommand(r.commands)
    ensures RuleBytes(r') == RuleBytes(r) && r'.commands != r.commands
  {
    var i, j :| 0 <= i < j < |r.commands| && r.commands[i] != r.commands[j];
    var swapped := r.commands[i := r.commands[j]][j := r.commands[i]];
    SwapPermutes(r.commands, i, j);
    r' := r.(commands := swapped);
    EqualRules(r', r);
    assert r'.commands[i] != r.commands[i];
  }

  lemma SameElement(xs: seq<Text>, ys: seq<Text>)
    requires multiset(xs) == multiset(ys) && OneCommand(xs)
    ensures xs == ys
  {
    assert |xs| == |multiset(xs)| && |ys| == |multiset(ys)|;
    forall i | 0 <= i < |ys| ensures ys[i] == xs[i] {
      assert ys[i] in multiset(ys);
      var j :| 0 <= j < |xs| && xs[j] == ys[i];
      assert i == j || xs[i] == xs[j];
    }
  }

  lemma RuleBytesDecide(a: Rule, b: Rule)
    ensures RuleBytes(a) == RuleBytes(b) <==> SurfaceOfRule(a) == SurfaceOfRule(b)
  {
    RulesRead([a], []);
    RulesRead([b], []);
    assert RulesBytes([a]) == RuleBytes(a) + RulesBytes([]) && RulesBytes([b]) == RuleBytes(b) + RulesBytes([]);
    assert SurfacesOf([a])[0] == SurfaceOfRule(a) && SurfacesOf([b])[0] == SurfaceOfRule(b);
    if SurfaceOfRule(a) == SurfaceOfRule(b) { EqualRules(a, b); }
  }

  // ------------------------------------------------------------------- tracking

  datatype Revision = Revision(number: nat, hash: Hash)

  datatype Decision = New(revision: Revision) | NoOp

  /** How often the semantic surface changes along a sequence of configs. */
  ghost function Changes(seen: seq<RuntimeConfig>): nat {
    if |seen| <= 1 then 0
    else Changes(seen[..|seen| - 1]) + if SurfaceOf(seen[|seen| - 1]) == SurfaceOf(seen[|seen| - 2]) then 0 else 1
  }

  lemma ChangesSnoc(seen: seq<RuntimeConfig>, config: RuntimeConfig)
    ensures Changes(seen + [config]) ==
      if seen == [] then 0
      else Changes(seen) + if SurfaceOf(seen[|seen| - 1]) == SurfaceOf(config) then 0 else 1
  {
    hide SurfaceOf;
    var seen' := seen + [config];
    assert seen'[..|seen'| - 1] == seen;
  }

  /** `seen` is every config observed since the first, which got number `first`. */
  class RevisionTracker {
    const digest: Digest
    var current: Option<Revision>
    ghost var seen: seq<RuntimeConfig>
    ghost var first: nat

    ghost predicate Valid()
      reads this
    {
      && Collisionless(digest)
      && (seen == [] ==> current == None && first == 1)
      && (seen != [] ==> current == Some(Revision(first + Changes(seen), digest(ConfigBytes(seen[|seen| - 1])))))
    }

    constructor (digest: Digest)
      requires Collisionless(digest)
      ensures Valid() && seen == [] && this.digest == digest
    {
      this.digest := digest;
      current := None;
      seen, first := [], 1;
    }

    /** Continues the numbering of a revision that another tracker gave `config`. */
    method Seed(revision: Revision, ghost config: RuntimeConfig)
      requires Valid() && revision.hash == digest(ConfigBytes(config))
      modifies this
      ensures Valid() && seen == [config] && first == revision.number && current == Some(revision)
    {
      current := Some(revision);
      seen, first := [config], revision.number;
    }

    /** A candidate is a no-op exactly when its surface is that of the last config
        observed, and then no service differs; otherwise it gets the next number. */
    method Observe(config: RuntimeConfig) returns (decision: Decision)
      requires Valid()
      modifies this
      ensures Valid() && seen == old(seen) + [config] && first == old(first)
      ensures decision.NoOp? <==> old(seen) != [] && SurfaceOf(old(seen)[|old(seen)| - 1]) == SurfaceOf(config)
      ensures decision.NoOp? ==>
        current == old(current) && Services(old(seen)[|old(seen)| - 1].rules, digest) == Services(config.rules, digest)
      ensures decision.New? ==>
        && current == Some(decision.revision)
        && decision.revision.number == (if old(current).Some? then old(current).value.number + 1 else 1)
    {
      hide ConfigBytes, SurfaceOf, Services, Collisionless, Changes;
      var hash := SemanticHash(config, digest);
      if seen != [] { HashDecidesSurface(seen[|seen| - 1], config, digest); }
      ghost var seen' := seen + [config];
      ChangesSnoc(seen, config);
      if current.Some? && current.value.hash == hash {
        decision := NoOp;
      } else {
        var number := (if current.Some? then current.value.number else 0) + 1;
        var revision := Revision(number, hash);
        current := Some(revision);
        decision := New(revision);
      }
      seen := seen';
    }
  }
}

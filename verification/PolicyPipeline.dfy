/** One tool's findings from scanner output to report: inline suppression
    (scanner/output/generate-html-report.py), then overrides, acceptance and deduplication
    (scanner/core/policy_engine.py). */
module PolicyPipeline {
  import opened Collections
  import opened Findings
  import opened PolicyMatching
  import opened PolicyEngine
  import opened Dedupe
  import opened InlineSuppressions

  /** `dedupe` of a tool policy; an absent or empty object is None at the use. */
  datatype DedupeConfig = DedupeConfig(
    enabled: bool, groupFields: seq<string>, lineField: Option<string>, lineWindow: Option<int>, maxPerRule: Val)

  datatype ToolPolicy = ToolPolicy(severityOverrides: seq<Rule>, acceptedFindings: seq<Rule>,
      dedupe: Option<DedupeConfig>)

  datatype AcceptSpec = AcceptSpec(
    tool: string, idKey: string, pathKey: string, lineKey: string, messageKey: string,
    idGetter: Getter, pathGetter: Getter, lineGetter: Getter, messageGetter: Getter)

  function OrEmpty(v: Val): Val {
    if Truthy(v) then v else Text("")
  }

  function AcceptRecord(spec: ToolPolicySpec, accept: AcceptSpec): RecordOf {
    (f: Finding, reason: Val) =>
      var id := if accept.idGetter.Some? then accept.idGetter.value(f)
        else Get(f, NameOr(spec.ruleIdField, "rule_id"), Text(""));
      var path := if accept.pathGetter.Some? then accept.pathGetter.value(f)
        else Get(f, NameOr(spec.pathField, "path"), Text(""));
      var line := if accept.lineGetter.Some? then accept.lineGetter.value(f)
                  else Get(f, "line", Get(f, "line_number", Get(f, "start", Text(""))));
      var message := if accept.messageGetter.Some? then accept.messageGetter.value(f)
                     else if spec.messageField.None? then Text("") else Get(f, spec.messageField.value, Text(""));
      map["tool" := Text(accept.tool), "reason" := if Truthy(reason) then reason else Text("Accepted by policy")]
      [accept.idKey := OrEmpty(id)]
      [accept.pathKey := Text(Normalized(Str(OrEmpty(path))))]
      [accept.lineKey := Text(if line == Null then "" else Str(line))]
      [accept.messageKey := OrEmpty(message)]
  }

  // ----- deduplication as configured -----

  function GroupFieldsOf(cfg: DedupeConfig, spec: ToolPolicySpec): seq<string> {
    if cfg.groupFields != [] then cfg.groupFields
    else [NameOr(spec.ruleIdField, "rule_id"), NameOr(spec.pathField, "path"), "message", "severity"]
  }

  function LineFieldOf(cfg: DedupeConfig, accept: AcceptSpec): string {
    if cfg.lineField.Some? then cfg.lineField.value else if accept.lineGetter.Some? then "start" else "line"
  }

  function WindowOf(cfg: DedupeConfig): int {
    if cfg.lineWindow.Some? then cfg.lineWindow.value else 2
  }

  function CapOf(rt: Runtime, cfg: DedupeConfig): int {
    match ToInt(rt, cfg.maxPerRule)
    case Some(k) => k
    case None => 0
  }

  predicate DedupeOff(cfg: Option<DedupeConfig>) {
    cfg.None? || !cfg.value.enabled
  }

  function Consolidated(rt: Runtime, cfg: Option<DedupeConfig>, spec: ToolPolicySpec, accept: AcceptSpec,
      findings: seq<Finding>): seq<Finding> {
    if DedupeOff(cfg) then findings
    else
      var deduped := Deduped(rt, GroupFieldsOf(cfg.value, spec), LineFieldOf(cfg.value, accept), WindowOf(cfg.value),
        findings);
      if CapOf(rt, cfg.value) > 0
      then Capped(RuleKey(NameOr(spec.ruleIdField, "rule_id")), CapOf(rt, cfg.value), deduped) else deduped
  }

  method ApplyDedupeConfig(rt: Runtime, cfg: Option<DedupeConfig>, spec: ToolPolicySpec, accept: AcceptSpec,
      findings: seq<Finding>)
    returns (processed: seq<Finding>)
    ensures processed == Consolidated(rt, cfg, spec, accept, findings)
  {
    if DedupeOff(cfg) {
      return findings;
    }
    processed := DedupeFindingsByLineWindow(
      rt, GroupFieldsOf(cfg.value, spec), LineFieldOf(cfg.value, accept), WindowOf(cfg.value), findings);
    var k := ToInt(rt, cfg.value.maxPerRule);
    if k.Some? {
      processed := CapFindingsPerRule(RuleKey(NameOr(spec.ruleIdField, "rule_id")), k.value, processed);
    }
  }

  // ----- overrides, acceptance, deduplication -----

  /** One turn of the first loop: overrides, then path normalisation. */
  function Prepared(m: Matcher, overrides: seq<Rule>): Finding -> Finding {
    f => NormalizedFinding(Overridden(m, NewSeverity, overrides, f))
  }

  function AcceptedOf(m: Matcher, record: RecordOf, policy: ToolPolicy, findings: seq<Finding>): seq<Record> {
    AcceptedRecords(m, policy.acceptedFindings, record, MapSeq(Prepared(m, policy.severityOverrides), findings))
  }

  function KeptOf(m: Matcher, policy: ToolPolicy, findings: seq<Finding>): seq<Finding> {
    MapSeq(NormalizedFinding,
      Remaining(m, NormalizedFinding, policy.acceptedFindings, MapSeq(Prepared(m, policy.severityOverrides), findings)))
  }

  method ApplyPolicy(rt: Runtime, spec: ToolPolicySpec, accept: AcceptSpec, policy: ToolPolicy, findings: seq<Finding>)
    returns (processed: seq<Finding>, accepted: seq<Record>)
    ensures processed == Consolidated(rt, policy.dedupe, spec, accept, KeptOf(MatcherFor(rt, spec), policy, findings))
    ensures accepted == AcceptedOf(MatcherFor(rt, spec), AcceptRecord(spec, accept), policy, findings)
  {
    var m := MatcherFor(rt, spec);
    var prepared := PrepareAll(m, policy.severityOverrides, findings);
    var kept, records := ApplyPolicyGeneric(m, policy.acceptedFindings, AcceptRecord(spec, accept), prepared);
    var normalized := NormalizeAll(kept);
    processed := ApplyDedupeConfig(rt, policy.dedupe, spec, accept, normalized);
    accepted := records;
  }

  method PrepareAll(m: Matcher, overrides: seq<Rule>, findings: seq<Finding>) returns (prepared: seq<Finding>)
    ensures prepared == MapSeq(Prepared(m, overrides), findings)
  {
    prepared := [];
    for i := 0 to |findings|
      invariant |prepared| == i && forall j :: 0 <= j < i ==> prepared[j] == Prepared(m, overrides)(findings[j])
    {
      var updated := ApplyOverrides(m, NewSeverity, overrides, findings[i]);
      var normalized := NormalizeFindingPaths(updated);
      prepared := prepared + [normalized];
    }
  }

  method NormalizeAll(findings: seq<Finding>) returns (normalized: seq<Finding>)
    ensures normalized == MapSeq(NormalizedFinding, findings)
  {
    normalized := [];
    for i := 0 to |findings|
      invariant |normalized| == i && forall j :: 0 <= j < i ==> normalized[j] == NormalizedFinding(findings[j])
    {
      var f := NormalizeFindingPaths(findings[i]);
      normalized := normalized + [f];
    }
  }

  // ----- conservation, end to end -----

  lemma CountIsNotSeverity()
    ensures "consolidated_count" != "severity"
  {
    assert |"consolidated_count"| == 18 && |"severity"| == 8;
  }

  lemma PreparedIsUncounted(m: Matcher, overrides: seq<Rule>, f: Finding)
    requires "consolidated_count" !in f
    ensures "consolidated_count" !in Prepared(m, overrides)(f)
  {
    CountIsNotSeverity();
    OverridesKeepOthers(m, NewSeverity, overrides, f, "consolidated_count");
    NormalizedFindingAt(Overridden(m, NewSeverity, overrides, f), "consolidated_count");
  }

  lemma {:induction false} RemainingIsUncounted(m: Matcher, rules: seq<Rule>, findings: seq<Finding>)
    requires Uncounted(findings)
    ensures Uncounted(Remaining(m, NormalizedFinding, rules, findings))
  {
    if findings != [] {
      var n := |findings| - 1;
      assert findings == findings[..n] + [findings[n]];
      RemainingIsUncounted(m, rules, findings[..n]);
      NormalizedFindingAt(findings[n], "consolidated_count");
    }
  }

  lemma KeptIsUncounted(m: Matcher, policy: ToolPolicy, findings: seq<Finding>)
    requires Uncounted(findings)
    ensures Uncounted(KeptOf(m, policy, findings))
  {
    var prepared := MapSeq(Prepared(m, policy.severityOverrides), findings);
    forall i | 0 <= i < |prepared| ensures "consolidated_count" !in prepared[i] {
      assert findings[i] in findings;
      PreparedIsUncounted(m, policy.severityOverrides, findings[i]);
    }
    RemainingIsUncounted(m, policy.acceptedFindings, prepared);
    var remaining := Remaining(m, NormalizedFinding, policy.acceptedFindings, prepared);
    forall i | 0 <= i < |remaining| ensures "consolidated_count" !in MapSeq(NormalizedFinding, remaining)[i] {
      assert remaining[i] in remaining;
      NormalizedFindingAt(remaining[i], "consolidated_count");
    }
  }

  lemma {:induction false} UncountedCounts(findings: seq<Finding>)
    requires Uncounted(findings)
    ensures Sum(Counts(findings)) == |findings|
  {
    if findings != [] {
      var n := |findings| - 1;
      assert findings == findings[..n] + [findings[n]];
      UncountedCounts(findings[..n]);
      assert Counts(findings)[..n] == Counts(findings[..n]);
      assert findings[n] in findings;
    }
  }

  /** Without a cap, every finding is either accepted inline, accepted by policy, or counted in
      exactly one remaining record. */
  lemma EndToEndConservation(
    rt: Runtime, judge: Judge, inlineRecord: InlineRecord, m: Matcher, record: RecordOf,
    spec: ToolPolicySpec, accept: AcceptSpec, policy: ToolPolicy, findings: seq<Finding>)
    requires Uncounted(findings)
    requires DedupeOff(policy.dedupe) || CapOf(rt, policy.dedupe.value) <= 0
    ensures
      var left := Unsuppressed(judge, findings);
      |InlineAccepted(judge, inlineRecord, findings)| + |AcceptedOf(m, record, policy, left)|
      + Sum(Counts(Consolidated(rt, policy.dedupe, spec, accept, KeptOf(m, policy, left)))) == |findings|
  {
    var left := Unsuppressed(judge, findings);
    InlinePartitions(judge, inlineRecord, findings);
    assert Uncounted(left);
    AcceptancePartitions(m, NormalizedFinding, policy.acceptedFindings, record,
      MapSeq(Prepared(m, policy.severityOverrides), left));
    KeptIsUncounted(m, policy, left);
    var kept := KeptOf(m, policy, left);
    if DedupeOff(policy.dedupe) {
      UncountedCounts(kept);
    } else {
      var cfg := policy.dedupe.value;
      DedupeConserves(rt, GroupFieldsOf(cfg, spec), LineFieldOf(cfg, accept), WindowOf(cfg), kept);
    }
  }

  // ----- paths of what remains -----

  lemma TextPathNormalized(f: Finding, key: string, s: string)
    requires key in PATH_KEYS && key in f && f[key] == Text(s)
    ensures key in NormalizedFinding(f) && NormalizedFinding(f)[key] == Text(Normalized(s))
  {
    NormalizedFindingAt(f, key);
    if s == "" {
      NormalizedShape("");
      assert Slashes("") == "" && Strip("") == "";
    }
  }

  /** The path fields of a remaining finding are the tool's paths normalised three times. */
  lemma RemainingPathIsTripleNormalized(m: Matcher, overrides: seq<Rule>, f: Finding, key: string, s: string)
    requires key in PATH_KEYS && key in f && f[key] == Text(s)
    ensures
      var g := NormalizedFinding(NormalizedFinding(Prepared(m, overrides)(f)));
      key in g && g[key] == Text(Normalized(Normalized(Normalized(s))))
  {
    SeverityIsNoPath();
    OverridesChangeSeverityOnly(m, NewSeverity, overrides, f);
    var g := Overridden(m, NewSeverity, overrides, f);
    TextPathNormalized(g, key, s);
    TextPathNormalized(NormalizedFinding(g), key, Normalized(s));
    TextPathNormalized(NormalizedFinding(NormalizedFinding(g)), key, Normalized(Normalized(s)));
  }

  /** `g` carries the path field `key` of `f`, normalised three times. */
  predicate ThriceNormalized(f: Finding, g: Finding, key: string) {
    key in f && f[key].Text? ==>
      key in g && g[key] == Text(Normalized(Normalized(Normalized(f[key].s))))
  }

  lemma {:induction false} RemainingComeFrom(m: Matcher, norm: Finding -> Finding, rules: seq<Rule>,
      findings: seq<Finding>, i: nat)
    returns (j: nat)
    requires i < |Remaining(m, norm, rules, findings)|
    ensures j < |findings| && Remaining(m, norm, rules, findings)[i] == norm(findings[j])
  {
    var n := |findings| - 1;
    if i < |Remaining(m, norm, rules, findings[..n])| {
      j := RemainingComeFrom(m, norm, rules, findings[..n], i);
    } else {
      j := n;
    }
  }

  /** Every finding that remains before consolidation comes from a reported one, with its paths
      normalised three times. */
  lemma KeptPathsAreTripleNormalized(m: Matcher, policy: ToolPolicy, findings: seq<Finding>, i: nat) returns (j: nat)
    requires i < |KeptOf(m, policy, findings)|
    ensures j < |findings|
    ensures forall key :: key in PATH_KEYS ==> ThriceNormalized(findings[j], KeptOf(m, policy, findings)[i], key)
  {
    var prepare := Prepared(m, policy.severityOverrides);
    j := RemainingComeFrom(m, NormalizedFinding, policy.acceptedFindings, MapSeq(prepare, findings), i);
    forall key | key in PATH_KEYS ensures ThriceNormalized(findings[j], KeptOf(m, policy, findings)[i], key) {
      PreparedTriple(m, policy.severityOverrides, findings[j], key);
    }
  }

  lemma PreparedTriple(m: Matcher, overrides: seq<Rule>, f: Finding, key: string)
    requires key in PATH_KEYS
    ensures ThriceNormalized(f, NormalizedFinding(NormalizedFinding(Prepared(m, overrides)(f))), key)
  {
    if key in f && f[key].Text? {
      RemainingPathIsTripleNormalized(m, overrides, f, key, f[key].s);
    }
  }

  // ----- the dry run against the whole pipeline -----

  lemma PreparedFixpoint(m: Matcher, overrides: seq<Rule>, f: Finding)
    requires NormalizedFinding(f) == f
    ensures SameButSeverity(Prepared(m, overrides)(f), f)
  {
    CountIsNotSeverity();
    OverridesKeepOthers(m, NewSeverity, overrides, f, "consolidated_count");
    OverridesChangeSeverityOnly(m, NewSeverity, overrides, f);
    NormalizeFixpointUpToSeverity(f, Overridden(m, NewSeverity, overrides, f));
    assert Prepared(m, overrides)(f) == Overridden(m, NewSeverity, overrides, f);
  }

  lemma {:induction false} SameVerdicts(m: Matcher, rules: seq<Rule>, f: Finding, g: Finding)
    requires SeverityBlind(m) && SameButSeverity(f, g)
    ensures FirstMatch(m, rules, f) == FirstMatch(m, rules, g)
  {
    if rules != [] {
      assert m(f, rules[0]) == m(g, rules[0]);
      SameVerdicts(m, rules[1..], f, g);
    }
  }

  /** On samples whose paths are already normalised, the dry run counts what the whole override
      pipeline would accept, plus the samples an empty rule object shadows. */
  lemma {:induction false} DryRunAgreesWithPipeline(m: Matcher, record: RecordOf, policy: ToolPolicy,
      samples: seq<Finding>)
    requires SeverityBlind(m)
    requires forall f :: f in samples ==> NormalizedFinding(f) == f
    ensures WouldAccept(m, policy.acceptedFindings, samples) ==
            |AcceptedOf(m, record, policy, samples)| + Shadowed(m, policy.acceptedFindings, samples)
  {
    if samples != [] {
      var n := |samples| - 1;
      assert samples == samples[..n] + [samples[n]];
      DryRunAgreesWithPipeline(m, record, policy, samples[..n]);
      var prepare := Prepared(m, policy.severityOverrides);
      assert MapSeq(prepare, samples)[..n] == MapSeq(prepare, samples[..n]);
      assert samples[n] in samples;
      PreparedFixpoint(m, policy.severityOverrides, samples[n]);
      SameVerdicts(m, policy.acceptedFindings, prepare(samples[n]), samples[n]);
    }
  }
}

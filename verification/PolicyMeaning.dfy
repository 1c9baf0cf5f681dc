/** What the policy of a tool accepts and overrides, in terms of the fields of findings and rules:
    apply_policy_with_severity_overrides of scanner/core/policy_engine.py with its own matcher. */
module PolicyMeaning {
  import opened Collections
  import opened Findings
  import opened PolicyMatching
  import opened PolicyEngine
  import opened PolicyPipeline
  import opened Dedupe

  // ----- when a rule applies -----

  /** The value of a field: what the getter says, or the field of the finding. */
  function FieldValue(getter: Getter, name: string, default: Val, f: Finding): Val {
    if getter.Some? then getter.value(f) else if name in f then f[name] else default
  }

  function FieldName(name: Option<string>, default: string): string {
    if name == None || name == Some("") then default else name.value
  }

  /** None is searched as the empty text. */
  function Searched(v: Val): string {
    if v == Null then "" else Str(v)
  }

  predicate Found(rt: Runtime, pattern: string, text: string) {
    rt.compiles(pattern) && rt.search(pattern, text)
  }

  predicate Asks(rule: Rule, key: string) {
    key in rule && rule[key] != Null
  }

  predicate IdApplies(rt: Runtime, spec: ToolPolicySpec, f: Finding, rule: Rule) {
    Asks(rule, spec.policyRuleIdKey) ==>
      var id := FieldValue(spec.ruleIdGetter, FieldName(spec.ruleIdField, "rule_id"), Null, f);
      if spec.ruleIdIsRegex then Found(rt, Str(rule[spec.policyRuleIdKey]), Searched(id))
      else Str(id) == Str(rule[spec.policyRuleIdKey])
  }

  /** The pattern itself and, for one that begins with ".*" and a slash, the anchored one. */
  function Anchored(pattern: string): string {
    if |pattern| >= 3 && pattern[..3] == ".*/" then "(?:^|.*/)" + pattern[3..] else pattern
  }

  /** One of the patterns is found in the path or in the normalised one. */
  predicate PathFound(rt: Runtime, pattern: string, path: string) {
    && rt.compiles(pattern) && rt.compiles(Anchored(pattern))
    && (|| rt.search(pattern, path) || rt.search(pattern, Normalized(path))
        || rt.search(Anchored(pattern), path) || rt.search(Anchored(pattern), Normalized(path)))
  }

  /** The pattern is tried on the path and on the normalised path. */
  predicate PathApplies(rt: Runtime, spec: ToolPolicySpec, f: Finding, rule: Rule) {
    Asks(rule, spec.policyPathKey) ==>
      PathFound(rt, Str(rule[spec.policyPathKey]),
                Searched(FieldValue(spec.pathGetter, FieldName(spec.pathField, "path"), Text(""), f)))
  }

  predicate MessageApplies(rt: Runtime, spec: ToolPolicySpec, f: Finding, rule: Rule) {
    spec.policyMessageKey.Some? && spec.messageField.Some? && Asks(rule, spec.policyMessageKey.value) ==>
      Found(rt, Str(rule[spec.policyMessageKey.value]),
            Searched(FieldValue(spec.messageGetter, spec.messageField.value, Text(""), f)))
  }

  /** Every pattern the rule has holds of the finding. */
  predicate Applies(rt: Runtime, spec: ToolPolicySpec, f: Finding, rule: Rule) {
    IdApplies(rt, spec, f, rule) && PathApplies(rt, spec, f, rule) && MessageApplies(rt, spec, f, rule)
  }

  lemma TwoByTwo<T>(q: (T, T) -> bool, ps: seq<T>, cs: seq<T>, p1: T, p2: T, c1: T, c2: T)
    requires forall p :: p in ps <==> p == p1 || p == p2
    requires forall c :: c in cs <==> c == c1 || c == c2
    ensures (exists p, c :: p in ps && c in cs && q(p, c)) <==> q(p1, c1) || q(p1, c2) || q(p2, c1) || q(p2, c2)
  {
    assert p1 in ps && p2 in ps && c1 in cs && c2 in cs;
  }

  lemma PatternsAre(pattern: string)
    ensures forall p :: p in PathPatterns(pattern) <==> p == pattern || p == Anchored(pattern)
  {
  }

  lemma CandidatesAre(path: string)
    ensures forall c :: c in PathCandidates(path) <==> c == path || c == Normalized(path)
  {
  }

  lemma AllCompile(rt: Runtime, ps: seq<string>, p1: string, p2: string)
    requires forall p :: p in ps <==> p == p1 || p == p2
    ensures (forall p :: p in ps ==> rt.compiles(p)) <==> rt.compiles(p1) && rt.compiles(p2)
  {
    assert p1 in ps && p2 in ps;
  }

  lemma MatchesPathIff(rt: Runtime, path: Val, regex: Val)
    requires regex != Null
    ensures MatchesPath(rt, path, regex) <==> PathFound(rt, Str(regex), Searched(path))
  {
    var text, pattern := Searched(path), Str(regex);
    var ps, cs := PathPatterns(pattern), PathCandidates(text);
    PatternsAre(pattern);
    CandidatesAre(text);
    AllCompile(rt, ps, pattern, Anchored(pattern));
    TwoByTwo(rt.search, ps, cs, pattern, Anchored(pattern), text, Normalized(text));
  }

  lemma PathAppliesIff(rt: Runtime, spec: ToolPolicySpec, f: Finding, rule: Rule)
    ensures MatchesPath(rt, PathOf(spec, f), Get(rule, spec.policyPathKey, Null)) <==> PathApplies(rt, spec, f, rule)
  {
    if Asks(rule, spec.policyPathKey) {
      MatchesPathIff(rt, PathOf(spec, f), rule[spec.policyPathKey]);
    }
  }

  /** The engine's matcher is this and nothing else. */
  lemma MatchesIffApplies(rt: Runtime, spec: ToolPolicySpec, f: Finding, rule: Rule)
    ensures MatcherFor(rt, spec)(f, rule) <==> Applies(rt, spec, f, rule)
  {
    PathAppliesIff(rt, spec, f, rule);
    IdAppliesIff(rt, spec, f, rule);
    MessageAppliesIff(rt, spec, f, rule);
  }

  lemma IdAppliesIff(rt: Runtime, spec: ToolPolicySpec, f: Finding, rule: Rule)
    ensures
      var pattern := Get(rule, spec.policyRuleIdKey, Null);
      IdApplies(rt, spec, f, rule) <==>
      (|| pattern == Null
       || (if spec.ruleIdIsRegex then SafeSearch(rt, Text(Str(pattern)), RuleIdOf(spec, f))
           else Str(pattern) == Str(RuleIdOf(spec, f))))
  {
  }

  lemma MessageAppliesIff(rt: Runtime, spec: ToolPolicySpec, f: Finding, rule: Rule)
    ensures MessageApplies(rt, spec, f, rule) <==>
            (|| spec.policyMessageKey.None? || spec.messageField.None?
             || SafeSearch(rt, Get(rule, spec.policyMessageKey.value, Null), MessageOf(spec, f)))
  {
  }

  // ----- acceptance -----

  predicate SomeApplies(rt: Runtime, spec: ToolPolicySpec, rules: seq<Rule>, f: Finding) {
    exists i :: 0 <= i < |rules| && Applies(rt, spec, f, rules[i])
  }

  function Accepts(rt: Runtime, spec: ToolPolicySpec, rules: seq<Rule>): Finding -> bool {
    (f: Finding) => SomeApplies(rt, spec, rules, f)
  }

  function Leaves(rt: Runtime, spec: ToolPolicySpec, rules: seq<Rule>): Finding -> bool {
    (f: Finding) => !SomeApplies(rt, spec, rules, f)
  }

  /** The reason of the first rule that applies. */
  ghost predicate ReasonFor(rt: Runtime, spec: ToolPolicySpec, rules: seq<Rule>, f: Finding, reason: Val) {
    exists i :: 0 <= i < |rules| && Applies(rt, spec, f, rules[i])
                && (forall j :: 0 <= j < i ==> !Applies(rt, spec, f, rules[j]))
                && reason == (if "reason" in rules[i] then rules[i]["reason"] else Text("Accepted by policy"))
  }

  lemma VerdictIs(rt: Runtime, spec: ToolPolicySpec, rules: seq<Rule>, f: Finding)
    requires forall r :: r in rules ==> r != map[]
    ensures
      var verdict := VerdictOf(MatcherFor(rt, spec), rules, f);
      && (verdict.Accept? <==> SomeApplies(rt, spec, rules, f))
      && (verdict.Accept? ==> ReasonFor(rt, spec, rules, f, verdict.reason))
  {
    var m := MatcherFor(rt, spec);
    forall r ensures m(f, r) <==> Applies(rt, spec, f, r) {
      MatchesIffApplies(rt, spec, f, r);
    }
    AcceptedIffSomeRuleMatches(m, rules, f);
    if SomeApplies(rt, spec, rules, f) {
      var i := FirstThatApplies(rt, spec, rules, f);
      assert m(f, rules[i]);
    }
  }

  lemma FirstThatApplies(rt: Runtime, spec: ToolPolicySpec, rules: seq<Rule>, f: Finding) returns (i: nat)
    requires SomeApplies(rt, spec, rules, f)
    ensures i < |rules| && Applies(rt, spec, f, rules[i])
    ensures forall j :: 0 <= j < i ==> !Applies(rt, spec, f, rules[j])
  {
    i := 0;
    while !Applies(rt, spec, f, rules[i])
      invariant i < |rules| && forall j :: 0 <= j < i ==> !Applies(rt, spec, f, rules[j])
      decreases |rules| - i
    {
      i := i + 1;
      assert exists k :: i <= k < |rules| && Applies(rt, spec, f, rules[k]);
    }
  }

  ghost function ReasonsBy(rt: Runtime, spec: ToolPolicySpec, rules: seq<Rule>): (Finding, Val) -> bool {
    (f: Finding, reason: Val) => ReasonFor(rt, spec, rules, f, reason)
  }

  /** The records say of each accepted finding, in order, what `record` makes of it and of the reason. */
  ghost predicate RecordsBy(reasonFor: (Finding, Val) -> bool, record: RecordOf, accepted: seq<Finding>,
                            records: seq<Record>)
  {
    && |records| == |accepted|
    && forall i :: 0 <= i < |records| ==> RecordedFor(reasonFor, record, accepted[i], records[i])
  }

  ghost predicate RecordedFor(reasonFor: (Finding, Val) -> bool, record: RecordOf, f: Finding, r: Record) {
    exists reason :: reasonFor(f, reason) && r == record(f, reason)
  }

  /** One finding's verdict, as the caller sees it. */
  ghost predicate Judged(verdict: Verdict, accepts: bool, reasonFor: (Finding, Val) -> bool, f: Finding) {
    verdict.Accept? == accepts && (verdict.Accept? ==> reasonFor(f, verdict.reason))
  }

  lemma {:induction false} SplitByVerdict(
    m: Matcher, norm: Finding -> Finding, rules: seq<Rule>, record: RecordOf, accepts: Finding -> bool,
    leaves: Finding -> bool, reasonFor: (Finding, Val) -> bool, findings: seq<Finding>)
    requires forall i :: 0 <= i < |findings| ==>
                           Judged(VerdictOf(m, rules, findings[i]), accepts(findings[i]), reasonFor, findings[i])
    requires forall i :: 0 <= i < |findings| ==> leaves(findings[i]) == !accepts(findings[i])
    ensures Remaining(m, norm, rules, findings) == MapSeq(norm, Filter(leaves, findings))
    ensures RecordsBy(reasonFor, record, Filter(accepts, findings), AcceptedRecords(m, rules, record, findings))
  {
    if findings != [] {
      var n := |findings| - 1;
      var f, verdict := findings[n], VerdictOf(m, rules, findings[n]);
      SplitByVerdict(m, norm, rules, record, accepts, leaves, reasonFor, findings[..n]);
      assert Judged(verdict, accepts(f), reasonFor, f) && leaves(f) == !accepts(f);
      var kept, taken := Filter(leaves, findings[..n]), Filter(accepts, findings[..n]);
      var records := AcceptedRecords(m, rules, record, findings[..n]);
      assert MapSeq(norm, kept + [f]) == MapSeq(norm, kept) + [norm(f)];
      assert kept + [] == kept && taken + [] == taken && records + [] == records;
      if verdict.Accept? {
        assert RecordedFor(reasonFor, record, f, record(f, verdict.reason));
        RecordsSnoc(reasonFor, record, taken, records, f, record(f, verdict.reason));
      }
    }
  }

  lemma RecordsSnoc(reasonFor: (Finding, Val) -> bool, record: RecordOf, accepted: seq<Finding>,
                    records: seq<Record>, f: Finding, r: Record)
    requires RecordsBy(reasonFor, record, accepted, records) && RecordedFor(reasonFor, record, f, r)
    ensures RecordsBy(reasonFor, record, accepted + [f], records + [r])
  {
  }

  /** Acceptance splits a list of findings into those to which some rule applies and the others. */
  lemma AcceptanceIs(rt: Runtime, spec: ToolPolicySpec, norm: Finding -> Finding, rules: seq<Rule>,
                     record: RecordOf, findings: seq<Finding>)
    requires forall r :: r in rules ==> r != map[]
    ensures Remaining(MatcherFor(rt, spec), norm, rules, findings) ==
            MapSeq(norm, Filter(Leaves(rt, spec, rules), findings))
    ensures RecordsBy(ReasonsBy(rt, spec, rules), record, Filter(Accepts(rt, spec, rules), findings),
                      AcceptedRecords(MatcherFor(rt, spec), rules, record, findings))
  {
    var m := MatcherFor(rt, spec);
    forall i | 0 <= i < |findings|
      ensures Judged(VerdictOf(m, rules, findings[i]), Accepts(rt, spec, rules)(findings[i]),
                     ReasonsBy(rt, spec, rules), findings[i])
    {
      VerdictIs(rt, spec, rules, findings[i]);
    }
    SplitByVerdict(m, norm, rules, record, Accepts(rt, spec, rules), Leaves(rt, spec, rules),
                   ReasonsBy(rt, spec, rules), findings);
  }

  // ----- severity overrides -----

  /** The severity an override names: stripped and in upper case, "" if it names none. */
  function NamedSeverity(override: Rule): string {
    Upper(Strip(if "new_severity" in override then Str(override["new_severity"]) else ""))
  }

  predicate Overrides(rt: Runtime, spec: ToolPolicySpec, f: Finding, override: Rule) {
    Applies(rt, spec, f, override) && NamedSeverity(override) != ""
  }

  /** None of the fields the matcher reads is the severity. */
  predicate ReadsNoSeverity(spec: ToolPolicySpec) {
    && spec.ruleIdGetter.None? && FieldName(spec.ruleIdField, "rule_id") != "severity"
    && spec.pathGetter.None? && FieldName(spec.pathField, "path") != "severity"
    && spec.messageGetter.None? && spec.messageField != Some("severity")
  }

  /** The finding gets the severity of the last override that applies to it as reported and names
      one; without such an override it stays as it is. */
  lemma {:induction false} OverridesAre(rt: Runtime, spec: ToolPolicySpec, overrides: seq<Rule>, f: Finding)
    requires ReadsNoSeverity(spec)
    ensures
      var g := Overridden(MatcherFor(rt, spec), NewSeverity, overrides, f);
      && ((forall i :: 0 <= i < |overrides| ==> !Overrides(rt, spec, f, overrides[i])) ==> g == f)
      && (forall i :: 0 <= i < |overrides| && Overrides(rt, spec, f, overrides[i])
                      && (forall j :: i < j < |overrides| ==> !Overrides(rt, spec, f, overrides[j])) ==>
            g == f["severity" := Text(NamedSeverity(overrides[i]))])
  {
    var m, decides := MatcherFor(rt, spec), (o: Rule) => Overrides(rt, spec, f, o);
    FieldsAreSeverityBlind(rt, spec);
    LastOverrideWins(m, NewSeverity, overrides, f);
    forall i | 0 <= i < |overrides|
      ensures Decides(m, NewSeverity, f, overrides[i]) == decides(overrides[i])
      ensures NewSeverity(overrides[i]) == NamedSeverity(overrides[i])
    {
      DecidesIff(rt, spec, overrides[i], f);
    }
    LastDecidingIs(m, NewSeverity, overrides, f, decides);
  }

  lemma {:induction false} LastDecidingIs(
    m: Matcher, severityOf: Rule -> string, overrides: seq<Rule>, f: Finding, decides: Rule -> bool)
    requires forall i :: 0 <= i < |overrides| ==> Decides(m, severityOf, f, overrides[i]) == decides(overrides[i])
    ensures
      var last := LastDeciding(m, severityOf, overrides, f);
      && ((forall i :: 0 <= i < |overrides| ==> !decides(overrides[i])) ==> last == None)
      && (forall i :: 0 <= i < |overrides| && decides(overrides[i])
                      && (forall j :: i < j < |overrides| ==> !decides(overrides[j])) ==>
            last == Some(overrides[i]))
  {
    if overrides != [] {
      var n := |overrides| - 1;
      var front := overrides[..n];
      forall i | 0 <= i < |front| ensures Decides(m, severityOf, f, front[i]) == decides(front[i]) {
        assert front[i] == overrides[i];
      }
      LastDecidingIs(m, severityOf, front, f, decides);
      if !decides(overrides[n]) {
        assert LastDeciding(m, severityOf, overrides, f) == LastDeciding(m, severityOf, front, f);
        assert forall i :: 0 <= i < n ==> front[i] == overrides[i];
      }
    }
  }

  lemma DecidesIff(rt: Runtime, spec: ToolPolicySpec, override: Rule, f: Finding)
    ensures Decides(MatcherFor(rt, spec), NewSeverity, f, override) <==> Overrides(rt, spec, f, override)
    ensures NewSeverity(override) == NamedSeverity(override)
  {
    MatchesIffApplies(rt, spec, f, override);
  }

  // ----- the whole policy -----

  /** Normalising a finding normalises its four path fields, as texts, and leaves everything else. */
  lemma PathFieldsAre(f: Finding, key: string)
    ensures key in NormalizedFinding(f) <==> key in f
    ensures key in f ==>
              NormalizedFinding(f)[key] ==
              if key in {"path", "filename", "file", "PkgName"} && Truthy(f[key]) then Text(Normalized(Str(f[key])))
              else f[key]
  {
    NormalizedFindingAt(f, key);
    assert key in PATH_KEYS <==> key in {"path", "filename", "file", "PkgName"} by {
      assert PATH_KEYS[0] == "path" && PATH_KEYS[1] == "filename" && PATH_KEYS[2] == "file"
        && PATH_KEYS[3] == "PkgName";
    }
  }

  /** A finding as acceptance sees it: overridden, its path fields normalised. */
  function Seen(rt: Runtime, spec: ToolPolicySpec, overrides: seq<Rule>): Finding -> Finding {
    Prepared(MatcherFor(rt, spec), overrides)
  }

  function Twice(): Finding -> Finding {
    f => NormalizedFinding(NormalizedFinding(f))
  }

  lemma MapTwice(s: seq<Finding>)
    ensures MapSeq(NormalizedFinding, MapSeq(NormalizedFinding, s)) == MapSeq(Twice(), s)
  {
  }

  /** What apply_policy_with_severity_overrides keeps and records: a finding is recorded if and only if
      some rule applies to it, and kept otherwise, both in the reported order. */
  lemma PolicyIs(rt: Runtime, spec: ToolPolicySpec, accept: AcceptSpec, policy: ToolPolicy, findings: seq<Finding>)
    requires forall r :: r in policy.acceptedFindings ==> r != map[]
    ensures
      var rules, seen := policy.acceptedFindings, MapSeq(Seen(rt, spec, policy.severityOverrides), findings);
      && KeptOf(MatcherFor(rt, spec), policy, findings) == MapSeq(Twice(), Filter(Leaves(rt, spec, rules), seen))
      && RecordsBy(ReasonsBy(rt, spec, rules), AcceptRecord(spec, accept), Filter(Accepts(rt, spec, rules), seen),
                   AcceptedOf(MatcherFor(rt, spec), AcceptRecord(spec, accept), policy, findings))
  {
    var rules, seen := policy.acceptedFindings, MapSeq(Seen(rt, spec, policy.severityOverrides), findings);
    AcceptanceIs(rt, spec, NormalizedFinding, rules, AcceptRecord(spec, accept), seen);
    MapTwice(Filter(Leaves(rt, spec, rules), seen));
  }

  // ----- the records -----

  /** The six keys of a record are different. */
  predicate SixKeys(accept: AcceptSpec) {
    var fixed := {"tool", "reason"};
    && accept.idKey !in fixed && accept.pathKey !in fixed && accept.lineKey !in fixed && accept.messageKey !in fixed
    && accept.idKey != accept.pathKey && accept.idKey != accept.lineKey && accept.idKey != accept.messageKey
    && accept.pathKey != accept.lineKey && accept.pathKey != accept.messageKey && accept.lineKey != accept.messageKey
  }

  function OrBlank(v: Val): Val {
    if Truthy(v) then v else Text("")
  }

  /** The line: of the getter, or the first of the three fields the finding has. */
  function LineValue(accept: AcceptSpec, f: Finding): Val {
    if accept.lineGetter.Some? then accept.lineGetter.value(f)
    else if "line" in f then f["line"]
    else if "line_number" in f then f["line_number"]
    else if "start" in f then f["start"]
    else Text("")
  }

  /** The message: of the getter, or of the field, "" without one. */
  function MessageValue(spec: ToolPolicySpec, accept: AcceptSpec, f: Finding): Val {
    if accept.messageGetter.Some? then OrBlank(accept.messageGetter.value(f))
    else if spec.messageField.Some? && spec.messageField.value in f then OrBlank(f[spec.messageField.value])
    else Text("")
  }

  function IdValue(spec: ToolPolicySpec, accept: AcceptSpec, f: Finding): Val {
    OrBlank(FieldValue(accept.idGetter, FieldName(spec.ruleIdField, "rule_id"), Text(""), f))
  }

  function PathValue(spec: ToolPolicySpec, accept: AcceptSpec, f: Finding): string {
    Normalized(Str(OrBlank(FieldValue(accept.pathGetter, FieldName(spec.pathField, "path"), Text(""), f))))
  }

  function Layered(accept: AcceptSpec, tool: string, reason: Val, id: Val, path: Val, line: Val, message: Val): Record {
    map["tool" := Text(tool), "reason" := reason]
    [accept.idKey := id][accept.pathKey := path][accept.lineKey := line][accept.messageKey := message]
  }

  lemma IdIs(spec: ToolPolicySpec, accept: AcceptSpec, f: Finding)
    ensures IdValue(spec, accept, f) == OrEmpty(
              if accept.idGetter.Some? then accept.idGetter.value(f)
              else Get(f, NameOr(spec.ruleIdField, "rule_id"), Text("")))
  {
  }

  lemma PathIs(spec: ToolPolicySpec, accept: AcceptSpec, f: Finding)
    ensures PathValue(spec, accept, f) == Normalized(Str(OrEmpty(
              if accept.pathGetter.Some? then accept.pathGetter.value(f)
              else Get(f, NameOr(spec.pathField, "path"), Text("")))))
  {
  }

  lemma LineIs(accept: AcceptSpec, f: Finding)
    ensures LineValue(accept, f) ==
            if accept.lineGetter.Some? then accept.lineGetter.value(f)
            else Get(f, "line", Get(f, "line_number", Get(f, "start", Text(""))))
  {
  }

  lemma MessageIs(spec: ToolPolicySpec, accept: AcceptSpec, f: Finding)
    ensures MessageValue(spec, accept, f) == OrEmpty(
              if accept.messageGetter.Some? then accept.messageGetter.value(f)
              else if spec.messageField.None? then Text("") else Get(f, spec.messageField.value, Text("")))
  {
  }

  lemma RecordLayers(spec: ToolPolicySpec, accept: AcceptSpec, f: Finding, reason: Val)
    ensures
      var line := LineValue(accept, f);
      AcceptRecord(spec, accept)(f, reason) ==
      Layered(accept, accept.tool, if Truthy(reason) then reason else Text("Accepted by policy"),
              IdValue(spec, accept, f), Text(PathValue(spec, accept, f)),
              Text(if line == Null then "" else Str(line)), MessageValue(spec, accept, f))
  {
    IdIs(spec, accept, f);
    PathIs(spec, accept, f);
    LineIs(accept, f);
    MessageIs(spec, accept, f);
    RecordIsLayered(spec, accept, f, reason, IdValue(spec, accept, f), PathValue(spec, accept, f),
                    LineValue(accept, f), MessageValue(spec, accept, f));
  }

  lemma RecordIsLayered(spec: ToolPolicySpec, accept: AcceptSpec, f: Finding, reason: Val, id: Val, path: string,
                        line: Val, message: Val)
    requires id == OrEmpty(
               if accept.idGetter.Some? then accept.idGetter.value(f)
               else Get(f, NameOr(spec.ruleIdField, "rule_id"), Text("")))
    requires path == Normalized(Str(OrEmpty(
               if accept.pathGetter.Some? then accept.pathGetter.value(f)
               else Get(f, NameOr(spec.pathField, "path"), Text("")))))
    requires line == if accept.lineGetter.Some? then accept.lineGetter.value(f)
                     else Get(f, "line", Get(f, "line_number", Get(f, "start", Text(""))))
    requires message == OrEmpty(
               if accept.messageGetter.Some? then accept.messageGetter.value(f)
               else if spec.messageField.None? then Text("") else Get(f, spec.messageField.value, Text("")))
    ensures AcceptRecord(spec, accept)(f, reason) ==
            Layered(accept, accept.tool, if Truthy(reason) then reason else Text("Accepted by policy"), id,
                    Text(path), Text(if line == Null then "" else Str(line)), message)
  {
  }

  lemma LayeredKeys(accept: AcceptSpec, tool: string, reason: Val, id: Val, path: Val, line: Val, message: Val)
    requires SixKeys(accept)
    ensures
      var r := Layered(accept, tool, reason, id, path, line, message);
      && r.Keys == {"tool", "reason", accept.idKey, accept.pathKey, accept.lineKey, accept.messageKey}
      && r["tool"] == Text(tool) && r["reason"] == reason && r[accept.idKey] == id
      && r[accept.pathKey] == path && r[accept.lineKey] == line && r[accept.messageKey] == message
  {
    var base: Record := map["tool" := Text(tool), "reason" := reason];
    assert "tool" != "reason" by {
      assert |"tool"| != |"reason"|;
    }
    assert base.Keys == {"tool", "reason"} && base["tool"] == Text(tool) && base["reason"] == reason;
    AddedKeys(base, accept, id, path, line, message);
  }

  lemma AddedKeys(base: Record, accept: AcceptSpec, id: Val, path: Val, line: Val, message: Val)
    requires SixKeys(accept) && base.Keys == {"tool", "reason"}
    ensures
      var r := base[accept.idKey := id][accept.pathKey := path][accept.lineKey := line][accept.messageKey := message];
      && r.Keys == {"tool", "reason", accept.idKey, accept.pathKey, accept.lineKey, accept.messageKey}
      && r["tool"] == base["tool"] && r["reason"] == base["reason"] && r[accept.idKey] == id
      && r[accept.pathKey] == path && r[accept.lineKey] == line && r[accept.messageKey] == message
  {
  }

  /** A record names the tool, the reason, and the id, path, line and message of the finding. */
  lemma RecordFields(spec: ToolPolicySpec, accept: AcceptSpec, f: Finding, reason: Val)
    requires SixKeys(accept)
    ensures
      var r, line := AcceptRecord(spec, accept)(f, reason), LineValue(accept, f);
      && r.Keys == {"tool", "reason", accept.idKey, accept.pathKey, accept.lineKey, accept.messageKey}
      && r["tool"] == Text(accept.tool)
      && r["reason"] == (if Truthy(reason) then reason else Text("Accepted by policy"))
      && r[accept.idKey] == IdValue(spec, accept, f)
      && r[accept.pathKey] == Text(PathValue(spec, accept, f))
      && r[accept.lineKey] == Text(if line == Null then "" else Str(line))
      && r[accept.messageKey] == MessageValue(spec, accept, f)
  {
    var line := LineValue(accept, f);
    RecordLayers(spec, accept, f, reason);
    LayeredKeys(accept, accept.tool, if Truthy(reason) then reason else Text("Accepted by policy"),
                IdValue(spec, accept, f), Text(PathValue(spec, accept, f)),
                Text(if line == Null then "" else Str(line)), MessageValue(spec, accept, f));
  }

  // ----- consolidation as configured -----

  /** Without a configuration of its own a tool is deduplicated by these fields, this line field and
      a window of two lines. */
  lemma ConsolidatedByDefault(rt: Runtime, cfg: DedupeConfig, spec: ToolPolicySpec, accept: AcceptSpec,
                              findings: seq<Finding>)
    requires cfg.enabled && cfg.groupFields == [] && cfg.lineField.None? && cfg.lineWindow.None?
    requires cfg.maxPerRule == Null
    ensures Consolidated(rt, Some(cfg), spec, accept, findings) ==
            Deduped(rt, [FieldName(spec.ruleIdField, "rule_id"), FieldName(spec.pathField, "path"), "message",
              "severity"],
                    if accept.lineGetter.Some? then "start" else "line", 2, findings)
  {
  }

  /** A cap keeps the first records of each rule, as many as it says; one that is no positive number
      keeps all. */
  lemma ConsolidatedIsCapped(rt: Runtime, cfg: DedupeConfig, spec: ToolPolicySpec, accept: AcceptSpec,
                             findings: seq<Finding>, id: string)
    requires cfg.enabled
    ensures
      var all := Consolidated(rt, Some(cfg.(maxPerRule := Null)), spec, accept, findings);
      var capped := Consolidated(rt, Some(cfg), spec, accept, findings);
      var cap := ToInt(rt, cfg.maxPerRule);
      var ofRule := (f: Finding) => Str(Get(f, FieldName(spec.ruleIdField, "rule_id"), Text("")));
      && (cap.None? || cap.value <= 0 ==> capped == all)
      && (cap.Some? && cap.value > 0 ==>
            var own := Members(ofRule, id, all);
            Members(ofRule, id, capped) == own[..if |own| < cap.value then |own| else cap.value])
  {
    var cap := ToInt(rt, cfg.maxPerRule);
    var key := RuleKey(NameOr(spec.ruleIdField, "rule_id"));
    var all := Consolidated(rt, Some(cfg.(maxPerRule := Null)), spec, accept, findings);
    var ofRule := (f: Finding) => Str(Get(f, FieldName(spec.ruleIdField, "rule_id"), Text("")));
    if cap.Some? && cap.value > 0 {
      CapKeepsFirst(key, cap.value, all, id);
      SameMembers(key, ofRule, id, all);
      SameMembers(key, ofRule, id, Capped(key, cap.value, all));
    }
  }

  lemma {:induction false} SameMembers<T, K>(key: T -> K, key': T -> K, k: K, s: seq<T>)
    requires forall x :: x in s ==> key(x) == key'(x)
    ensures Members(key, k, s) == Members(key', k, s)
  {
    if s != [] {
      assert s[|s| - 1] in s;
      SameMembers(key, key', k, s[..|s| - 1]);
    }
  }
}

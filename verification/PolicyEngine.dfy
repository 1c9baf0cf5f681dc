/** Severity overrides and acceptance of scanner/core/policy_engine.py. */
module PolicyEngine {
  import opened Collections
  import opened Findings
  import opened PolicyMatching

  // ----- matching one rule -----

  type Getter = Option<Finding -> Val>

  datatype ToolPolicySpec = ToolPolicySpec(
    ruleIdField: Option<string>, ruleIdGetter: Getter,
    pathField: Option<string>, pathGetter: Getter,
    messageField: Option<string>, messageGetter: Getter,
    ruleIdIsRegex: bool,
    policyRuleIdKey: string, policyPathKey: string, policyMessageKey: Option<string>)

  function NameOr(name: Option<string>, default: string): string {
    if name.Some? && name.value != "" then name.value else default
  }

  function RuleIdOf(spec: ToolPolicySpec, f: Finding): Val {
    if spec.ruleIdGetter.Some? then spec.ruleIdGetter.value(f) else Get(f, NameOr(spec.ruleIdField, "rule_id"), Null)
  }

  function PathOf(spec: ToolPolicySpec, f: Finding): Val {
    if spec.pathGetter.Some? then spec.pathGetter.value(f) else Get(f, NameOr(spec.pathField, "path"), Text(""))
  }

  function MessageOf(spec: ToolPolicySpec, f: Finding): Val
    requires spec.messageField.Some?
  {
    if spec.messageGetter.Some? then spec.messageGetter.value(f) else Get(f, spec.messageField.value, Text(""))
  }

  predicate SafeSearch(rt: Runtime, pattern: Val, value: Val) {
    pattern == Null ||
    (rt.compiles(Str(pattern)) && rt.search(Str(pattern), if value == Null then "" else Str(value)))
  }

  /** Legacy patterns that start with ".*" + "/" are also tried anchored at the root. */
  function PathPatterns(regex: string): seq<string> {
    if ".*/" <= regex then [regex, "(?:^|.*/)" + regex[3..]] else [regex]
  }

  function PathCandidates(path: string): seq<string> {
    if Normalized(path) != path then [path, Normalized(path)] else [path]
  }

  predicate MatchesPath(rt: Runtime, path: Val, regex: Val) {
    regex == Null ||
    var candidates := PathCandidates(if path == Null then "" else Str(path));
    var patterns := PathPatterns(Str(regex));
    && (forall p :: p in patterns ==> rt.compiles(p))
    && exists p, c :: p in patterns && c in candidates && rt.search(p, c)
  }

  predicate RuleMatches(rt: Runtime, spec: ToolPolicySpec, f: Finding, rule: Rule) {
    var pattern := Get(rule, spec.policyRuleIdKey, Null);
    && (|| pattern == Null
        || (if spec.ruleIdIsRegex then SafeSearch(rt, Text(Str(pattern)), RuleIdOf(spec, f))
            else Str(pattern) == Str(RuleIdOf(spec, f))))
    && MatchesPath(rt, PathOf(spec, f), Get(rule, spec.policyPathKey, Null))
    && (|| spec.policyMessageKey.None? || spec.messageField.None?
        || SafeSearch(rt, Get(rule, spec.policyMessageKey.value, Null), MessageOf(spec, f)))
  }

  /** The engine's loops use nothing about a rule but whether it matches. */
  type Matcher = (Finding, Rule) -> bool

  function MatcherFor(rt: Runtime, spec: ToolPolicySpec): Matcher {
    (f, rule) => RuleMatches(rt, spec, f, rule)
  }

  // ----- path fields of a finding -----

  const PATH_KEYS := ["path", "filename", "file", "PkgName"]

  function NormalizedKeys(f: Finding, keys: seq<string>): Finding {
    if keys == [] then f
    else
      var out := NormalizedKeys(f, keys[..|keys| - 1]);
      var key := keys[|keys| - 1];
      if Truthy(Get(out, key, Null)) then out[key := Text(Normalized(Str(out[key])))] else out
  }

  function NormalizedFinding(f: Finding): Finding {
    NormalizedKeys(f, PATH_KEYS)
  }

  method NormalizeFindingPaths(f: Finding) returns (out: Finding)
    ensures out == NormalizedFinding(f)
  {
    out := f;
    for i := 0 to |PATH_KEYS|
      invariant out == NormalizedKeys(f, PATH_KEYS[..i])
    {
      assert PATH_KEYS[..i + 1][..i] == PATH_KEYS[..i];
      var val := Get(out, PATH_KEYS[i], Null);
      if Truthy(val) {
        var normalized := NormalizePolicyPath(Str(val));
        out := out[PATH_KEYS[i] := Text(normalized)];
      }
    }
    assert PATH_KEYS[..|PATH_KEYS|] == PATH_KEYS;
  }

  /** Exactly the path fields change, each to its normalised text. */
  lemma {:induction false} NormalizedKeysAt(f: Finding, keys: seq<string>, key: string)
    requires Distinct(keys)
    ensures key in NormalizedKeys(f, keys) <==> key in f
    ensures key in f ==>
              NormalizedKeys(f, keys)[key] == if key in keys && Truthy(f[key]) then Text(Normalized(Str(f[key])))
                else f[key]
  {
    if keys != [] {
      var n := |keys| - 1;
      NormalizedKeysAt(f, keys[..n], key);
      NormalizedKeysAt(f, keys[..n], keys[n]);
      assert keys[n] !in keys[..n];
      assert keys == keys[..n] + [keys[n]];
    }
  }

  lemma NormalizedFindingAt(f: Finding, key: string)
    ensures key in NormalizedFinding(f) <==> key in f
    ensures key in f ==>
              NormalizedFinding(f)[key] == if key in PATH_KEYS && Truthy(f[key]) then Text(Normalized(Str(f[key])))
                else f[key]
  {
    assert PATH_KEYS[0] != PATH_KEYS[1] && |PATH_KEYS[0]| == 4 && |PATH_KEYS[1]| == 8 && |PATH_KEYS[2]| == 4
      && |PATH_KEYS[3]| == 7;
    assert PATH_KEYS[0][0] != PATH_KEYS[2][0];
    NormalizedKeysAt(f, PATH_KEYS, key);
  }

  lemma SeverityIsNoPath()
    ensures "severity" !in PATH_KEYS
  {
    assert |"severity"| == |"filename"| && "severity"[0] != "filename"[0];
  }

  lemma NormalizeKeepsSeverity(f: Finding, v: Val)
    ensures NormalizedFinding(f["severity" := v]) == NormalizedFinding(f)["severity" := v]
  {
    SeverityIsNoPath();
    var g := f["severity" := v];
    forall key ensures key in NormalizedFinding(g) <==> key in NormalizedFinding(f)["severity" := v]
      ensures key in NormalizedFinding(g) ==> NormalizedFinding(g)[key] == NormalizedFinding(f)["severity" := v][key]
    {
      NormalizedFindingAt(f, key);
      NormalizedFindingAt(g, key);
    }
  }

  lemma NormalizeFixpointUpToSeverity(f: Finding, g: Finding)
    requires NormalizedFinding(f) == f
    requires g == f || ("severity" in g && g == f["severity" := g["severity"]])
    ensures NormalizedFinding(g) == g
  {
    if g != f {
      NormalizeKeepsSeverity(f, g["severity"]);
    }
  }

  // ----- severity overrides -----

  function NewSeverity(override: Rule): string {
    Upper(Strip(Str(Get(override, "new_severity", Text("")))))
  }

  /** The loop over the overrides: each match is decided on the finding as updated so far. */
  function Overridden(m: Matcher, severityOf: Rule -> string, overrides: seq<Rule>, f: Finding): Finding {
    if overrides == [] then f
    else
      var n := |overrides| - 1;
      var g := Overridden(m, severityOf, overrides[..n], f);
      if m(g, overrides[n]) && severityOf(overrides[n]) != ""
      then g["severity" := Text(severityOf(overrides[n]))] else g
  }

  method ApplyOverrides(m: Matcher, severityOf: Rule -> string, overrides: seq<Rule>, f: Finding)
    returns (updated: Finding)
    ensures updated == Overridden(m, severityOf, overrides, f)
  {
    updated := f;
    for i := 0 to |overrides|
      invariant updated == Overridden(m, severityOf, overrides[..i], f)
    {
      assert overrides[..i + 1][..i] == overrides[..i];
      if m(updated, overrides[i]) {
        var severity := severityOf(overrides[i]);
        if severity != "" {
          updated := updated["severity" := Text(severity)];
        }
      }
    }
    assert overrides[..|overrides|] == overrides;
  }

  /** An override that decides `f`: it matches the original finding and names a severity. */
  predicate Decides(m: Matcher, severityOf: Rule -> string, f: Finding, override: Rule) {
    m(f, override) && severityOf(override) != ""
  }

  predicate SameButSeverity(f: Finding, g: Finding) {
    f - {"severity"} == g - {"severity"}
  }

  /** Matching does not read the severity. */
  ghost predicate SeverityBlind(m: Matcher) {
    forall f, g, rule :: SameButSeverity(f, g) ==> m(f, rule) == m(g, rule)
  }

  lemma FieldsAreSeverityBlind(rt: Runtime, spec: ToolPolicySpec)
    requires spec.ruleIdGetter.None? && NameOr(spec.ruleIdField, "rule_id") != "severity"
    requires spec.pathGetter.None? && NameOr(spec.pathField, "path") != "severity"
    requires spec.messageGetter.None? && spec.messageField != Some("severity")
    ensures SeverityBlind(MatcherFor(rt, spec))
  {
    forall f, g, rule | SameButSeverity(f, g)
      ensures RuleMatches(rt, spec, f, rule) == RuleMatches(rt, spec, g, rule)
    {
      OtherFields(f, g, NameOr(spec.ruleIdField, "rule_id"), Null);
      OtherFields(f, g, NameOr(spec.pathField, "path"), Text(""));
      if spec.messageField.Some? {
        OtherFields(f, g, spec.messageField.value, Text(""));
      }
    }
  }

  lemma OtherFields(f: Finding, g: Finding, key: string, default: Val)
    requires SameButSeverity(f, g) && key != "severity"
    ensures Get(f, key, default) == Get(g, key, default)
  {
    assert key in f <==> key in f - {"severity"};
    assert key in g <==> key in g - {"severity"};
    if key in f {
      assert (f - {"severity"})[key] == (g - {"severity"})[key];
    }
  }

  /** Searching from the end: the last override that decides the finding as the tool reported it. */
  function LastDeciding(m: Matcher, severityOf: Rule -> string, overrides: seq<Rule>, f: Finding): Option<Rule> {
    if overrides == [] then None
    else if Decides(m, severityOf, f, overrides[|overrides| - 1]) then Some(overrides[|overrides| - 1])
    else LastDeciding(m, severityOf, overrides[..|overrides| - 1], f)
  }

  /** The loop gives the severity of the last deciding override, and the finding itself without one. */
  lemma {:induction false} LastOverrideWins(m: Matcher, severityOf: Rule -> string, overrides: seq<Rule>, f: Finding)
    requires SeverityBlind(m)
    ensures Overridden(m, severityOf, overrides, f) ==
            match LastDeciding(m, severityOf, overrides, f)
            case Some(o) => f["severity" := Text(severityOf(o))]
            case None => f
  {
    if overrides != [] {
      var n := |overrides| - 1;
      LastOverrideWins(m, severityOf, overrides[..n], f);
      OverridesChangeSeverityOnly(m, severityOf, overrides[..n], f);
      var g := Overridden(m, severityOf, overrides[..n], f);
      assert SameButSeverity(g, f);
      assert m(g, overrides[n]) == m(f, overrides[n]);
    }
  }

  lemma {:induction false} OverridesChangeSeverityOnly(m: Matcher, severityOf: Rule -> string, overrides: seq<Rule>,
      f: Finding)
    ensures var g := Overridden(m, severityOf, overrides, f);
            g == f || ("severity" in g && g == f["severity" := g["severity"]])
  {
    if overrides != [] {
      OverridesChangeSeverityOnly(m, severityOf, overrides[..|overrides| - 1], f);
    }
  }

  lemma OverridesKeepOthers(m: Matcher, severityOf: Rule -> string, overrides: seq<Rule>, f: Finding, key: string)
    requires key != "severity"
    ensures key in Overridden(m, severityOf, overrides, f) <==> key in f
    ensures SameButSeverity(Overridden(m, severityOf, overrides, f), f)
  {
    OverridesChangeSeverityOnly(m, severityOf, overrides, f);
  }

  // ----- acceptance -----

  function FirstMatch(m: Matcher, rules: seq<Rule>, f: Finding): Option<Rule> {
    if rules == [] then None
    else if m(f, rules[0]) then Some(rules[0])
    else FirstMatch(m, rules[1..], f)
  }

  datatype Verdict = Keep | Accept(reason: Val)

  /** An empty first match is falsy in Python: it stops the search and accepts nothing. */
  function VerdictOf(m: Matcher, rules: seq<Rule>, f: Finding): Verdict {
    match FirstMatch(m, rules, f)
    case Some(rule) => if rule == map[] then Keep else Accept(Get(rule, "reason", Text("Accepted by policy")))
    case None => Keep
  }

  type RecordOf = (Finding, Val) -> Record

  function Remaining(m: Matcher, norm: Finding -> Finding, rules: seq<Rule>, findings: seq<Finding>): seq<Finding> {
    if findings == [] then []
    else
      var n := |findings| - 1;
      Remaining(m, norm, rules, findings[..n]) +
      (if VerdictOf(m, rules, findings[n]).Keep? then [norm(findings[n])] else [])
  }

  function AcceptedRecords(m: Matcher, rules: seq<Rule>, record: RecordOf, findings: seq<Finding>): seq<Record> {
    if findings == [] then []
    else
      var n := |findings| - 1;
      AcceptedRecords(m, rules, record, findings[..n]) +
      match VerdictOf(m, rules, findings[n])
      case Accept(reason) => [record(findings[n], reason)]
      case Keep => []
  }

  method ApplyPolicyGeneric(m: Matcher, rules: seq<Rule>, record: RecordOf, findings: seq<Finding>)
    returns (processed: seq<Finding>, acceptedRecords: seq<Record>)
    ensures processed == Remaining(m, NormalizedFinding, rules, findings)
    ensures acceptedRecords == AcceptedRecords(m, rules, record, findings)
  {
    processed, acceptedRecords := [], [];
    for i := 0 to |findings|
      invariant processed == Remaining(m, NormalizedFinding, rules, findings[..i])
      invariant acceptedRecords == AcceptedRecords(m, rules, record, findings[..i])
    {
      assert findings[..i + 1][..i] == findings[..i];
      var accepted: Option<Rule> := None;
      for j := 0 to |rules|
        invariant accepted.None?
        invariant FirstMatch(m, rules[j..], findings[i]) == FirstMatch(m, rules, findings[i])
      {
        if m(findings[i], rules[j]) {
          accepted := Some(rules[j]);
          break;
        }
      }
      assert accepted == FirstMatch(m, rules, findings[i]);
      if accepted.Some? && accepted.value != map[] {
        acceptedRecords := acceptedRecords
          + [record(findings[i], Get(accepted.value, "reason", Text("Accepted by policy")))];
      } else {
        var normalized := NormalizeFindingPaths(findings[i]);
        processed := processed + [normalized];
      }
    }
    assert findings[..|findings|] == findings;
  }

  /** The search finds the first matching rule: it matches and no earlier rule does. */
  lemma {:induction false} FirstMatchIsFirst(m: Matcher, rules: seq<Rule>, f: Finding, i: nat)
    requires i < |rules| && m(f, rules[i])
    requires forall j :: 0 <= j < i ==> !m(f, rules[j])
    ensures FirstMatch(m, rules, f) == Some(rules[i])
  {
    if i > 0 {
      FirstMatchIsFirst(m, rules[1..], f, i - 1);
    }
  }

  lemma {:induction false} NoMatch(m: Matcher, rules: seq<Rule>, f: Finding)
    ensures FirstMatch(m, rules, f).None? <==> forall j :: 0 <= j < |rules| ==> !m(f, rules[j])
  {
    if rules != [] {
      NoMatch(m, rules[1..], f);
      assert rules == [rules[0]] + rules[1..];
    }
  }

  /** Without empty rule objects a finding is accepted iff some rule matches it, for the reason of
      the first one that does. */
  lemma AcceptedIffSomeRuleMatches(m: Matcher, rules: seq<Rule>, f: Finding)
    requires forall r :: r in rules ==> r != map[]
    ensures VerdictOf(m, rules, f).Accept? <==> exists i :: 0 <= i < |rules| && m(f, rules[i])
    ensures forall i :: 0 <= i < |rules| && m(f, rules[i])
                        && (forall j :: 0 <= j < i ==> !m(f, rules[j])) ==>
              VerdictOf(m, rules, f) == Accept(Get(rules[i], "reason", Text("Accepted by policy")))
  {
    NoMatch(m, rules, f);
    forall i | 0 <= i < |rules| && m(f, rules[i])
               && (forall j :: 0 <= j < i ==> !m(f, rules[j]))
      ensures VerdictOf(m, rules, f) == Accept(Get(rules[i], "reason", Text("Accepted by policy")))
    {
      FirstMatchIsFirst(m, rules, f, i);
      assert rules[i] in rules;
    }
    FirstMatchIsSome(m, rules, f);
  }

  lemma {:induction false} FirstMatchIsSome(m: Matcher, rules: seq<Rule>, f: Finding)
    ensures FirstMatch(m, rules, f).Some? ==> FirstMatch(m, rules, f).value in rules
  {
    if rules != [] {
      FirstMatchIsSome(m, rules[1..], f);
    }
  }

  /** An empty rule object shadows every later rule: it matches every finding and accepts none. */
  lemma EmptyRuleShadows(rt: Runtime, spec: ToolPolicySpec, rules: seq<Rule>, f: Finding)
    ensures VerdictOf(MatcherFor(rt, spec), [map[]] + rules, f) == Keep
  {
    assert RuleMatches(rt, spec, f, map[]);
  }

  lemma {:induction false} FirstMatchAppend(m: Matcher, rules: seq<Rule>, more: seq<Rule>, f: Finding)
    ensures FirstMatch(m, rules + more, f) ==
            if FirstMatch(m, rules, f).Some? then FirstMatch(m, rules, f) else FirstMatch(m, more, f)
  {
    if rules == [] {
      assert rules + more == more;
    } else {
      assert (rules + more)[1..] == rules[1..] + more;
      FirstMatchAppend(m, rules[1..], more, f);
    }
  }

  /** Appending rules only moves findings from remaining to accepted: every earlier record stays,
      with its reason and in its order ... */
  lemma {:induction false} AppendingKeepsRecords(
    m: Matcher, rules: seq<Rule>, more: seq<Rule>, record: RecordOf, findings: seq<Finding>)
    ensures Subsequence(AcceptedRecords(m, rules, record, findings), AcceptedRecords(m, rules + more, record, findings))
  {
    if findings != [] {
      var n := |findings| - 1;
      AppendingKeepsRecords(m, rules, more, record, findings[..n]);
      AppendingKeepsVerdict(m, rules, more, findings[n]);
      var verdict := VerdictOf(m, rules + more, findings[n]);
      var a, b := AcceptedRecords(m, rules, record, findings[..n]),
        AcceptedRecords(m, rules + more, record, findings[..n]);
      assert a + [] == a && b + [] == b;
      if verdict.Accept? {
        SubsequenceSnoc(a, b, record(findings[n], verdict.reason));
      }
    }
  }

  /** ... and nothing new remains. */
  lemma {:induction false} AppendingKeepsNothingNew(
    m: Matcher, norm: Finding -> Finding, rules: seq<Rule>, more: seq<Rule>, findings: seq<Finding>)
    ensures Subsequence(Remaining(m, norm, rules + more, findings), Remaining(m, norm, rules, findings))
  {
    if findings != [] {
      var n := |findings| - 1;
      AppendingKeepsNothingNew(m, norm, rules, more, findings[..n]);
      AppendingKeepsVerdict(m, rules, more, findings[n]);
      var a, b := Remaining(m, norm, rules + more, findings[..n]), Remaining(m, norm, rules, findings[..n]);
      assert a + [] == a && b + [] == b;
      SubsequenceSnoc(a, b, norm(findings[n]));
    }
  }

  lemma AppendingKeepsVerdict(m: Matcher, rules: seq<Rule>, more: seq<Rule>, f: Finding)
    ensures VerdictOf(m, rules, f).Accept? ==> VerdictOf(m, rules + more, f) == VerdictOf(m, rules, f)
  {
    FirstMatchAppend(m, rules, more, f);
  }

  /** Every finding is either remaining or recorded. */
  lemma {:induction false} AcceptancePartitions(m: Matcher, norm: Finding -> Finding, rules: seq<Rule>,
      record: RecordOf, findings: seq<Finding>)
    ensures |Remaining(m, norm, rules, findings)| + |AcceptedRecords(m, rules, record, findings)| == |findings|
  {
    if findings != [] {
      AcceptancePartitions(m, norm, rules, record, findings[..|findings| - 1]);
    }
  }

  // ----- dry run of scanner/core/finding_policy_validate.py -----

  function WouldAccept(m: Matcher, rules: seq<Rule>, samples: seq<Finding>): nat {
    if samples == [] then 0
    else
      WouldAccept(m, rules, samples[..|samples| - 1]) +
      if FirstMatch(m, rules, samples[|samples| - 1]).Some? then 1 else 0
  }

  method DryRunCount(m: Matcher, rules: seq<Rule>, samples: seq<Finding>) returns (count: nat)
    ensures count == WouldAccept(m, rules, samples)
  {
    count := 0;
    for i := 0 to |samples|
      invariant count == WouldAccept(m, rules, samples[..i])
    {
      assert samples[..i + 1][..i] == samples[..i];
      NoMatch(m, rules, samples[i]);
      for j := 0 to |rules|
        invariant count == WouldAccept(m, rules, samples[..i])
        invariant forall k :: 0 <= k < j ==> !m(samples[i], rules[k])
      {
        if m(samples[i], rules[j]) {
          count := count + 1;
          break;
        }
      }
    }
    assert samples[..|samples|] == samples;
  }

  /** Samples whose first matching rule is the empty object. */
  function Shadowed(m: Matcher, rules: seq<Rule>, samples: seq<Finding>): nat {
    if samples == [] then 0
    else
      Shadowed(m, rules, samples[..|samples| - 1]) +
      if FirstMatch(m, rules, samples[|samples| - 1]) == Some(map[]) then 1 else 0
  }

  /** The dry run over-counts exactly the shadowed samples, so it agrees with the engine iff there
      are none. */
  lemma {:induction false} DryRunAgrees(m: Matcher, rules: seq<Rule>, record: RecordOf, samples: seq<Finding>)
    ensures WouldAccept(m, rules, samples) ==
            |AcceptedRecords(m, rules, record, samples)| + Shadowed(m, rules, samples)
  {
    if samples != [] {
      DryRunAgrees(m, rules, record, samples[..|samples| - 1]);
    }
  }

  lemma {:induction false} NonEmptyRulesDoNotShadow(m: Matcher, rules: seq<Rule>, samples: seq<Finding>)
    requires forall r :: r in rules ==> r != map[]
    ensures Shadowed(m, rules, samples) == 0
  {
    if samples != [] {
      NonEmptyRulesDoNotShadow(m, rules, samples[..|samples| - 1]);
      FirstMatchIsSome(m, rules, samples[|samples| - 1]);
    }
  }
}

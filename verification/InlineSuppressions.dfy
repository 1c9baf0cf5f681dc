/** Inline suppression comments of scanner/core/inline_suppressions.py, from the parsed index on. */
module InlineSuppressions {
  import opened Collections
  import opened Findings
  import opened PolicyMatching

  datatype LineSuppressions = LineSuppressions(
    nosecAll: bool, nosecIds: set<string>,
    nosemgrepAll: bool, nosemgrepIds: set<string>,
    sscAcceptAll: bool, sscAcceptIds: set<string>,
    gitleaksAllow: bool,
    eslintDisableNext: set<string>, eslintDisableNextAll: bool,
    eslintDisableLine: set<string>, eslintDisableLineAll: bool,
    reason: string, sourceLine: string)

  datatype Entry = Entry(path: string, line: int, sups: seq<LineSuppressions>)

  /** The dictionary (path, line) -> suppressions in insertion order; keys are unique. */
  type Index = seq<Entry>

  /** Whether nosec and nosemgrep comments count for other tools too. */
  datatype CrossTool = CrossTool(nosec: bool, nosemgrep: bool)

  datatype Config = Config(enabled: bool, lineLookback: nat, cross: CrossTool)

  // ----- matching one comment -----

  predicate EndsWith(s: string, tail: string) {
    |tail| <= |s| && s[|s| - |tail|..] == tail
  }

  predicate RuleIdMatches(ruleId: string, allowed: set<string>, allowAll: bool) {
    var rid := Strip(ruleId);
    || allowAll
    || (&& rid != ""
        && exists item :: item in allowed &&
                          var candidate := Strip(item);
                          && candidate != ""
                          && (|| Upper(candidate) == Upper(rid)
                              || Contains(rid, candidate)
                              || EndsWith(rid, "." + candidate) || EndsWith(rid, "/" + candidate)))
  }

  predicate EslintMatches(ruleId: string, sup: LineSuppressions, onNextLine: bool) {
    var rid := Strip(ruleId);
    if onNextLine then
      sup.eslintDisableNextAll || (sup.eslintDisableNext != {} && (rid == "" || rid in sup.eslintDisableNext))
    else
      sup.eslintDisableLineAll || (sup.eslintDisableLine != {} && (rid == "" || rid in sup.eslintDisableLine))
  }

  predicate SscAccepts(ruleId: string, sup: LineSuppressions) {
    sup.sscAcceptAll || RuleIdMatches(ruleId, sup.sscAcceptIds, false)
  }

  /** The tag of the first marker that matches, in the order the tool tries them. */
  function MatchForTool(toolKey: string, ruleId: string, sup: LineSuppressions, onNextLine: bool,
      cross: CrossTool): Option<string> {
    var key := Lower(toolKey);
    var nosec := RuleIdMatches(ruleId, sup.nosecIds, sup.nosecAll);
    var nosemgrep := RuleIdMatches(ruleId, sup.nosemgrepIds, sup.nosemgrepAll);
    if key == "bandit" then
      if nosec then Some("nosec")
      else if cross.nosemgrep && nosemgrep then Some("nosemgrep")
      else if SscAccepts(ruleId, sup) then Some("ssc:accept") else None
    else if key == "semgrep" then
      if nosemgrep then Some("nosemgrep")
      else if cross.nosec && nosec then Some("nosec")
      else if SscAccepts(ruleId, sup) then Some("ssc:accept") else None
    else if key == "eslint" then
      if EslintMatches(ruleId, sup, onNextLine)
      then Some(if onNextLine then "eslint-disable-next-line" else "eslint-disable-line")
      else if SscAccepts(ruleId, sup) then Some("ssc:accept") else None
    else if key == "gitleaks" then
      if sup.gitleaksAllow then Some("gitleaks:allow")
      else if SscAccepts(ruleId, sup) then Some("ssc:accept") else None
    else
      if cross.nosec && nosec then Some("nosec")
      else if cross.nosemgrep && nosemgrep then Some("nosemgrep")
      else if SscAccepts(ruleId, sup) then Some("ssc:accept") else None
  }

  function BeforeMark(s: string, mark: string): string {
    if s == "" || mark <= s then "" else [s[0]] + BeforeMark(s[1..], mark)
  }

  /** A comment on a line whose code is left open applies to the following lines too. */
  predicate LineContinues(sourceLine: string) {
    var code := StripRight(BeforeMark(BeforeMark(sourceLine, "#"), "//"));
    code != "" && code[|code| - 1] in {'(', ',', '\\', '[', '{', '+'}
  }

  // ----- one finding -----

  datatype Hit = Hit(reason: string, tag: string)

  /** What one comment does to the finding when it stands `offset` lines above it; a negative
      offset, possible in the basename pass only, is a comment below the finding. */
  function TrySuppression(toolKey: string, ruleId: string, sup: LineSuppressions, offset: int,
      cross: CrossTool): Option<Hit> {
    var onNextLine := offset == 1;
    if offset > 0 && !(onNextLine && Lower(toolKey) == "eslint") && !LineContinues(sup.sourceLine) then None
    else
      match MatchForTool(toolKey, ruleId, sup, onNextLine, cross)
      case None => None
      case Some(tag) => Some(Hit(if sup.reason != "" then sup.reason else "Suppressed via inline " + tag, tag))
  }

  /** The uninterpreted part of one comment's effect, so that the search can be reasoned about alone. */
  type Effect = (LineSuppressions, int) -> Option<Hit>

  function EffectOf(toolKey: string, ruleId: string, cross: CrossTool): Effect {
    (sup, offset) => TrySuppression(toolKey, ruleId, sup, offset, cross)
  }

  function FirstHit(effect: Effect, sups: seq<LineSuppressions>, offset: int): Option<Hit> {
    if sups == [] then None
    else if effect(sups[0], offset).Some? then effect(sups[0], offset)
    else FirstHit(effect, sups[1..], offset)
  }

  function At(index: Index, path: string, line: int): seq<LineSuppressions> {
    if index == [] then []
    else if index[0].path == path && index[0].line == line then index[0].sups
    else At(index[1..], path, line)
  }

  /** First pass: the finding's own path, at offsets from..lookback. */
  function ExactPass(effect: Effect, index: Index, path: string, line: int, from: nat, lookback: nat): Option<Hit>
    decreases lookback + 1 - from
  {
    if from > lookback then None
    else if line - from <= 0 then ExactPass(effect, index, path, line, from + 1, lookback)
    else
      var hit := FirstHit(effect, At(index, path, line - from), from);
      if hit.Some? then hit else ExactPass(effect, index, path, line, from + 1, lookback)
  }

  function Basename(path: string): string {
    if path == "" || path[|path| - 1] == '/' then "" else Basename(path[..|path| - 1]) + [path[|path| - 1]]
  }

  function Distance(a: int, b: int): nat {
    if a < b then b - a else a - b
  }

  /** Second pass: any indexed file with the same base name, near the finding's line. */
  function BasenamePass(effect: Effect, index: Index, base: string, line: int, lookback: nat): Option<Hit> {
    if index == [] then None
    else
      var e := index[0];
      var hit := if Basename(e.path) == base && Distance(e.line, line) <= lookback
                 then FirstHit(effect, e.sups, line - e.line) else None;
      if hit.Some? then hit else BasenamePass(effect, index[1..], base, line, lookback)
  }

  function Search(effect: Effect, index: Index, path: string, line: int, lookback: nat): Option<Hit> {
    if line <= 0 then None
    else
      var exact := ExactPass(effect, index, path, line, 0, lookback);
      if exact.Some? then exact
      else if Basename(path) != "" && Basename(path) != path
        then BasenamePass(effect, index, Basename(path), line, lookback)
      else None
  }

  /** The nested loops of is_finding_inline_suppressed; `path` is already relative to the target. */
  method IsFindingInlineSuppressed(effect: Effect, index: Index, path: string, line: int, lookback: nat)
    returns (hit: Option<Hit>)
    ensures hit == Search(effect, index, path, line, lookback)
  {
    if line <= 0 {
      return None;
    }
    for offset := 0 to lookback + 1
      invariant ExactPass(effect, index, path, line, offset, lookback) ==
          ExactPass(effect, index, path, line, 0, lookback)
    {
      if line - offset > 0 {
        hit := ScanLine(effect, At(index, path, line - offset), offset);
        if hit.Some? {
          return;
        }
      }
    }
    var base := Basename(path);
    if base != "" && base != path {
      for i := 0 to |index|
        invariant BasenamePass(effect, index[i..], base, line, lookback) ==
            BasenamePass(effect, index, base, line, lookback)
      {
        assert index[i..][1..] == index[i + 1..];
        if Basename(index[i].path) == base && Distance(index[i].line, line) <= lookback {
          hit := ScanLine(effect, index[i].sups, line - index[i].line);
          if hit.Some? {
            return;
          }
        }
      }
    }
    hit := None;
  }

  method ScanLine(effect: Effect, sups: seq<LineSuppressions>, offset: int) returns (hit: Option<Hit>)
    ensures hit == FirstHit(effect, sups, offset)
  {
    for i := 0 to |sups|
      invariant FirstHit(effect, sups[i..], offset) == FirstHit(effect, sups, offset)
    {
      assert sups[i..][1..] == sups[i + 1..];
      hit := effect(sups[i], offset);
      if hit.Some? {
        return;
      }
    }
    hit := None;
  }

  // ----- locality -----

  lemma {:induction false} FirstHitIff(effect: Effect, sups: seq<LineSuppressions>, offset: int)
    ensures FirstHit(effect, sups, offset).Some? <==> exists sup :: sup in sups && effect(sup, offset).Some?
  {
    if sups != [] {
      FirstHitIff(effect, sups[1..], offset);
      assert sups == [sups[0]] + sups[1..];
    }
  }

  /** A comment `offset` lines above the finding, within the lookback, that suppresses it. */
  ghost predicate ExactReason(effect: Effect, index: Index, path: string, line: int, lookback: nat, offset: nat,
      sup: LineSuppressions) {
    offset <= lookback && line - offset > 0 && sup in At(index, path, line - offset) && effect(sup, offset).Some?
  }

  lemma {:induction false} ExactPassIff(effect: Effect, index: Index, path: string, line: int, from: nat, lookback: nat)
    ensures ExactPass(effect, index, path, line, from, lookback).Some? <==>
            exists offset: nat, sup :: from <= offset && ExactReason(effect, index, path, line, lookback, offset, sup)
    decreases lookback + 1 - from
  {
    if from <= lookback {
      ExactPassIff(effect, index, path, line, from + 1, lookback);
      if line - from > 0 {
        FirstHitIff(effect, At(index, path, line - from), from);
        if FirstHit(effect, At(index, path, line - from), from).Some? {
          var sup :| sup in At(index, path, line - from) && effect(sup, from).Some?;
          assert ExactReason(effect, index, path, line, lookback, from, sup);
        }
      }
    }
  }

  ghost predicate BasenameReason(effect: Effect, index: Index, base: string, line: int, lookback: nat, e: Entry,
      sup: LineSuppressions) {
    && e in index && Basename(e.path) == base && Distance(e.line, line) <= lookback
    && sup in e.sups && effect(sup, line - e.line).Some?
  }

  lemma {:induction false} BasenamePassIff(effect: Effect, index: Index, base: string, line: int, lookback: nat)
    ensures BasenamePass(effect, index, base, line, lookback).Some? <==>
            exists e, sup :: BasenameReason(effect, index, base, line, lookback, e, sup)
  {
    if index != [] {
      BasenamePassIff(effect, index[1..], base, line, lookback);
      FirstHitIff(effect, index[0].sups, line - index[0].line);
      assert index == [index[0]] + index[1..];
      if BasenamePass(effect, index[1..], base, line, lookback).Some? {
        var e, sup :| BasenameReason(effect, index[1..], base, line, lookback, e, sup);
        assert BasenameReason(effect, index, base, line, lookback, e, sup);
      }
      if FirstHit(effect, index[0].sups, line - index[0].line).Some? {
        var sup :| sup in index[0].sups && effect(sup, line - index[0].line).Some?;
        assert Basename(index[0].path) == base && Distance(index[0].line, line) <= lookback ==>
            BasenameReason(effect, index, base, line, lookback, index[0], sup);
      }
      if e, sup :| BasenameReason(effect, index, base, line, lookback, e, sup) {
        assert e == index[0] || BasenameReason(effect, index[1..], base, line, lookback, e, sup);
      }
    }
  }

  /** A finding is suppressed iff a comment at its own path stands on one of the lines
      line - lookback .. line and applies, or, when the path has a directory part, a comment of a
      file with the same base name stands at most `lookback` lines away and applies. */
  ghost predicate HasReason(effect: Effect, index: Index, path: string, line: int, lookback: nat) {
    && line > 0
    && (|| (exists offset: nat, sup :: ExactReason(effect, index, path, line, lookback, offset, sup))
        || (&& Basename(path) != "" && Basename(path) != path
            && exists e, sup :: BasenameReason(effect, index, Basename(path), line, lookback, e, sup)))
  }

  lemma SuppressedIffReason(effect: Effect, index: Index, path: string, line: int, lookback: nat)
    ensures Search(effect, index, path, line, lookback).Some? <==> HasReason(effect, index, path, line, lookback)
  {
    ExactPassIff(effect, index, path, line, 0, lookback);
    BasenamePassIff(effect, index, Basename(path), line, lookback);
    if exists offset: nat, sup :: ExactReason(effect, index, path, line, lookback, offset, sup) {
      var offset: nat, sup :| ExactReason(effect, index, path, line, lookback, offset, sup);
      assert 0 <= offset && ExactReason(effect, index, path, line, lookback, offset, sup);
    }
  }

  // ----- monotonicity -----

  /** `more` has every comment of `index`, and perhaps others at the same or at new places. */
  ghost predicate Extends(index: Index, more: Index) {
    && (forall path, line, sup :: sup in At(index, path, line) ==> sup in At(more, path, line))
    && forall e, sup :: e in index && sup in e.sups ==>
                          exists e' :: e' in more && e'.path == e.path && e'.line == e.line && sup in e'.sups
  }

  /** Enlarging the lookback or adding comments never un-suppresses a finding. */
  lemma SuppressionIsMonotone(effect: Effect, index: Index, more: Index, path: string, line: int, lookback: nat,
      lookback': nat)
    requires Extends(index, more) && lookback <= lookback'
    requires Search(effect, index, path, line, lookback).Some?
    ensures Search(effect, more, path, line, lookback').Some?
  {
    SuppressedIffReason(effect, index, path, line, lookback);
    SuppressedIffReason(effect, more, path, line, lookback');
    if exists offset: nat, sup :: ExactReason(effect, index, path, line, lookback, offset, sup) {
      var offset: nat, sup :| ExactReason(effect, index, path, line, lookback, offset, sup);
      assert ExactReason(effect, more, path, line, lookback', offset, sup);
    } else {
      var e, sup :| BasenameReason(effect, index, Basename(path), line, lookback, e, sup);
      var e' :| e' in more && e'.path == e.path && e'.line == e.line && sup in e'.sups;
      assert BasenameReason(effect, more, Basename(path), line, lookback', e', sup);
    }
  }

  // ----- the filter over a tool's findings -----

  /** Python's `f.get(k0) or f.get(k1) or ...`, with the last value when none is truthy. */
  function FirstTruthy(f: Finding, keys: seq<string>, otherwise: Val): Val {
    if keys == [] then otherwise
    else if Truthy(Get(f, keys[0], Null)) then f[keys[0]]
    else FirstTruthy(f, keys[1..], otherwise)
  }

  function FindingPath(f: Finding): string {
    Str(FirstTruthy(f, ["path", "file", "filename", "file_path"], Text("")))
  }

  function FindingLine(rt: Runtime, f: Finding): int {
    var start := Get(f, "start", Null);
    var raw := FirstTruthy(f, ["line", "line_number"],
      if start.Bool? || start.Num? || start.Text? then start else Null);
    match ToInt(rt, if Truthy(raw) then raw else Num(0))
    case Some(n) => n
    case None => 0
  }

  function FindingRuleId(f: Finding): string {
    Strip(Str(FirstTruthy(f, ["rule_id", "check_id", "test_id", "id", "type"], Text(""))))
  }

  function TrimTrailingSlashes(s: string): string {
    if s != "" && s[|s| - 1] == '/' then TrimTrailingSlashes(s[..|s| - 1]) else s
  }

  /** The repository-relative path the index is looked up with. */
  function RelativePath(path: string, targetRoot: string): string {
    var p := Slashes(path);
    var root := TrimTrailingSlashes(Slashes(targetRoot));
    if root != "" && root + "/" <= p then p[|root| + 1..]
    else if Unmounted(p) != p then Unmounted(p)
    else TrimSlashes(p)
  }

  /** What the loop asks about one finding. */
  type Judge = Finding -> Option<Hit>

  function Judgement(rt: Runtime, index: Index, root: string, toolKey: string, config: Config,
      f: Finding): Option<Hit> {
    if FindingPath(f) == "" || FindingLine(rt, f) <= 0 then None
    else
      Search(EffectOf(toolKey, FindingRuleId(f), config.cross), index,
             RelativePath(FindingPath(f), root), FindingLine(rt, f), config.lineLookback)
  }

  function JudgeFor(rt: Runtime, index: Index, root: string, toolKey: string, config: Config): Judge {
    f => Judgement(rt, index, root, toolKey, config, f)
  }

  type InlineRecord = (Finding, Hit) -> Record

  function Unsuppressed(judge: Judge, findings: seq<Finding>): seq<Finding> {
    if findings == [] then []
    else
      var n := |findings| - 1;
      Unsuppressed(judge, findings[..n]) + if judge(findings[n]).None? then [findings[n]] else []
  }

  function InlineAccepted(judge: Judge, record: InlineRecord, findings: seq<Finding>): seq<Record> {
    if findings == [] then []
    else
      var n := |findings| - 1;
      InlineAccepted(judge, record, findings[..n]) +
      match judge(findings[n])
      case Some(hit) => [record(findings[n], hit)]
      case None => []
  }

  method ApplyInlineSuppressions(rt: Runtime, index: Index, root: string, toolKey: string, config: Config,
      record: InlineRecord, findings: seq<Finding>)
    returns (remaining: seq<Finding>, accepted: seq<Record>)
    ensures index == [] || !config.enabled ==> remaining == findings && accepted == []
    ensures
      var judge := JudgeFor(rt, index, root, toolKey, config);
      index != [] && config.enabled ==>
        remaining == Unsuppressed(judge, findings) && accepted == InlineAccepted(judge, record, findings)
  {
    if findings == [] || index == [] || !config.enabled {
      return findings, [];
    }
    remaining, accepted := FilterBy(JudgeFor(rt, index, root, toolKey, config), record, findings);
  }

  /** The filter loop. */
  method FilterBy(judge: Judge, record: InlineRecord, findings: seq<Finding>)
    returns (remaining: seq<Finding>, accepted: seq<Record>)
    ensures remaining == Unsuppressed(judge, findings) && accepted == InlineAccepted(judge, record, findings)
  {
    remaining, accepted := [], [];
    for i := 0 to |findings|
      invariant remaining == Unsuppressed(judge, findings[..i])
      invariant accepted == InlineAccepted(judge, record, findings[..i])
    {
      assert findings[..i + 1][..i] == findings[..i];
      var hit := judge(findings[i]);
      if hit.Some? {
        accepted := accepted + [record(findings[i], hit.value)];
      } else {
        remaining := remaining + [findings[i]];
      }
    }
    assert findings[..|findings|] == findings;
  }

  /** Nothing is lost, and what remains is exactly the unsuppressed findings in order. */
  lemma {:induction false} InlinePartitions(judge: Judge, record: InlineRecord, findings: seq<Finding>)
    ensures |Unsuppressed(judge, findings)| + |InlineAccepted(judge, record, findings)| == |findings|
    ensures Unsuppressed(judge, findings) == Filter(f => judge(f).None?, findings)
    ensures forall f :: f in Unsuppressed(judge, findings) <==> f in findings && judge(f).None?
  {
    if findings != [] {
      var n := |findings| - 1;
      InlinePartitions(judge, record, findings[..n]);
      assert findings == findings[..n] + [findings[n]];
    }
  }

  /** A judge that suppresses more leaves a part of what the other one leaves, in order. */
  lemma {:induction false} StricterJudgeLeavesLess(judge: Judge, stricter: Judge, findings: seq<Finding>)
    requires forall f :: judge(f).Some? ==> stricter(f).Some?
    ensures Subsequence(Unsuppressed(stricter, findings), Unsuppressed(judge, findings))
  {
    if findings != [] {
      var n := |findings| - 1;
      StricterJudgeLeavesLess(judge, stricter, findings[..n]);
      var a, b := Unsuppressed(stricter, findings[..n]), Unsuppressed(judge, findings[..n]);
      assert a + [] == a && b + [] == b;
      SubsequenceSnoc(a, b, findings[n]);
    }
  }

  lemma JudgementIsMonotone(rt: Runtime, index: Index, more: Index, root: string, toolKey: string,
                            config: Config, lookback: nat, f: Finding)
    requires Extends(index, more) && config.lineLookback <= lookback
    requires Judgement(rt, index, root, toolKey, config, f).Some?
    ensures Judgement(rt, more, root, toolKey, config.(lineLookback := lookback), f).Some?
  {
    SuppressionIsMonotone(EffectOf(toolKey, FindingRuleId(f), config.cross), index, more,
                          RelativePath(FindingPath(f), root), FindingLine(rt, f), config.lineLookback, lookback);
  }

  /** End to end: more comments and a larger lookback only take findings away. */
  lemma FilterIsMonotone(rt: Runtime, index: Index, more: Index, root: string, toolKey: string,
                         config: Config, lookback: nat, findings: seq<Finding>)
    requires Extends(index, more) && config.lineLookback <= lookback
    ensures Subsequence(Unsuppressed(JudgeFor(rt, more, root, toolKey, config.(lineLookback := lookback)), findings),
                        Unsuppressed(JudgeFor(rt, index, root, toolKey, config), findings))
  {
    var judge := JudgeFor(rt, index, root, toolKey, config);
    var stricter := JudgeFor(rt, more, root, toolKey, config.(lineLookback := lookback));
    forall f | judge(f).Some? ensures stricter(f).Some? {
      JudgementIsMonotone(rt, index, more, root, toolKey, config, lookback, f);
    }
    StricterJudgeLeavesLess(judge, stricter, findings);
  }
}

/** When an inline comment takes a finding out of the report, in terms of the marks in the comment,
    the tool, and where the comment stands: scanner/core/inline_suppressions.py. */
module SuppressionMeaning {
  import opened Collections
  import opened Findings
  import opened PolicyMatching
  import opened InlineSuppressions
  import opened TextMeaning

  // ----- the marks of a comment -----

  /** An id is about a rule if it is the rule id up to case, or a part of it. */
  predicate Concerns(id: string, rule: string) {
    id != "" && (SameUpToCase(id, rule) || Occurs(id, rule))
  }

  /** One of the ids, stripped, is about the rule. */
  predicate Lists(ids: set<string>, rule: string) {
    rule != "" && exists id :: id in ids && Concerns(Strip(id), rule)
  }

  lemma ConcernsIff(id: string, rule: string)
    ensures Concerns(id, rule) <==>
            (&& id != ""
             && (|| Upper(id) == Upper(rule) || Contains(rule, id)
                 || EndsWith(rule, "." + id) || EndsWith(rule, "/" + id)))
  {
    SameUpper(id, rule);
    ContainsIff(rule, id);
    if EndsWith(rule, "." + id) {
      EndOccurs(rule, id, '.');
    }
    if EndsWith(rule, "/" + id) {
      EndOccurs(rule, id, '/');
    }
  }

  lemma RuleIdMatchesIff(ruleId: string, ids: set<string>, all: bool)
    ensures RuleIdMatches(ruleId, ids, all) <==> all || Lists(ids, Strip(ruleId))
  {
    forall id ensures Concerns(Strip(id), Strip(ruleId)) <==>
        (&& Strip(id) != ""
         && (|| Upper(Strip(id)) == Upper(Strip(ruleId)) || Contains(Strip(ruleId), Strip(id))
             || EndsWith(Strip(ruleId), "." + Strip(id)) || EndsWith(Strip(ruleId), "/" + Strip(id))))
    {
      ConcernsIff(Strip(id), Strip(ruleId));
    }
  }

  predicate Nosec(rule: string, sup: LineSuppressions) {
    sup.nosecAll || Lists(sup.nosecIds, rule)
  }

  predicate Nosemgrep(rule: string, sup: LineSuppressions) {
    sup.nosemgrepAll || Lists(sup.nosemgrepIds, rule)
  }

  predicate SscAccept(rule: string, sup: LineSuppressions) {
    sup.sscAcceptAll || Lists(sup.sscAcceptIds, rule)
  }

  /** ESLint names its rules in full; a finding without a rule is covered by any list. */
  predicate EslintDisable(rule: string, all: bool, ids: set<string>) {
    all || rule in ids || (rule == "" && ids != {})
  }

  /** Tool keys are compared up to case. */
  predicate Is(toolKey: string, tool: string) {
    SameUpToCase(toolKey, tool)
  }

  /** Whether a mark in the comment, here given by its tag, counts for a rule of a tool.  ESLint and Gitleaks
      have marks of their own and read no nosec or nosemgrep; Bandit always reads nosec and Semgrep
      nosemgrep; whatever else reads these two does so if configured.  Everyone reads ssc:accept. */
  predicate Counts(tag: string, toolKey: string, rule: string, sup: LineSuppressions, nextLine: bool,
                   cross: CrossTool) {
    var shared := !Is(toolKey, "eslint") && !Is(toolKey, "gitleaks");
    || (tag == "ssc:accept" && SscAccept(rule, sup))
    || (tag == "nosec" && shared && (cross.nosec || Is(toolKey, "bandit")) && Nosec(rule, sup))
    || (tag == "nosemgrep" && shared && (cross.nosemgrep || Is(toolKey, "semgrep")) && Nosemgrep(rule, sup))
    || (tag == "gitleaks:allow" && Is(toolKey, "gitleaks") && sup.gitleaksAllow)
    || (tag == "eslint-disable-line" && Is(toolKey, "eslint") && !nextLine
        && EslintDisable(rule, sup.eslintDisableLineAll, sup.eslintDisableLine))
    || (tag == "eslint-disable-next-line" && Is(toolKey, "eslint") && nextLine
        && EslintDisable(rule, sup.eslintDisableNextAll, sup.eslintDisableNext))
  }

  /** Of two marks that count, the one of the tool itself comes before the others, nosec otherwise
      before nosemgrep, and ssc:accept last. */
  predicate Precedes(tag: string, other: string, toolKey: string) {
    || other == "ssc:accept"
    || (tag == "nosec" && other == "nosemgrep" && !Is(toolKey, "semgrep"))
    || (tag == "nosemgrep" && other == "nosec" && Is(toolKey, "semgrep"))
  }

  lemma OneTool(toolKey: string)
    ensures Is(toolKey, "bandit") <==> Lower(toolKey) == "bandit"
    ensures Is(toolKey, "semgrep") <==> Lower(toolKey) == "semgrep"
    ensures Is(toolKey, "eslint") <==> Lower(toolKey) == "eslint"
    ensures Is(toolKey, "gitleaks") <==> Lower(toolKey) == "gitleaks"
  {
    SameLower(toolKey, "bandit");
    SameLower(toolKey, "semgrep");
    SameLower(toolKey, "eslint");
    SameLower(toolKey, "gitleaks");
  }

  /** A comment matches if and only if one of its marks counts; it is credited to the first of them. */
  lemma MatchIs(toolKey: string, ruleId: string, sup: LineSuppressions, nextLine: bool, cross: CrossTool)
    ensures
      var found, rule := MatchForTool(toolKey, ruleId, sup, nextLine, cross), Strip(ruleId);
      && (found.None? ==> forall tag :: !Counts(tag, toolKey, rule, sup, nextLine, cross))
      && (found.Some? ==> Counts(found.value, toolKey, rule, sup, nextLine, cross))
      && (found.Some? ==> forall tag :: Counts(tag, toolKey, rule, sup, nextLine, cross) ==>
                            tag == found.value || Precedes(found.value, tag, toolKey))
  {
    RuleIdMatchesIff(ruleId, sup.nosecIds, sup.nosecAll);
    RuleIdMatchesIff(ruleId, sup.nosemgrepIds, sup.nosemgrepAll);
    RuleIdMatchesIff(ruleId, sup.sscAcceptIds, false);
    MatchIsFor(toolKey, ruleId, sup, nextLine, cross,
               Nosec(Strip(ruleId), sup), Nosemgrep(Strip(ruleId), sup), SscAccept(Strip(ruleId), sup));
  }

  /** The same with the three readings of the rule id settled. */
  lemma MatchIsFor(toolKey: string, ruleId: string, sup: LineSuppressions, nextLine: bool, cross: CrossTool,
                   nosec: bool, nosemgrep: bool, accept: bool)
    requires RuleIdMatches(ruleId, sup.nosecIds, sup.nosecAll) == nosec == Nosec(Strip(ruleId), sup)
    requires RuleIdMatches(ruleId, sup.nosemgrepIds, sup.nosemgrepAll) == nosemgrep == Nosemgrep(Strip(ruleId), sup)
    requires SscAccepts(ruleId, sup) == accept == SscAccept(Strip(ruleId), sup)
    ensures
      var found, rule := MatchForTool(toolKey, ruleId, sup, nextLine, cross), Strip(ruleId);
      && (found.None? ==> forall tag :: !Counts(tag, toolKey, rule, sup, nextLine, cross))
      && (found.Some? ==> Counts(found.value, toolKey, rule, sup, nextLine, cross))
      && (found.Some? ==> forall tag :: Counts(tag, toolKey, rule, sup, nextLine, cross) ==>
                            tag == found.value || Precedes(found.value, tag, toolKey))
  {
    OneTool(toolKey);
  }

  // ----- where a comment reaches -----

  /** A comment begins here. */
  predicate MarkAt(line: string, i: nat) {
    i < |line| && (line[i] == '#' || (i + 1 < |line| && line[i] == '/' && line[i + 1] == '/'))
  }

  predicate CommentedAt(line: string, k: nat) {
    exists i :: 0 <= i <= k && MarkAt(line, i)
  }

  /** The last character of the code on a line, blanks aside, leaves a statement open. */
  predicate LeftOpen(line: string) {
    exists k :: 0 <= k < |line| && EndsCode(line, k) && line[k] in {'(', ',', '\\', '[', '{', '+'}
  }

  predicate EndsCode(line: string, k: nat)
    requires k < |line|
  {
    && !IsSpace(line[k]) && !CommentedAt(line, k)
    && forall j :: k < j < |line| ==> IsSpace(line[j]) || CommentedAt(line, j)
  }

  lemma {:induction false} BeforeMarkIs(s: string, mark: string)
    requires mark != ""
    ensures BeforeMark(s, mark) <= s
    ensures forall i :: 0 <= i < |BeforeMark(s, mark)| ==> !OccursAt(mark, s, i)
    ensures BeforeMark(s, mark) != s ==> OccursAt(mark, s, |BeforeMark(s, mark)|)
  {
    if s != "" && mark <= s {
      assert OccursAt(mark, s, 0);
    } else if s != "" {
      var t := s[1..];
      BeforeMarkIs(t, mark);
      assert s == [s[0]] + t;
      forall i | 0 <= i <= |t| ensures OccursAt(mark, t, i) <==> OccursAt(mark, s, i + 1) {
        if i + |mark| <= |t| {
          assert t[i..i + |mark|] == s[i + 1..i + 1 + |mark|];
        }
      }
      forall i | 0 <= i < |BeforeMark(s, mark)| ensures !OccursAt(mark, s, i) {
        if i > 0 {
          assert !OccursAt(mark, t, i - 1);
        }
      }
    }
  }

  lemma HashAt(s: string, i: nat)
    ensures OccursAt("#", s, i) <==> i < |s| && s[i] == '#'
  {
    if i < |s| {
      assert s[i..i + 1] == [s[i]];
    }
  }

  lemma SlashesAt(s: string, i: nat)
    ensures OccursAt("//", s, i) <==> i + 1 < |s| && s[i] == '/' && s[i + 1] == '/'
  {
    if i + 1 < |s| {
      assert s[i..i + 2] == [s[i], s[i + 1]];
    }
  }

  /** The code is what stands before the first mark. */
  lemma CodeIs(line: string) returns (cut: nat)
    ensures cut <= |line| && BeforeMark(BeforeMark(line, "#"), "//") == line[..cut]
    ensures forall i :: 0 <= i < cut ==> !MarkAt(line, i)
    ensures cut < |line| ==> MarkAt(line, cut)
  {
    var hash := BeforeMark(line, "#");
    var code := BeforeMark(hash, "//");
    cut := |code|;
    BeforeMarkIs(line, "#");
    BeforeMarkIs(hash, "//");
    HashAt(line, |hash|);
    SlashesAt(hash, cut);
    forall i | 0 <= i < cut ensures !MarkAt(line, i) {
      HashAt(line, i);
      SlashesAt(hash, i);
    }
  }

  lemma LineContinuesIff(line: string)
    ensures LineContinues(line) <==> LeftOpen(line)
  {
    var cut := CodeIs(line);
    var code := line[..cut];
    assert forall k :: 0 <= k < |line| ==> (k < cut <==> !CommentedAt(line, k));
    var shown := StripRight(code);
    var blanks := StripRightIs(code);
    var last := |shown| - 1;
    forall j | last < j < cut ensures IsSpace(line[j]) {
      assert line[j] == code[j] == blanks[j - |shown|];
    }
    if shown != "" {
      assert shown[last] == code[last] == line[last];
      assert EndsCode(line, last);
    }
    assert forall k :: 0 <= k < |line| && EndsCode(line, k) ==> k == last;
  }

  /** A comment reaches its own line and, through statements left open, the lines below; that of ESLint
      always reaches the next one. */
  predicate Reaches(toolKey: string, sup: LineSuppressions, offset: int) {
    offset <= 0 || (offset == 1 && Is(toolKey, "eslint")) || LeftOpen(sup.sourceLine)
  }

  /** The comment, `offset` lines above the finding, takes it out of the report under this tag. */
  predicate Silences(tag: string, toolKey: string, rule: string, sup: LineSuppressions, offset: int,
                     cross: CrossTool) {
    Reaches(toolKey, sup, offset) && Counts(tag, toolKey, rule, sup, offset == 1, cross)
  }

  function ReasonOf(sup: LineSuppressions, tag: string): string {
    if sup.reason == "" then "Suppressed via inline " + tag else sup.reason
  }

  lemma TryIs(toolKey: string, ruleId: string, sup: LineSuppressions, offset: int, cross: CrossTool)
    ensures
      var hit := EffectOf(toolKey, ruleId, cross)(sup, offset);
      && (hit.Some? <==> exists tag :: Silences(tag, toolKey, Strip(ruleId), sup, offset, cross))
      && (hit.Some? ==> Silences(hit.value.tag, toolKey, Strip(ruleId), sup, offset, cross)
                        && hit.value.reason == ReasonOf(sup, hit.value.tag))
  {
    LineContinuesIff(sup.sourceLine);
    OneTool(toolKey);
    MatchIs(toolKey, ruleId, sup, offset == 1, cross);
    var found := MatchForTool(toolKey, ruleId, sup, offset == 1, cross);
    if Reaches(toolKey, sup, offset) && found.Some? {
      assert Silences(found.value, toolKey, Strip(ruleId), sup, offset, cross);
    }
  }

  // ----- the comments around a finding -----

  /** Keys of a dictionary are different. */
  ghost predicate UniqueKeys(index: Index) {
    forall i, j :: 0 <= i < j < |index| ==> index[i].path != index[j].path || index[i].line != index[j].line
  }

  /** The two paths end in the same file name. */
  ghost predicate SameFileName(a: string, b: string) {
    exists base :: base != "" && IsBase(a, base) && IsBase(b, base)
  }

  /** On the path of the finding, on its line or at most `lookback` lines above; for a finding with a directory
      also in any file of that name, at most `lookback` lines away. */
  ghost predicate Near(e: Entry, path: string, line: int, lookback: nat) {
    || OnPath(e, path, line, lookback)
    || ('/' in path && SameFileName(e.path, path) && line - lookback <= e.line <= line + lookback)
  }

  predicate OnPath(e: Entry, path: string, line: int, lookback: nat) {
    e.path == path && 0 < e.line && 0 <= line - e.line <= lookback
  }

  /** The comments at a place that silence the finding. */
  ghost predicate SilencedAt(e: Entry, sup: LineSuppressions, tag: string, toolKey: string, rule: string,
                             line: int, cross: CrossTool) {
    sup in e.sups && Silences(tag, toolKey, rule, sup, line - e.line, cross)
  }

  ghost predicate Silenced(index: Index, toolKey: string, rule: string, path: string, line: int, config: Config) {
    && line > 0
    && exists e, sup, tag :: e in index && Near(e, path, line, config.lineLookback)
                             && SilencedAt(e, sup, tag, toolKey, rule, line, config.cross)
  }

  lemma {:induction false} AtIff(index: Index, path: string, line: int, sup: LineSuppressions)
    requires UniqueKeys(index)
    ensures sup in At(index, path, line) <==>
            exists e :: e in index && e.path == path && e.line == line && sup in e.sups
  {
    if index != [] {
      AtIff(index[1..], path, line, sup);
      assert index == [index[0]] + index[1..];
      forall e | e in index[1..] ensures e.path != index[0].path || e.line != index[0].line {
        var i :| 0 <= i < |index[1..]| && index[1..][i] == e;
        assert index[i + 1] == e;
      }
    }
  }

  lemma SameBasename(a: string, b: string)
    ensures SameFileName(a, b) <==> Basename(b) != "" && Basename(a) == Basename(b)
  {
    BasenameIs(a);
    BasenameIs(b);
    if base :| base != "" && IsBase(a, base) && IsBase(b, base) {
      OneBase(a, base);
      OneBase(b, base);
    }
  }

  ghost predicate HitNear(effect: Effect, index: Index, path: string, line: int, lookback: nat, e: Entry,
                          sup: LineSuppressions) {
    e in index && Near(e, path, line, lookback) && sup in e.sups && effect(sup, line - e.line).Some?
  }

  /** The two passes of the search look at the comments near the finding. */
  lemma HasReasonIff(effect: Effect, index: Index, path: string, line: int, lookback: nat)
    requires UniqueKeys(index)
    ensures HasReason(effect, index, path, line, lookback) <==>
            line > 0 && exists e, sup :: HitNear(effect, index, path, line, lookback, e, sup)
  {
    if line > 0 {
      forall e, sup | HitNear(effect, index, path, line, lookback, e, sup)
        ensures HasReason(effect, index, path, line, lookback)
      {
        NearReason(effect, index, path, line, lookback, e, sup);
      }
      if HasReason(effect, index, path, line, lookback) {
        var e, sup := ReasonNear(effect, index, path, line, lookback);
      }
    }
  }

  lemma NearReason(effect: Effect, index: Index, path: string, line: int, lookback: nat, e: Entry,
                   sup: LineSuppressions)
    requires UniqueKeys(index) && line > 0 && HitNear(effect, index, path, line, lookback, e, sup)
    ensures HasReason(effect, index, path, line, lookback)
  {
    if OnPath(e, path, line, lookback) {
      AtIff(index, path, e.line, sup);
      assert ExactReason(effect, index, path, line, lookback, line - e.line, sup);
    } else {
      DirectoryIff(path);
      SameBasename(e.path, path);
      assert BasenameReason(effect, index, Basename(path), line, lookback, e, sup);
    }
  }

  lemma ReasonNear(effect: Effect, index: Index, path: string, line: int, lookback: nat)
    returns (e: Entry, sup: LineSuppressions)
    requires UniqueKeys(index) && HasReason(effect, index, path, line, lookback)
    ensures HitNear(effect, index, path, line, lookback, e, sup)
  {
    if exists offset: nat, sup :: ExactReason(effect, index, path, line, lookback, offset, sup) {
      var offset: nat;
      offset, sup :| ExactReason(effect, index, path, line, lookback, offset, sup);
      AtIff(index, path, line - offset, sup);
      e :| e in index && e.path == path && e.line == line - offset && sup in e.sups;
    } else {
      e, sup :| BasenameReason(effect, index, Basename(path), line, lookback, e, sup);
      DirectoryIff(path);
      SameBasename(e.path, path);
    }
  }

  lemma SilencedIff(index: Index, toolKey: string, ruleId: string, path: string, line: int, config: Config)
    requires UniqueKeys(index)
    ensures Search(EffectOf(toolKey, ruleId, config.cross), index, path, line, config.lineLookback).Some? <==>
            Silenced(index, toolKey, Strip(ruleId), path, line, config)
  {
    var effect, rule, lookback := EffectOf(toolKey, ruleId, config.cross), Strip(ruleId), config.lineLookback;
    SuppressedIffReason(effect, index, path, line, lookback);
    HasReasonIff(effect, index, path, line, lookback);
    if e, sup :| HitNear(effect, index, path, line, lookback, e, sup) {
      TryIs(toolKey, ruleId, sup, line - e.line, config.cross);
      var tag :| Silences(tag, toolKey, rule, sup, line - e.line, config.cross);
      assert SilencedAt(e, sup, tag, toolKey, rule, line, config.cross);
    }
    if Silenced(index, toolKey, rule, path, line, config) {
      var e, sup, tag :| e in index && Near(e, path, line, lookback)
                         && SilencedAt(e, sup, tag, toolKey, rule, line, config.cross);
      TryIs(toolKey, ruleId, sup, line - e.line, config.cross);
      assert HitNear(effect, index, path, line, lookback, e, sup);
    }
  }

  // ----- findings -----

  /** The value of the first of the keys that holds something truthy, "" without one. */
  ghost predicate FirstOf(f: Finding, keys: seq<string>, v: Val) {
    || (exists i :: 0 <= i < |keys| && Holds(f, keys[i], v) && forall j :: 0 <= j < i ==> Lacks(f, keys[j]))
    || (v == Text("") && forall j :: 0 <= j < |keys| ==> Lacks(f, keys[j]))
  }

  predicate Holds(f: Finding, key: string, v: Val) {
    key in f && f[key] == v && Truthy(v)
  }

  predicate Lacks(f: Finding, key: string) {
    key in f ==> !Truthy(f[key])
  }

  lemma {:induction false} FirstTruthyIs(f: Finding, keys: seq<string>)
    ensures FirstOf(f, keys, FirstTruthy(f, keys, Text("")))
  {
    if keys != [] && Lacks(f, keys[0]) {
      var v := FirstTruthy(f, keys, Text(""));
      FirstTruthyIs(f, keys[1..]);
      if i :| 0 <= i < |keys[1..]| && Holds(f, keys[1..][i], v)
              && forall j :: 0 <= j < i ==> Lacks(f, keys[1..][j]) {
        assert keys[1..][i] == keys[i + 1];
        forall j | 0 <= j < i + 1 ensures Lacks(f, keys[j]) {
          assert j > 0 ==> keys[j] == keys[1..][j - 1];
        }
      } else {
        forall j | 0 <= j < |keys| ensures Lacks(f, keys[j]) {
          assert j > 0 ==> keys[j] == keys[1..][j - 1];
        }
      }
    } else if keys != [] {
      assert Holds(f, keys[0], f[keys[0]]);
    }
  }

  function IntOrZero(rt: Runtime, v: Val): int {
    match ToInt(rt, v)
    case Some(n) => n
    case None => 0
  }

  /** What a finding is looked up by; a `start` that is an object is no line. */
  lemma FieldsAre(rt: Runtime, f: Finding)
    ensures exists v :: FirstOf(f, ["path", "file", "filename", "file_path"], v) && FindingPath(f) == Str(v)
    ensures exists v :: FirstOf(f, ["rule_id", "check_id", "test_id", "id", "type"], v)
                        && FindingRuleId(f) == Strip(Str(v))
    ensures exists v :: FirstOf(f, ["line", "line_number"], v)
                        && FindingLine(rt, f) == (if Truthy(v) then IntOrZero(rt, v)
                                                  else if Lacks(f, "start") || "start" !in f || f["start"].Other? then 0
                                                  else IntOrZero(rt, f["start"]))
  {
    FirstTruthyIs(f, ["path", "file", "filename", "file_path"]);
    FirstTruthyIs(f, ["rule_id", "check_id", "test_id", "id", "type"]);
    FirstTruthyIs(f, ["line", "line_number"]);
    var start := Get(f, "start", Null);
    FirstTruthyOr(f, ["line", "line_number"], if start.Bool? || start.Num? || start.Text? then start else Null);
  }

  lemma {:induction false} FirstTruthyOr(f: Finding, keys: seq<string>, otherwise: Val)
    ensures
      var v := FirstTruthy(f, keys, Text(""));
      FirstTruthy(f, keys, otherwise) == if Truthy(v) then v else otherwise
  {
    if keys != [] {
      FirstTruthyOr(f, keys[1..], otherwise);
    }
  }

  /** The root, with slashes for backslashes and no slash at its end. */
  ghost predicate IsRoot(root: string, targetRoot: string) {
    exists tail :: Slashes(targetRoot) == root + tail && AllSlashes(tail) && (root != "" ==> root[|root| - 1] != '/')
  }

  /** The path in the index: below the root, below a mount point, or without the slashes in front. */
  lemma RelativePathIs(path: string, targetRoot: string, rest: string) returns (root: string, slashes: string)
    ensures IsRoot(root, targetRoot)
    ensures
      var p, r := Slashes(path), RelativePath(path, targetRoot);
      && (root != "" && p == root + "/" + rest ==> r == rest)
      && (!(root != "" && root + "/" <= p) ==>
            && (p == "/app/target/" + rest ==> r == rest)
            && (p == "/target/" + rest ==> r == rest)
            && (!("/app/target/" <= p) && !("/target/" <= p) ==>
                  p == slashes + r && AllSlashes(slashes) && (r != "" ==> r[0] != '/')))
  {
    root := TrimTrailingSlashes(Slashes(targetRoot));
    var tail := TrimTrailingSlashesIs(Slashes(targetRoot));
    slashes := TrimSlashesIs(Slashes(path));
    var p := Slashes(path);
    AfterPrefix(p, root + "/", rest);
    UnmountedIs(p, rest);
  }

  lemma AfterPrefix(p: string, prefix: string, rest: string)
    ensures p == prefix + rest <==> prefix <= p && p[|prefix|..] == rest
  {
  }

  lemma UnmountedIs(p: string, rest: string)
    ensures p == "/app/target/" + rest ==> Unmounted(p) == rest
    ensures p == "/target/" + rest ==> Unmounted(p) == rest
    ensures !("/app/target/" <= p) && !("/target/" <= p) <==> Unmounted(p) == p
  {
    AfterPrefix(p, "/app/target/", rest);
    AfterPrefix(p, "/target/", rest);
    if p == "/target/" + rest {
      assert p[1] == 't';
    }
  }

  lemma StripTwice(s: string)
    ensures Strip(Strip(s)) == Strip(s)
  {
    var before, after := StripIs(s);
  }

  /** A finding has a comment if one near it, on its relative path, silences it. */
  ghost predicate Commented(rt: Runtime, index: Index, root: string, toolKey: string, config: Config, f: Finding) {
    FindingPath(f) != ""
    && Silenced(index, toolKey, FindingRuleId(f), RelativePath(FindingPath(f), root), FindingLine(rt, f), config)
  }

  ghost function Uncommented(rt: Runtime, index: Index, root: string, toolKey: string, config: Config)
    : Finding -> bool
  {
    f => !Commented(rt, index, root, toolKey, config, f)
  }

  lemma JudgedIff(rt: Runtime, index: Index, root: string, toolKey: string, config: Config, f: Finding)
    requires UniqueKeys(index)
    ensures JudgeFor(rt, index, root, toolKey, config)(f).Some? <==>
            Commented(rt, index, root, toolKey, config, f)
  {
    SilencedIff(index, toolKey, FindingRuleId(f), RelativePath(FindingPath(f), root), FindingLine(rt, f), config);
    StripTwice(Str(FirstTruthy(f, ["rule_id", "check_id", "test_id", "id", "type"], Text(""))));
  }

  /** The nearest comment on the path of the finding decides; a comment in another file of that name does so only
      without one. */
  ghost predicate Decisive(effect: Effect, index: Index, path: string, line: int, lookback: nat, e: Entry,
                           sup: LineSuppressions) {
    && e in index && Near(e, path, line, lookback) && sup in e.sups
    && forall e', sup' ::
         HitOnPath(effect, index, path, line, lookback, e', sup') ==> e.path == path && e'.line <= e.line <= line
  }

  ghost predicate HitOnPath(effect: Effect, index: Index, path: string, line: int, lookback: nat, e: Entry,
                            sup: LineSuppressions) {
    e in index && OnPath(e, path, line, lookback) && sup in e.sups && effect(sup, line - e.line).Some?
  }

  lemma {:induction false} FirstHitIs(effect: Effect, sups: seq<LineSuppressions>, offset: int)
    returns (sup: LineSuppressions)
    requires FirstHit(effect, sups, offset).Some?
    ensures sup in sups && effect(sup, offset) == FirstHit(effect, sups, offset)
  {
    if effect(sups[0], offset).Some? {
      sup := sups[0];
    } else {
      sup := FirstHitIs(effect, sups[1..], offset);
    }
  }

  lemma {:induction false} ExactPassIs(effect: Effect, index: Index, path: string, line: int, from: nat,
                                       lookback: nat) returns (offset: nat, sup: LineSuppressions)
    requires ExactPass(effect, index, path, line, from, lookback).Some?
    ensures from <= offset && ExactReason(effect, index, path, line, lookback, offset, sup)
    ensures effect(sup, offset) == ExactPass(effect, index, path, line, from, lookback)
    ensures forall o: nat, other ::
              from <= o && ExactReason(effect, index, path, line, lookback, o, other) ==> offset <= o
    decreases lookback + 1 - from
  {
    if line - from > 0 {
      FirstHitIff(effect, At(index, path, line - from), from);
    }
    if line - from > 0 && FirstHit(effect, At(index, path, line - from), from).Some? {
      offset := from;
      sup := FirstHitIs(effect, At(index, path, line - from), from);
    } else {
      offset, sup := ExactPassIs(effect, index, path, line, from + 1, lookback);
    }
  }

  lemma {:induction false} BasenamePassIs(effect: Effect, index: Index, base: string, line: int, lookback: nat)
    returns (e: Entry, sup: LineSuppressions)
    requires BasenamePass(effect, index, base, line, lookback).Some?
    ensures BasenameReason(effect, index, base, line, lookback, e, sup)
    ensures effect(sup, line - e.line) == BasenamePass(effect, index, base, line, lookback)
  {
    e := index[0];
    if Basename(e.path) == base && Distance(e.line, line) <= lookback
       && FirstHit(effect, e.sups, line - e.line).Some? {
      sup := FirstHitIs(effect, e.sups, line - e.line);
    } else {
      e, sup := BasenamePassIs(effect, index[1..], base, line, lookback);
    }
  }

  lemma SearchIs(effect: Effect, index: Index, path: string, line: int, lookback: nat)
    returns (e: Entry, sup: LineSuppressions)
    requires UniqueKeys(index) && Search(effect, index, path, line, lookback).Some?
    ensures Decisive(effect, index, path, line, lookback, e, sup)
    ensures effect(sup, line - e.line) == Search(effect, index, path, line, lookback)
  {
    forall e, sup | HitOnPath(effect, index, path, line, lookback, e, sup)
      ensures ExactReason(effect, index, path, line, lookback, line - e.line, sup)
    {
      AtIff(index, path, e.line, sup);
    }
    if ExactPass(effect, index, path, line, 0, lookback).Some? {
      var offset: nat;
      offset, sup := ExactPassIs(effect, index, path, line, 0, lookback);
      AtIff(index, path, line - offset, sup);
      e :| e in index && e.path == path && e.line == line - offset && sup in e.sups;
    } else {
      ExactPassIff(effect, index, path, line, 0, lookback);
      DirectoryIff(path);
      e, sup := BasenamePassIs(effect, index, Basename(path), line, lookback);
      SameBasename(e.path, path);
    }
  }

  /** The reason and the tag a suppressed finding is reported with are those of the decisive comment. */
  lemma HitIs(rt: Runtime, index: Index, root: string, toolKey: string, config: Config, f: Finding)
    returns (e: Entry, sup: LineSuppressions)
    requires UniqueKeys(index) && JudgeFor(rt, index, root, toolKey, config)(f).Some?
    ensures
      var hit := JudgeFor(rt, index, root, toolKey, config)(f).value;
      var rule, path, line := FindingRuleId(f), RelativePath(FindingPath(f), root), FindingLine(rt, f);
      && Decisive(EffectOf(toolKey, rule, config.cross), index, path, line, config.lineLookback, e, sup)
      && SilencedAt(e, sup, hit.tag, toolKey, rule, line, config.cross) && hit.reason == ReasonOf(sup, hit.tag)
  {
    var rule, path, line := FindingRuleId(f), RelativePath(FindingPath(f), root), FindingLine(rt, f);
    StripTwice(Str(FirstTruthy(f, ["rule_id", "check_id", "test_id", "id", "type"], Text(""))));
    e, sup := SearchIs(EffectOf(toolKey, rule, config.cross), index, path, line, config.lineLookback);
    TryIs(toolKey, rule, sup, line - e.line, config.cross);
  }

  /** The report keeps exactly the findings without such a comment, in order. */
  lemma SuppressionIs(rt: Runtime, index: Index, root: string, toolKey: string, config: Config,
                      findings: seq<Finding>)
    requires UniqueKeys(index)
    ensures Unsuppressed(JudgeFor(rt, index, root, toolKey, config), findings) ==
            Filter(Uncommented(rt, index, root, toolKey, config), findings)
  {
    forall f ensures JudgeFor(rt, index, root, toolKey, config)(f).None? <==>
                     Uncommented(rt, index, root, toolKey, config)(f)
    {
      JudgedIff(rt, index, root, toolKey, config, f);
    }
    UnsuppressedIs(JudgeFor(rt, index, root, toolKey, config), Uncommented(rt, index, root, toolKey, config),
                   findings);
  }

  lemma {:induction false} UnsuppressedIs(judge: Judge, keeps: Finding -> bool, findings: seq<Finding>)
    requires forall f :: judge(f).None? <==> keeps(f)
    ensures Unsuppressed(judge, findings) == Filter(keeps, findings)
  {
    if findings != [] {
      UnsuppressedIs(judge, keeps, findings[..|findings| - 1]);
    }
  }

  /** The comment silences the finding under some tag. */
  ghost predicate Silent(toolKey: string, rule: string, sup: LineSuppressions, offset: int, cross: CrossTool) {
    exists tag :: Silences(tag, toolKey, rule, sup, offset, cross)
  }

  /** What each tool reads on the line of the finding. */
  lemma MarksByTool(toolKey: string, rule: string, sup: LineSuppressions, offset: int, cross: CrossTool)
    requires offset <= 0
    ensures
      var silent := Silent(toolKey, rule, sup, offset, cross);
      var nosec, nosemgrep, accept := Nosec(rule, sup), Nosemgrep(rule, sup), SscAccept(rule, sup);
      && (Is(toolKey, "bandit") ==> (silent <==> nosec || (cross.nosemgrep && nosemgrep) || accept))
      && (Is(toolKey, "semgrep") ==> (silent <==> nosemgrep || (cross.nosec && nosec) || accept))
      && (Is(toolKey, "eslint") ==>
            (silent <==> EslintDisable(rule, sup.eslintDisableLineAll, sup.eslintDisableLine) || accept))
      && (Is(toolKey, "gitleaks") ==> (silent <==> sup.gitleaksAllow || accept))
      && (!Is(toolKey, "bandit") && !Is(toolKey, "semgrep") && !Is(toolKey, "eslint") && !Is(toolKey, "gitleaks") ==>
            (silent <==> (cross.nosec && nosec) || (cross.nosemgrep && nosemgrep) || accept))
  {
    OneTool(toolKey);
    SilentIff(toolKey, rule, sup, offset, cross);
  }

  lemma SilentIff(toolKey: string, rule: string, sup: LineSuppressions, offset: int, cross: CrossTool)
    requires offset <= 0
    ensures
      var shared := !Is(toolKey, "eslint") && !Is(toolKey, "gitleaks");
      Silent(toolKey, rule, sup, offset, cross) <==>
      (|| SscAccept(rule, sup)
       || (shared && (cross.nosec || Is(toolKey, "bandit")) && Nosec(rule, sup))
       || (shared && (cross.nosemgrep || Is(toolKey, "semgrep")) && Nosemgrep(rule, sup))
       || (Is(toolKey, "gitleaks") && sup.gitleaksAllow)
       || (Is(toolKey, "eslint") && EslintDisable(rule, sup.eslintDisableLineAll, sup.eslintDisableLine)))
  {
    if SscAccept(rule, sup) {
      assert Silences("ssc:accept", toolKey, rule, sup, offset, cross);
    }
    if !Is(toolKey, "eslint") && !Is(toolKey, "gitleaks") {
      if (cross.nosec || Is(toolKey, "bandit")) && Nosec(rule, sup) {
        assert Silences("nosec", toolKey, rule, sup, offset, cross);
      }
      if (cross.nosemgrep || Is(toolKey, "semgrep")) && Nosemgrep(rule, sup) {
        assert Silences("nosemgrep", toolKey, rule, sup, offset, cross);
      }
    }
    if Is(toolKey, "gitleaks") && sup.gitleaksAllow {
      assert Silences("gitleaks:allow", toolKey, rule, sup, offset, cross);
    }
    if Is(toolKey, "eslint") && EslintDisable(rule, sup.eslintDisableLineAll, sup.eslintDisableLine) {
      assert Silences("eslint-disable-line", toolKey, rule, sup, offset, cross);
    }
  }

  /** Every id in the comment is about other rules, and nothing is allowed wholesale. */
  predicate Unrelated(rule: string, sup: LineSuppressions) {
    && !sup.nosecAll && !sup.nosemgrepAll && !sup.sscAcceptAll && !sup.gitleaksAllow
    && !sup.eslintDisableLineAll && !sup.eslintDisableNextAll
    && (forall id :: id in sup.nosecIds + sup.nosemgrepIds + sup.sscAcceptIds ==> !Concerns(Strip(id), rule))
    && rule != "" && rule !in sup.eslintDisableLine + sup.eslintDisableNext
  }

  lemma UnrelatedIsSilent(toolKey: string, rule: string, sup: LineSuppressions, offset: int, cross: CrossTool)
    requires Unrelated(rule, sup)
    ensures !Silent(toolKey, rule, sup, offset, cross)
  {
    assert !Lists(sup.nosecIds, rule) && !Lists(sup.nosemgrepIds, rule) && !Lists(sup.sscAcceptIds, rule);
  }

  /** A finding with only such comments near it stays in the report. */
  lemma UnrelatedCommentsKeep(rt: Runtime, index: Index, root: string, toolKey: string, config: Config,
                              findings: seq<Finding>, f: Finding)
    requires UniqueKeys(index) && f in findings
    requires forall e, sup :: e in index && sup in e.sups ==>
               Near(e, RelativePath(FindingPath(f), root), FindingLine(rt, f), config.lineLookback) ==>
                 Unrelated(FindingRuleId(f), sup)
    ensures f in Unsuppressed(JudgeFor(rt, index, root, toolKey, config), findings)
  {
    JudgedIff(rt, index, root, toolKey, config, f);
    var rule, path, line := FindingRuleId(f), RelativePath(FindingPath(f), root), FindingLine(rt, f);
    if Silenced(index, toolKey, rule, path, line, config) {
      var e, sup, tag :| e in index && Near(e, path, line, config.lineLookback)
                         && SilencedAt(e, sup, tag, toolKey, rule, line, config.cross);
      UnrelatedIsSilent(toolKey, rule, sup, line - e.line, config.cross);
      assert false;
    }
    UnsuppressedMembers(JudgeFor(rt, index, root, toolKey, config), findings, f);
  }

  lemma {:induction false} UnsuppressedMembers(judge: Judge, findings: seq<Finding>, f: Finding)
    requires f in findings && judge(f).None?
    ensures f in Unsuppressed(judge, findings)
  {
    var n := |findings| - 1;
    if f in findings[..n] {
      UnsuppressedMembers(judge, findings[..n], f);
    }
  }
}

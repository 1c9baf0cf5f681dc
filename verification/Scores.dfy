/** The security scores of scanner/output/html_utils.py and scanner/output/generate-html-report.py. */
module Scores {
  import opened Collections
  import opened Findings

  /** A finding as the counters see it; the severity is str() of its Severity or severity field. */
  datatype Item = Bare | Dict(severity: string) | Junk

  datatype ToolReport = ToolReport(tool: string, findings: seq<Item>)

  datatype Scanner = Scanner(name: string, enabled: bool, priority: int, scanTypes: seq<string>)

  datatype Counts = Counts(critical: nat, high: nat, medium: nat, low: nat, info: nat)
  {
    function Total(): nat {
      critical + high + medium + low + info
    }

    predicate AtMost(other: Counts) {
      critical <= other.critical && high <= other.high && medium <= other.medium && low <= other.low
        && info <= other.info
    }
  }

  function Plus(a: Counts, b: Counts): Counts {
    Counts(a.critical + b.critical, a.high + b.high, a.medium + b.medium, a.low + b.low, a.info + b.info)
  }

  const NONE := Counts(0, 0, 0, 0, 0)
  const PENALTY_CAP := 60
  const SCORE_FLOOR := 10

  datatype Level = Critical | High | Medium | Low | Info

  function Add(c: Counts, level: Level): Counts {
    match level
    case Critical => c.(critical := c.critical + 1)
    case High => c.(high := c.high + 1)
    case Medium => c.(medium := c.medium + 1)
    case Low => c.(low := c.low + 1)
    case Info => c.(info := c.info + 1)
  }

  function Classified(severity: string): Level {
    var sev := Upper(severity);
    if Contains(sev, "CRITICAL") || Contains(sev, "CRIT") then Critical
    else if Contains(sev, "HIGH") || sev == "ERROR" then High
    else if Contains(sev, "MEDIUM") || Contains(sev, "MED") || Contains(sev, "WARN") || Contains(sev, "MODERATE")
      then Medium
    else if Contains(sev, "LOW") then Low
    else Info
  }

  /** How a severity text is classified; Classified in the program. */
  type Classifier = string -> Level

  /** The domain scores skip a bare text; the overall score counts it as medium. */
  function LevelOf(classify: Classifier, item: Item, bareCounts: bool): Option<Level> {
    match item
    case Dict(severity) => Some(classify(severity))
    case Bare => if bareCounts then Some(Medium) else None
    case Junk => None
  }

  function CountAll(classify: Classifier, items: seq<Item>, bareCounts: bool): Counts {
    if items == [] then NONE
    else
      var front := CountAll(classify, items[..|items| - 1], bareCounts);
      match LevelOf(classify, items[|items| - 1], bareCounts)
      case Some(level) => Add(front, level)
      case None => front
  }

  function OverallCounts(classify: Classifier, report: seq<ToolReport>): Counts {
    if report == [] then NONE
    else Plus(OverallCounts(classify, report[..|report| - 1]), CountAll(classify, report[|report| - 1].findings, true))
  }

  function WeightedTotal(c: Counts): nat {
    c.critical * 10 + c.high * 6 + c.medium * 3 + c.low * 1 + c.info * 0
  }

  function WeightedPenalty(c: Counts): nat {
    if WeightedTotal(c) < PENALTY_CAP then WeightedTotal(c) else PENALTY_CAP
  }

  function ScoreOf(c: Counts): int {
    if 100 - WeightedPenalty(c) < SCORE_FLOOR then SCORE_FLOOR else 100 - WeightedPenalty(c)
  }

  const SCORE_LABELS := [(90, "Excellent"), (75, "Good"), (60, "Moderate"), (40, "Needs Attention"), (0, "Critical")]

  /** The first band whose threshold the score reaches. */
  method ScoreLabel(score: int) returns (band: string, ghost k: nat)
    ensures k < |SCORE_LABELS| && band == SCORE_LABELS[k].1
    ensures k == |SCORE_LABELS| - 1 || SCORE_LABELS[k].0 <= score
    ensures k > 0 ==> score < SCORE_LABELS[k - 1].0
    ensures band == "Excellent" <==> 90 <= score
    ensures band == "Good" <==> 75 <= score < 90
    ensures band == "Moderate" <==> 60 <= score < 75
    ensures band == "Needs Attention" <==> 40 <= score < 60
    ensures band == "Critical" <==> score < 40
  {
    for i := 0 to |SCORE_LABELS|
      invariant i > 0 ==> score < SCORE_LABELS[i - 1].0
    {
      if score >= SCORE_LABELS[i].0 {
        return SCORE_LABELS[i].1, i;
      }
    }
    return "Critical", 4;
  }

  // ----- the loops -----

  method ToolCounts(classify: Classifier, items: seq<Item>) returns (c: Counts)
    ensures c == CountAll(classify, items, false)
  {
    c := NONE;
    for i := 0 to |items|
      invariant c == CountAll(classify, items[..i], false)
    {
      assert items[..i + 1][..i] == items[..i];
      if items[i].Dict? {
        c := Add(c, classify(items[i].severity));
      }
    }
    assert items[..|items|] == items;
  }

  function ReportMap(classify: Classifier, report: seq<ToolReport>): map<string, Counts> {
    if report == [] then map[]
    else
      var last := report[|report| - 1];
      ReportMap(classify, report[..|report| - 1])[last.tool := CountAll(classify, last.findings, false)]
  }

  /** _compute_tool_severity_counts. */
  method ComputeToolSeverityCounts(classify: Classifier, report: seq<ToolReport>) returns (result: map<string, Counts>)
    ensures result == ReportMap(classify, report)
  {
    result := map[];
    for i := 0 to |report|
      invariant result == ReportMap(classify, report[..i])
    {
      assert report[..i + 1][..i] == report[..i];
      var c := ToolCounts(classify, report[i].findings);
      result := result[report[i].tool := c];
    }
    assert report[..|report|] == report;
  }

  /** The counting part of generate_executive_summary. */
  method ExecutiveCounts(classify: Classifier, report: seq<ToolReport>) returns (c: Counts)
    ensures c == OverallCounts(classify, report)
  {
    c := NONE;
    for i := 0 to |report|
      invariant c == OverallCounts(classify, report[..i])
    {
      assert report[..i + 1][..i] == report[..i];
      c := CountOn(classify, c, report[i].findings);
    }
    assert report[..|report|] == report;
  }

  /** The inner loop: counting on from `before`. */
  method CountOn(classify: Classifier, before: Counts, items: seq<Item>) returns (c: Counts)
    ensures c == Plus(before, CountAll(classify, items, true))
  {
    c := before;
    for j := 0 to |items|
      invariant c == Plus(before, CountAll(classify, items[..j], true))
    {
      CountAllSnoc(classify, items[..j], items[j], true);
      assert items[..j + 1] == items[..j] + [items[j]];
      AddIfLater(before, CountAll(classify, items[..j], true), LevelOf(classify, items[j], true));
      c := AddIf(c, LevelOf(classify, items[j], true));
    }
    assert items[..|items|] == items;
  }

  function ByPriority(): (Scanner, Scanner) -> bool {
    (a: Scanner, b: Scanner) => a.priority <= b.priority
  }

  function Supports(scanType: string): Scanner -> bool {
    (sc: Scanner) => sc.enabled && scanType in sc.scanTypes
  }

  /** get_scanners_for_type. */
  function ScannersForType(registry: seq<Scanner>, scanType: string): seq<Scanner> {
    StableSort(ByPriority(), Filter(Supports(scanType), registry))
  }

  function CountsFor(counts: map<string, Counts>, scanners: seq<Scanner>): Counts {
    if scanners == [] then NONE
    else
      var front := CountsFor(counts, scanners[..|scanners| - 1]);
      var last := scanners[|scanners| - 1].name;
      if last in counts then Plus(front, counts[last]) else front
  }

  predicate Present(counts: map<string, Counts>, scanners: seq<Scanner>) {
    exists i :: 0 <= i < |scanners| && scanners[i].name in counts
  }

  /** One round of _compute_domain_scores. */
  method DomainScore(counts: map<string, Counts>, scanners: seq<Scanner>) returns (score: Option<int>)
    ensures score.Some? <==> Present(counts, scanners)
    ensures score.Some? ==> score.value == ScoreOf(CountsFor(counts, scanners))
  {
    var total, hasAny := NONE, false;
    for i := 0 to |scanners|
      invariant total == CountsFor(counts, scanners[..i])
      invariant hasAny <==> exists j :: 0 <= j < i && scanners[j].name in counts
    {
      assert scanners[..i + 1][..i] == scanners[..i];
      if scanners[i].name in counts {
        hasAny := true;
        total := Plus(total, counts[scanners[i].name]);
      }
    }
    assert scanners[..|scanners|] == scanners;
    score := if hasAny then Some(ScoreOf(total)) else None;
  }

  method ComputeDomainScores(classify: Classifier, report: seq<ToolReport>, registry: seq<Scanner>,
      scanTypes: seq<string>) returns (scores: map<string, int>)
    ensures forall t :: t in scores <==>
        t in scanTypes && Present(ReportMap(classify, report), ScannersForType(registry, t))
    ensures forall t :: t in scores ==>
        scores[t] == ScoreOf(CountsFor(ReportMap(classify, report), ScannersForType(registry, t)))
  {
    var counts := ComputeToolSeverityCounts(classify, report);
    scores := map[];
    for i := 0 to |scanTypes|
      invariant forall t :: t in scores <==>
          t in scanTypes[..i] && Present(ReportMap(classify, report), ScannersForType(registry, t))
      invariant forall t :: t in scores ==>
          scores[t] == ScoreOf(CountsFor(ReportMap(classify, report), ScannersForType(registry, t)))
    {
      var score := DomainScore(counts, ScannersForType(registry, scanTypes[i]));
      if score.Some? {
        scores := scores[scanTypes[i] := score.value];
      }
      assert scanTypes[..i + 1] == scanTypes[..i] + [scanTypes[i]];
    }
    assert scanTypes[..|scanTypes|] == scanTypes;
  }

  // ----- what the scores mean -----

  /** More findings of any severity never raise a score. */
  lemma ScoreIsAntitone(a: Counts, b: Counts)
    requires a.AtMost(b)
    ensures ScoreOf(b) <= ScoreOf(a)
  {
  }

  /** The cap keeps every score at 40 or above, so neither the floor nor the lowest label is ever
      used; 40 is reached exactly when the cap is. */
  lemma ScoreRange(c: Counts)
    ensures 40 <= ScoreOf(c) <= 100
    ensures ScoreOf(c) == 40 <==> WeightedTotal(c) >= PENALTY_CAP
    ensures ScoreOf(c) == 100 <==> c.critical == c.high == c.medium == c.low == 0
  {
  }

  /** Counted as info, or not at all. */
  ghost predicate Harmless(classify: Classifier, items: seq<Item>) {
    forall i :: 0 <= i < |items| ==> LevelOf(classify, items[i], true) in {None, Some(Info)}
  }

  ghost predicate HarmlessReport(classify: Classifier, report: seq<ToolReport>) {
    forall i :: 0 <= i < |report| ==> Harmless(classify, report[i].findings)
  }

  predicate NothingAboveInfo(c: Counts) {
    c.critical == c.high == c.medium == c.low == 0
  }

  lemma {:induction false} HarmlessIff(classify: Classifier, items: seq<Item>)
    ensures NothingAboveInfo(CountAll(classify, items, true)) <==> Harmless(classify, items)
  {
    if items != [] {
      var n := |items| - 1;
      HarmlessIff(classify, items[..n]);
      assert items == items[..n] + [items[n]];
      assert Harmless(classify, items) <==>
             Harmless(classify, items[..n]) && LevelOf(classify, items[n], true) in {None, Some(Info)};
    }
  }

  /** The score is perfect exactly if no finding anywhere is a bare text or of a severity above info. */
  lemma {:induction false} PerfectIff(classify: Classifier, report: seq<ToolReport>)
    ensures NothingAboveInfo(OverallCounts(classify, report)) <==> HarmlessReport(classify, report)
    ensures ScoreOf(OverallCounts(classify, report)) == 100 <==> HarmlessReport(classify, report)
  {
    ScoreRange(OverallCounts(classify, report));
    if report != [] {
      var n := |report| - 1;
      PerfectIff(classify, report[..n]);
      HarmlessIff(classify, report[n].findings);
      assert report == report[..n] + [report[n]];
      assert HarmlessReport(classify, report) <==>
             HarmlessReport(classify, report[..n]) && Harmless(classify, report[n].findings);
    }
  }

  /** The score and the band that generate_executive_summary shows. */
  method ExecutiveScore(report: seq<ToolReport>) returns (score: int, band: string)
    ensures score == ScoreOf(OverallCounts(Classified, report)) && 40 <= score <= 100 && band != "Critical"
    ensures score == 100 <==> HarmlessReport(Classified, report)
  {
    var c := ExecutiveCounts(Classified, report);
    score := ScoreOf(c);
    ScoreRange(c);
    PerfectIff(Classified, report);
    ghost var k;
    band, k := ScoreLabel(score);
  }

  /** Every finding is counted exactly once. */
  lemma {:induction false} EachFindingCountsOnce(classify: Classifier, items: seq<Item>, bareCounts: bool)
    ensures CountAll(classify, items, bareCounts).Total() ==
        |Filter((x: Item) => x.Dict? || (bareCounts && x.Bare?), items)|
  {
    if items != [] {
      EachFindingCountsOnce(classify, items[..|items| - 1], bareCounts);
    }
  }

  lemma {:induction false} BareOnlyAdds(classify: Classifier, items: seq<Item>)
    ensures CountAll(classify, items, false).AtMost(CountAll(classify, items, true))
  {
    if items != [] {
      BareOnlyAdds(classify, items[..|items| - 1]);
    }
  }

  function Tools(report: seq<ToolReport>): (r: seq<string>)
    ensures |r| == |report| && forall i :: 0 <= i < |r| ==> r[i] == report[i].tool
  {
    seq(|report|, i requires 0 <= i < |report| => report[i].tool)
  }

  function Names(scanners: seq<Scanner>): (r: seq<string>)
    ensures |r| == |scanners| && forall i :: 0 <= i < |r| ==> r[i] == scanners[i].name
  {
    seq(|scanners|, i requires 0 <= i < |scanners| => scanners[i].name)
  }

  /** The counts of a list of distinct scanners are within those of a report that covers them. */
  lemma {:induction false} CoveredCounts(classify: Classifier, counts: map<string, Counts>, scanners: seq<Scanner>,
      report: seq<ToolReport>)
    requires Distinct(Names(scanners)) && Distinct(Tools(report))
    requires forall i :: 0 <= i < |report| ==> report[i].tool in counts ==>
        counts[report[i].tool] == CountAll(classify, report[i].findings, false)
    requires forall i :: 0 <= i < |scanners| && scanners[i].name in counts ==> scanners[i].name in Tools(report)
    ensures CountsFor(counts, scanners).AtMost(OverallCounts(classify, report))
    decreases |report|
  {
    if report == [] {
      NoCounts(counts, scanners);
    } else {
      var n := |report| - 1;
      var tool := report[n].tool;
      BareOnlyAdds(classify, report[n].findings);
      var rest := counts - {tool};
      assert Tools(report)[..n] == Tools(report[..n]);
      forall i | 0 <= i < |scanners| && scanners[i].name in rest ensures scanners[i].name in Tools(report[..n]) {
        var j :| 0 <= j < |report| && Tools(report)[j] == scanners[i].name;
        assert j != n;
        assert Tools(report[..n])[j] == scanners[i].name;
      }
      CoveredCounts(classify, rest, scanners, report[..n]);
      DropTool(counts, scanners, tool);
    }
  }

  lemma {:induction false} NoCounts(counts: map<string, Counts>, scanners: seq<Scanner>)
    requires forall i :: 0 <= i < |scanners| ==> scanners[i].name !in counts
    ensures CountsFor(counts, scanners) == NONE
  {
    if scanners != [] {
      NoCounts(counts, scanners[..|scanners| - 1]);
    }
  }

  lemma {:induction false} DropAbsentTool(counts: map<string, Counts>, scanners: seq<Scanner>, tool: string)
    requires forall i :: 0 <= i < |scanners| ==> scanners[i].name != tool
    ensures CountsFor(counts, scanners) == CountsFor(counts - {tool}, scanners)
  {
    if scanners != [] {
      DropAbsentTool(counts, scanners[..|scanners| - 1], tool);
    }
  }

  /** Leaving out one tool takes away at most its own counts. */
  lemma {:induction false} DropTool(counts: map<string, Counts>, scanners: seq<Scanner>, tool: string)
    requires Distinct(Names(scanners))
    ensures
      var own := if tool in counts then counts[tool] else NONE;
      CountsFor(counts, scanners).AtMost(Plus(CountsFor(counts - {tool}, scanners), own))
  {
    if scanners != [] {
      var n := |scanners| - 1;
      var front := scanners[..n];
      assert Names(front) == Names(scanners)[..n];
      if scanners[n].name == tool {
        forall i | 0 <= i < n ensures front[i].name != tool {
          assert Names(scanners)[i] != Names(scanners)[n];
        }
        DropAbsentTool(counts, front, tool);
      } else {
        DropTool(counts, front, tool);
      }
    }
  }

  lemma {:induction false} ReportMapIsTheReport(classify: Classifier, report: seq<ToolReport>)
    requires Distinct(Tools(report))
    ensures forall t :: t in ReportMap(classify, report) <==> t in Tools(report)
    ensures forall i :: 0 <= i < |report| ==>
        ReportMap(classify, report)[report[i].tool] == CountAll(classify, report[i].findings, false)
  {
    if report != [] {
      var n := |report| - 1;
      assert Tools(report)[..n] == Tools(report[..n]);
      assert Tools(report) == Tools(report[..n]) + [report[n].tool];
      ReportMapIsTheReport(classify, report[..n]);
      forall i | 0 <= i < |report|
        ensures ReportMap(classify, report)[report[i].tool] == CountAll(classify, report[i].findings, false)
      {
        if i < n {
          assert Tools(report)[i] != Tools(report)[n];
          assert report[..n][i] == report[i];
        }
      }
    }
  }

  lemma {:induction false} FilterKeepsNames(p: Scanner -> bool, scanners: seq<Scanner>)
    requires Distinct(Names(scanners))
    ensures Distinct(Names(Filter(p, scanners)))
    ensures forall n :: n in Names(Filter(p, scanners)) ==> n in Names(scanners)
  {
    if scanners != [] {
      var n := |scanners| - 1;
      var front := scanners[..n];
      assert Names(front) == Names(scanners)[..n];
      assert Names(scanners) == Names(front) + [scanners[n].name];
      FilterKeepsNames(p, front);
      var kept := Filter(p, front);
      if p(scanners[n]) {
        assert Names(kept + [scanners[n]]) == Names(kept) + [scanners[n].name];
        assert scanners[n].name !in Names(front);
      } else {
        assert kept + [] == kept;
      }
    }
  }

  lemma {:induction false} InsertKeepsNames(x: Scanner, s: seq<Scanner>)
    requires Distinct(Names(s)) && x.name !in Names(s)
    ensures Distinct(Names(Insert(ByPriority(), x, s)))
    ensures forall n :: n in Names(Insert(ByPriority(), x, s)) <==> n == x.name || n in Names(s)
  {
    if s == [] || ByPriority()(x, s[0]) {
      assert Names(Insert(ByPriority(), x, s)) == [x.name] + Names(s);
    } else {
      var rest := Insert(ByPriority(), x, s[1..]);
      assert Names(s) == [s[0].name] + Names(s[1..]);
      assert Names(s[1..]) == Names(s)[1..];
      assert s[0].name !in Names(s[1..]);
      InsertKeepsNames(x, s[1..]);
      assert Names([s[0]] + rest) == [s[0].name] + Names(rest);
    }
  }

  lemma {:induction false} SortKeepsNames(s: seq<Scanner>)
    requires Distinct(Names(s))
    ensures Distinct(Names(StableSort(ByPriority(), s)))
    ensures forall n :: n in Names(StableSort(ByPriority(), s)) <==> n in Names(s)
  {
    if s != [] {
      assert Names(s) == [s[0].name] + Names(s[1..]);
      assert Names(s[1..]) == Names(s)[1..];
      assert s[0].name !in Names(s[1..]);
      SortKeepsNames(s[1..]);
      InsertKeepsNames(s[0], StableSort(ByPriority(), s[1..]));
    }
  }

  /** For every report and registry, every domain score is at least the overall score. */
  lemma DomainScoresAreAtLeastOverall(classify: Classifier, report: seq<ToolReport>, registry: seq<Scanner>,
      scanType: string)
    requires Distinct(Tools(report)) && Distinct(Names(registry))
    ensures ScoreOf(CountsFor(ReportMap(classify, report),
        ScannersForType(registry, scanType))) >= ScoreOf(OverallCounts(classify, report))
  {
    ReportMapIsTheReport(classify, report);
    FilterKeepsNames(Supports(scanType), registry);
    SortKeepsNames(Filter(Supports(scanType), registry));
    CoveredCounts(classify, ReportMap(classify, report), ScannersForType(registry, scanType), report);
    ScoreIsAntitone(CountsFor(ReportMap(classify, report), ScannersForType(registry, scanType)),
      OverallCounts(classify, report));
  }

  function AddIf(c: Counts, level: Option<Level>): Counts {
    if level.Some? then Add(c, level.value) else c
  }

  lemma CountAllSnoc(classify: Classifier, items: seq<Item>, x: Item, bareCounts: bool)
    ensures CountAll(classify, items + [x], bareCounts) ==
        AddIf(CountAll(classify, items, bareCounts), LevelOf(classify, x, bareCounts))
  {
    assert (items + [x])[..|items|] == items;
  }

  lemma AddIfLater(a: Counts, b: Counts, level: Option<Level>)
    ensures AddIf(Plus(a, b), level) == Plus(a, AddIf(b, level))
  {
  }

  lemma {:induction false} CountAllAppend(classify: Classifier, a: seq<Item>, b: seq<Item>, bareCounts: bool)
    ensures CountAll(classify, a + b, bareCounts) ==
        Plus(CountAll(classify, a, bareCounts), CountAll(classify, b, bareCounts))
  {
    if b == [] {
      assert a + b == a;
    } else {
      var front, x := b[..|b| - 1], b[|b| - 1];
      assert b == front + [x];
      assert a + b == (a + front) + [x];
      CountAllSnoc(classify, a + front, x, bareCounts);
      CountAllSnoc(classify, front, x, bareCounts);
      CountAllAppend(classify, a, front, bareCounts);
      AddIfLater(CountAll(classify, a, bareCounts), CountAll(classify, front, bareCounts),
        LevelOf(classify, x, bareCounts));
    }
  }

  lemma OneMoreCounts(classify: Classifier, a: seq<Item>, x: Item, b: seq<Item>, bareCounts: bool)
    ensures CountAll(classify, a + b, bareCounts).AtMost(CountAll(classify, a + [x] + b, bareCounts))
  {
    CountAllAppend(classify, a + [x], b, bareCounts);
    CountAllAppend(classify, a, [x], bareCounts);
    CountAllAppend(classify, a, b, bareCounts);
  }

  /** Tool by tool the second report counts at least as much. */
  ghost predicate Within(classify: Classifier, before: seq<ToolReport>, after: seq<ToolReport>) {
    |before| == |after| && forall i :: 0 <= i < |before| ==> ToolWithin(classify, before[i], after[i])
  }

  predicate ToolWithin(classify: Classifier, before: ToolReport, after: ToolReport) {
    && before.tool == after.tool
    && CountAll(classify, before.findings, false).AtMost(CountAll(classify, after.findings, false))
    && CountAll(classify, before.findings, true).AtMost(CountAll(classify, after.findings, true))
  }

  lemma WithinFront(classify: Classifier, before: seq<ToolReport>, after: seq<ToolReport>)
    requires Within(classify, before, after) && before != []
    ensures Within(classify, before[..|before| - 1], after[..|after| - 1])
  {
  }

  lemma {:induction false} OverallIsMonotone(classify: Classifier, before: seq<ToolReport>, after: seq<ToolReport>)
    requires Within(classify, before, after)
    ensures OverallCounts(classify, before).AtMost(OverallCounts(classify, after))
  {
    if before != [] {
      WithinFront(classify, before, after);
      OverallIsMonotone(classify, before[..|before| - 1], after[..|after| - 1]);
    }
  }

  ghost predicate MapWithin(before: map<string, Counts>, after: map<string, Counts>) {
    before.Keys == after.Keys && forall t :: t in before ==> before[t].AtMost(after[t])
  }

  lemma {:induction false} ReportMapIsMonotone(classify: Classifier, before: seq<ToolReport>, after: seq<ToolReport>)
    requires Within(classify, before, after)
    ensures MapWithin(ReportMap(classify, before), ReportMap(classify, after))
  {
    if before != [] {
      WithinFront(classify, before, after);
      ReportMapIsMonotone(classify, before[..|before| - 1], after[..|after| - 1]);
    }
  }

  lemma {:induction false} CountsForIsMonotone(before: map<string, Counts>, after: map<string, Counts>,
      scanners: seq<Scanner>)
    requires MapWithin(before, after)
    ensures CountsFor(before, scanners).AtMost(CountsFor(after, scanners))
  {
    if scanners != [] {
      CountsForIsMonotone(before, after, scanners[..|scanners| - 1]);
    }
  }

  /** One more finding of any kind, at any place of any tool's findings, raises neither the overall
      score nor the score of any domain. */
  lemma MoreFindingsNeverHelp(
    classify: Classifier, report: seq<ToolReport>, k: nat, a: seq<Item>, x: Item, b: seq<Item>,
    registry: seq<Scanner>, scanType: string)
    requires k < |report| && report[k].findings == a + b
    ensures
      var more := report[k := report[k].(findings := a + [x] + b)];
      var scanners := ScannersForType(registry, scanType);
      && ScoreOf(OverallCounts(classify, more)) <= ScoreOf(OverallCounts(classify, report))
      && ScoreOf(CountsFor(ReportMap(classify, more), scanners)) <=
         ScoreOf(CountsFor(ReportMap(classify, report), scanners))
      && (Present(ReportMap(classify, more), scanners) <==> Present(ReportMap(classify, report), scanners))
  {
    var more := report[k := report[k].(findings := a + [x] + b)];
    var scanners := ScannersForType(registry, scanType);
    OneMoreCounts(classify, a, x, b, false);
    OneMoreCounts(classify, a, x, b, true);
    assert ToolWithin(classify, report[k], more[k]);
    OverallIsMonotone(classify, report, more);
    ReportMapIsMonotone(classify, report, more);
    CountsForIsMonotone(ReportMap(classify, report), ReportMap(classify, more), scanners);
    ScoreIsAntitone(OverallCounts(classify, report), OverallCounts(classify, more));
    ScoreIsAntitone(CountsFor(ReportMap(classify, report), scanners), CountsFor(ReportMap(classify, more), scanners));
  }
}

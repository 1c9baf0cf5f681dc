/** The scores as sums over the findings of a report: what each finding costs and to which domains. */
module ScoreMeaning {
  import opened Collections
  import opened Findings
  import opened TextMeaning
  import opened Scores

  /** What a finding of this severity takes from a score. */
  function Cost(severity: string): nat {
    if OccursUpToCase("CRIT", severity) then 10
    else if OccursUpToCase("HIGH", severity) || SameUpToCase(severity, "ERROR") then 6
    else if OccursUpToCase("MED", severity) || OccursUpToCase("WARN", severity)
            || OccursUpToCase("MODERATE", severity) then 3
    else if OccursUpToCase("LOW", severity) then 1
    else 0
  }

  lemma SeverityContains(severity: string, part: string)
    requires forall i :: 0 <= i < |part| ==> !('a' <= part[i] <= 'z')
    ensures Contains(Upper(severity), part) <==> OccursUpToCase(part, severity)
  {
    UpperContains(severity, part);
  }

  lemma CriticalIff(severity: string)
    ensures Contains(Upper(severity), "CRITICAL") || Contains(Upper(severity), "CRIT") <==>
            OccursUpToCase("CRIT", severity)
  {
    SeverityContains(severity, "CRITICAL");
    SeverityContains(severity, "CRIT");
    LongerPart(severity, "CRIT", "ICAL");
  }

  lemma HighIff(severity: string)
    ensures Contains(Upper(severity), "HIGH") || Upper(severity) == "ERROR" <==>
            OccursUpToCase("HIGH", severity) || SameUpToCase(severity, "ERROR")
  {
    SeverityContains(severity, "HIGH");
    SameUpper(severity, "ERROR");
    assert Upper("ERROR") == "ERROR";
  }

  lemma MediumIff(severity: string)
    ensures (|| Contains(Upper(severity), "MEDIUM") || Contains(Upper(severity), "MED")
             || Contains(Upper(severity), "WARN") || Contains(Upper(severity), "MODERATE")) <==>
            (|| OccursUpToCase("MED", severity) || OccursUpToCase("WARN", severity)
             || OccursUpToCase("MODERATE", severity))
  {
    SeverityContains(severity, "MEDIUM");
    SeverityContains(severity, "MED");
    SeverityContains(severity, "WARN");
    SeverityContains(severity, "MODERATE");
    LongerPart(severity, "MED", "IUM");
  }

  /** The name of the level does not matter, what it costs does. */
  lemma LevelCosts(severity: string)
    ensures WeightedTotal(Add(NONE, Classified(severity))) == Cost(severity)
  {
    CriticalIff(severity);
    HighIff(severity);
    MediumIff(severity);
    SeverityContains(severity, "LOW");
  }

  lemma LongerPart(s: string, part: string, more: string)
    ensures OccursUpToCase(part + more, s) ==> OccursUpToCase(part, s)
  {
    if i :| 0 <= i <= |s| && OccursUpToCaseAt(part + more, s, i) {
      forall j | 0 <= j < |part| ensures SameLetter(part[j], s[i + j]) {
        assert (part + more)[j] == part[j];
      }
      assert OccursUpToCaseAt(part, s, i);
    }
  }

  lemma WeightOfSum(a: Counts, b: Counts)
    ensures WeightedTotal(Plus(a, b)) == WeightedTotal(a) + WeightedTotal(b)
  {
  }

  lemma AddIsPlus(c: Counts, level: Level)
    ensures Add(c, level) == Plus(c, Add(NONE, level))
  {
  }

  /** What a severity costs; Cost in the program. */
  type Tariff = string -> nat

  /** The domains skip a bare text; overall it costs as much as a medium finding. */
  function ItemCost(cost: Tariff, overall: bool): Item -> int {
    (item: Item) =>
      match item
      case Dict(severity) => cost(severity)
      case Bare => if overall then 3 else 0
      case Junk => 0
  }

  lemma SumOfLast<T>(f: T -> int, s: seq<T>)
    requires s != []
    ensures Sum(MapSeq(f, s)) == Sum(MapSeq(f, s[..|s| - 1])) + f(s[|s| - 1])
  {
    assert MapSeq(f, s)[..|s| - 1] == MapSeq(f, s[..|s| - 1]);
  }

  ghost predicate Weighs(classify: Classifier, cost: Tariff) {
    forall severity :: WeightedTotal(Add(NONE, classify(severity))) == cost(severity)
  }

  lemma ClassifiedWeighs()
    ensures Weighs(Classified, Cost)
  {
    forall severity ensures WeightedTotal(Add(NONE, Classified(severity))) == Cost(severity) {
      LevelCosts(severity);
    }
  }

  lemma {:induction false} CountsCost(classify: Classifier, cost: Tariff, items: seq<Item>, overall: bool)
    requires Weighs(classify, cost)
    ensures WeightedTotal(CountAll(classify, items, overall)) == Sum(MapSeq(ItemCost(cost, overall), items))
  {
    if items != [] {
      var n := |items| - 1;
      CountsCost(classify, cost, items[..n], overall);
      SumOfLast(ItemCost(cost, overall), items);
      var front := CountAll(classify, items[..n], overall);
      match items[n] {
        case Dict(severity) => AddIsPlus(front, classify(severity));
        case Bare => AddIsPlus(front, Medium);
        case Junk =>
      }
    }
  }

  function AtMostSixty(cost: int): int {
    if cost < 60 then cost else 60
  }

  /** What the findings of one tool cost. */
  function ToolCost(cost: Tariff, overall: bool): ToolReport -> int {
    (r: ToolReport) => Sum(MapSeq(ItemCost(cost, overall), r.findings))
  }

  lemma WeightOfLast(classify: Classifier, report: seq<ToolReport>)
    requires report != []
    ensures WeightedTotal(OverallCounts(classify, report)) ==
            WeightedTotal(OverallCounts(classify, report[..|report| - 1])) +
            WeightedTotal(CountAll(classify, report[|report| - 1].findings, true))
  {
    WeightOfSum(OverallCounts(classify, report[..|report| - 1]),
                CountAll(classify, report[|report| - 1].findings, true));
  }

  lemma {:induction false} OverallCost(classify: Classifier, cost: Tariff, report: seq<ToolReport>)
    requires Weighs(classify, cost)
    ensures WeightedTotal(OverallCounts(classify, report)) == Sum(MapSeq(ToolCost(cost, true), report))
  {
    if report != [] {
      var n := |report| - 1;
      OverallCost(classify, cost, report[..n]);
      CountsCost(classify, cost, report[n].findings, true);
      WeightOfLast(classify, report);
      SumOfLast(ToolCost(cost, true), report);
    }
  }

  lemma ScoreByWeight(c: Counts)
    ensures ScoreOf(c) == 100 - AtMostSixty(WeightedTotal(c))
  {
  }

  /** The overall score is 100 less the cost of all findings, at most 60. */
  lemma OverallScoreIs(report: seq<ToolReport>)
    ensures ScoreOf(OverallCounts(Classified, report)) == 100 - AtMostSixty(Sum(MapSeq(ToolCost(Cost, true), report)))
  {
    ClassifiedWeighs();
    OverallCost(Classified, Cost, report);
    ScoreByWeight(OverallCounts(Classified, report));
  }

  // ----- domains -----

  /** What a tool costs a domain: nothing if it is not among the names. */
  function DomainCost(toolCost: ToolReport -> int, names: set<string>): ToolReport -> int {
    (r: ToolReport) => if r.tool in names then toolCost(r) else 0
  }

  /** What the scanners cost with these weights. */
  function Weight(weights: map<string, int>): Scanner -> int {
    (sc: Scanner) => if sc.name in weights then weights[sc.name] else 0
  }

  function Weights(counts: map<string, Counts>): map<string, int> {
    map t | t in counts :: WeightedTotal(counts[t])
  }

  lemma {:induction false} ScannersWeigh(counts: map<string, Counts>, scanners: seq<Scanner>)
    ensures WeightedTotal(CountsFor(counts, scanners)) == Sum(MapSeq(Weight(Weights(counts)), scanners))
  {
    if scanners != [] {
      var front, name := scanners[..|scanners| - 1], scanners[|scanners| - 1].name;
      ScannersWeigh(counts, front);
      SumOfLast(Weight(Weights(counts)), scanners);
      if name in counts {
        WeightOfSum(CountsFor(counts, front), counts[name]);
      }
    }
  }

  lemma {:induction false} WithoutTool(weights: map<string, int>, scanners: seq<Scanner>, tool: string)
    requires Distinct(Names(scanners)) && tool in weights
    ensures Sum(MapSeq(Weight(weights), scanners)) ==
            Sum(MapSeq(Weight(weights - {tool}), scanners)) + if tool in Names(scanners) then weights[tool] else 0
  {
    if scanners != [] {
      var n := |scanners| - 1;
      var front := scanners[..n];
      assert Names(front) == Names(scanners)[..n];
      assert Names(scanners) == Names(front) + [scanners[n].name];
      WithoutTool(weights, front, tool);
      SumOfLast(Weight(weights), scanners);
      SumOfLast(Weight(weights - {tool}), scanners);
      if tool in Names(front) {
        assert scanners[n].name !in Names(front);
      }
    }
  }

  lemma {:induction false} NoWeights(scanners: seq<Scanner>)
    ensures Sum(MapSeq(Weight(map[]), scanners)) == 0
  {
    if scanners != [] {
      NoWeights(scanners[..|scanners| - 1]);
      SumOfLast(Weight(map[]), scanners);
    }
  }

  /** The cost of each tool. */
  function CostMap(toolCost: ToolReport -> int, report: seq<ToolReport>): map<string, int> {
    if report == [] then map[]
    else
      var last := report[|report| - 1];
      CostMap(toolCost, report[..|report| - 1])[last.tool := toolCost(last)]
  }

  lemma {:induction false} CostMapIs(toolCost: ToolReport -> int, report: seq<ToolReport>)
    ensures forall t :: t in CostMap(toolCost, report) <==> t in Tools(report)
  {
    if report != [] {
      var n := |report| - 1;
      CostMapIs(toolCost, report[..n]);
      assert Tools(report) == Tools(report[..n]) + [report[n].tool];
    }
  }

  lemma ToolWeight(classify: Classifier, cost: Tariff, r: ToolReport)
    requires Weighs(classify, cost)
    ensures WeightedTotal(CountAll(classify, r.findings, false)) == ToolCost(cost, false)(r)
  {
    CountsCost(classify, cost, r.findings, false);
  }

  lemma WeightsWith(counts: map<string, Counts>, tool: string, c: Counts)
    ensures Weights(counts[tool := c]) == Weights(counts)[tool := WeightedTotal(c)]
  {
  }

  lemma {:induction false} ReportWeights(classify: Classifier, cost: Tariff, report: seq<ToolReport>)
    requires Weighs(classify, cost)
    ensures Weights(ReportMap(classify, report)) == CostMap(ToolCost(cost, false), report)
  {
    if report != [] {
      var n := |report| - 1;
      ReportWeights(classify, cost, report[..n]);
      ToolWeight(classify, cost, report[n]);
      WeightsWith(ReportMap(classify, report[..n]), report[n].tool, CountAll(classify, report[n].findings, false));
    }
  }

  lemma {:induction false} ScannersCost(
    toolCost: ToolReport -> int, scanners: seq<Scanner>, report: seq<ToolReport>, names: set<string>)
    requires Distinct(Names(scanners)) && Distinct(Tools(report))
    requires forall n :: n in names <==> n in Names(scanners)
    ensures Sum(MapSeq(Weight(CostMap(toolCost, report)), scanners)) == Sum(MapSeq(DomainCost(toolCost, names), report))
  {
    if report == [] {
      NoWeights(scanners);
    } else {
      var n := |report| - 1;
      var tool, front := report[n].tool, report[..n];
      assert Tools(report)[..n] == Tools(front);
      assert Tools(report) == Tools(front) + [tool];
      CostMapIs(toolCost, front);
      assert tool !in CostMap(toolCost, front);
      assert CostMap(toolCost, report) - {tool} == CostMap(toolCost, front);
      ScannersCost(toolCost, scanners, front, names);
      SumOfLast(DomainCost(toolCost, names), report);
      WithoutTool(CostMap(toolCost, report), scanners, tool);
    }
  }

  /** The enabled scanners of a scan type. */
  function NamesFor(registry: seq<Scanner>, scanType: string): set<string> {
    set sc | sc in registry && sc.enabled && scanType in sc.scanTypes :: sc.name
  }

  lemma {:induction false} FilteredNames(p: Scanner -> bool, scanners: seq<Scanner>)
    ensures forall n :: n in Names(Filter(p, scanners)) <==> exists sc :: sc in scanners && p(sc) && sc.name == n
  {
    if scanners != [] {
      var n := |scanners| - 1;
      FilteredNames(p, scanners[..n]);
      var kept, sc := Filter(p, scanners[..n]), scanners[n];
      assert scanners == scanners[..n] + [sc];
      assert Names(kept + [sc]) == Names(kept) + [sc.name];
      assert kept + [] == kept;
    }
  }

  /** The score of a domain is 100 less the cost of the findings of the tools that an enabled scanner of the scan
      type reports, at most 60; there is one if such a tool is in the report. */
  lemma DomainScoreIs(report: seq<ToolReport>, registry: seq<Scanner>, scanType: string)
    requires Distinct(Tools(report)) && Distinct(Names(registry))
    ensures
      var scanners, names := ScannersForType(registry, scanType), NamesFor(registry, scanType);
      && (Present(ReportMap(Classified, report), scanners) <==> exists r :: r in report && r.tool in names)
      && ScoreOf(CountsFor(ReportMap(Classified, report), scanners)) ==
         100 - AtMostSixty(Sum(MapSeq(DomainCost(ToolCost(Cost, false), names), report)))
  {
    var p, names := Supports(scanType), NamesFor(registry, scanType);
    var scanners := ScannersForType(registry, scanType);
    FilterKeepsNames(p, registry);
    SortKeepsNames(Filter(p, registry));
    FilteredNames(p, registry);
    NamesAreFor(registry, scanType);
    ClassifiedWeighs();
    PresentIff(Classified, report, scanners, names);
    ReportWeights(Classified, Cost, report);
    ScannersWeigh(ReportMap(Classified, report), scanners);
    ScannersCost(ToolCost(Cost, false), scanners, report, names);
    ScoreByWeight(CountsFor(ReportMap(Classified, report), scanners));
  }

  lemma NamesAreFor(registry: seq<Scanner>, scanType: string)
    ensures forall n :: n in NamesFor(registry, scanType) <==>
                        exists sc :: sc in registry && Supports(scanType)(sc) && sc.name == n
  {
  }

  lemma PresentIff(classify: Classifier, report: seq<ToolReport>, scanners: seq<Scanner>, names: set<string>)
    requires Distinct(Tools(report)) && forall n :: n in names <==> n in Names(scanners)
    ensures Present(ReportMap(classify, report), scanners) <==> exists r :: r in report && r.tool in names
  {
    ReportMapIsTheReport(classify, report);
    var counts := ReportMap(classify, report);
    if i :| 0 <= i < |scanners| && scanners[i].name in counts {
      assert Names(scanners)[i] in names;
      var j :| 0 <= j < |report| && Tools(report)[j] == scanners[i].name;
      assert report[j] in report && report[j].tool in names;
    }
    if r :| r in report && r.tool in names {
      var j :| 0 <= j < |report| && report[j] == r;
      assert Tools(report)[j] == r.tool;
      var i :| 0 <= i < |scanners| && Names(scanners)[i] == r.tool;
      assert scanners[i].name in counts;
    }
  }

  // ----- the counts -----

  /** Whether a finding stands in the list of this level in the summary. */
  function OfLevel(classify: Classifier, level: Level, bareCounts: bool): Item -> bool {
    (item: Item) => LevelOf(classify, item, bareCounts) == Some(level)
  }

  /** Each number of the summary is that of the findings of its level. */
  lemma {:induction false} CountsAre(classify: Classifier, items: seq<Item>, bareCounts: bool)
    ensures
      var c := CountAll(classify, items, bareCounts);
      && c.critical == |Filter(OfLevel(classify, Critical, bareCounts), items)|
      && c.high == |Filter(OfLevel(classify, High, bareCounts), items)|
      && c.medium == |Filter(OfLevel(classify, Medium, bareCounts), items)|
      && c.low == |Filter(OfLevel(classify, Low, bareCounts), items)|
      && c.info == |Filter(OfLevel(classify, Info, bareCounts), items)|
  {
    if items != [] {
      CountsAre(classify, items[..|items| - 1], bareCounts);
    }
  }
}

/** The prompt splitter and the finding selection of scanner/output/ai_prompt_modal.ts. */
module PromptSplit {
  import opened Collections
  import opened Findings
  import PolicyMatching

  /** A missing field is "". */
  datatype ReportFinding = ReportFinding(tool: string, severity: string, path: string, line: string, message: string,
      ruleId: string)

  function ToolOf(f: ReportFinding): string {
    if f.tool == "" then "Unknown" else f.tool
  }

  // ----- the order of the tools -----

  /** An array index of JavaScript in decimal: such a property name comes before all others. */
  predicate IsIndex(name: string) {
    && name != ""
    && (forall i :: 0 <= i < |name| ==> '0' <= name[i] <= '9')
    && (name[0] == '0' ==> |name| == 1)
    && DigitsValue(name) < 0xFFFF_FFFF
  }

  predicate NoIndex(name: string) {
    !IsIndex(name)
  }

  function ByValue(): (string, string) -> bool {
    (a, b) => DigitsValue(a) <= DigitsValue(b)
  }

  /** The order of Object.entries for properties created in the order of `names`: array indices
      ascending, then the other names as created. */
  function EntryOrder(names: seq<string>): seq<string> {
    StableSort(ByValue(), Filter(IsIndex, names)) + Filter(NoIndex, names)
  }

  lemma {:induction false} FilterSplits<T>(p: T -> bool, q: T -> bool, s: seq<T>)
    requires forall x :: x in s ==> p(x) != q(x)
    ensures multiset(Filter(p, s)) + multiset(Filter(q, s)) == multiset(s)
  {
    if s != [] {
      var n := |s| - 1;
      assert s == s[..n] + [s[n]];
      FilterSplits(p, q, s[..n]);
    }
  }

  lemma {:induction false} DistinctByCount<T>(s: seq<T>)
    ensures Distinct(s) <==> forall x :: x in s ==> multiset(s)[x] == 1
  {
    if s != [] {
      var n := |s| - 1;
      assert s == s[..n] + [s[n]];
      DistinctByCount(s[..n]);
      assert forall x :: multiset(s)[x] == multiset(s[..n])[x] + if x == s[n] then 1 else 0;
      if Distinct(s) {
        assert s[n] !in s[..n];
      } else {
        var i, j :| 0 <= i < j < |s| && s[i] == s[j];
        assert s[i] in s[..n];
        if j < n {
          assert s[..n][i] == s[..n][j];
        }
      }
    }
  }

  /** The entries are the names, each once. */
  lemma EntriesAreTheNames(names: seq<string>)
    requires Distinct(names)
    ensures Distinct(EntryOrder(names)) && multiset(EntryOrder(names)) == multiset(names)
    ensures forall name :: name in EntryOrder(names) <==> name in names
  {
    SortSorts(ByValue(), Filter(IsIndex, names));
    FilterSplits(IsIndex, NoIndex, names);
    DistinctByCount(names);
    DistinctByCount(EntryOrder(names));
    forall name ensures name in EntryOrder(names) <==> name in names {
      assert name in multiset(EntryOrder(names)) <==> name in multiset(names);
    }
  }

  /** The findings of each tool, in the order of the entries. */
  function Groups(findings: seq<ReportFinding>): seq<seq<ReportFinding>> {
    BlocksOf(ToolOf, EntryOrder(Keys(ToolOf, findings)), findings)
  }

  // ----- next-fit packing of groups into chunks -----

  /** Closed chunks and the current one after some groups. */
  function PackState<T>(groups: seq<seq<T>>, max: int): (seq<seq<T>>, seq<T>) {
    if groups == [] then ([], [])
    else
      var n := |groups| - 1;
      var (chunks, current) := PackState(groups[..n], max);
      if |current| + |groups[n]| > max && |current| > 0 then (chunks + [current], groups[n])
      else (chunks, current + groups[n])
  }

  function Close<T>(chunks: seq<seq<T>>, current: seq<T>): seq<seq<T>> {
    if |current| > 0 then chunks + [current] else chunks
  }

  function Packed<T>(groups: seq<seq<T>>, max: int): seq<seq<T>> {
    Close(PackState(groups, max).0, PackState(groups, max).1)
  }

  function Chunks(findings: seq<ReportFinding>, max: int): seq<seq<ReportFinding>> {
    Packed(Groups(findings), max)
  }

  ghost predicate NonEmpty<T>(groups: seq<seq<T>>) {
    forall i :: 0 <= i < |groups| ==> groups[i] != []
  }

  /** Nothing is lost and the order of the groups is kept. */
  lemma {:induction false} PackingConcatenates<T>(groups: seq<seq<T>>, max: int)
    ensures Flatten(Packed(groups, max)) == Flatten(PackState(groups, max).0) + PackState(groups, max).1 ==
        Flatten(groups)
  {
    var (chunks, current) := PackState(groups, max);
    if |current| > 0 {
      FlattenSnoc(chunks, current);
    }
    if groups != [] {
      var n := |groups| - 1;
      var (chunks0, current0) := PackState(groups[..n], max);
      PackingConcatenates(groups[..n], max);
      FlattenSnoc(chunks0, current0);
      FlattenSnoc(groups[..n], groups[n]);
      assert groups == groups[..n] + [groups[n]];
    }
  }

  ghost predicate IsGroup<T>(chunk: seq<T>, groups: seq<seq<T>>) {
    exists g :: 0 <= g < |groups| && groups[g] == chunk
  }

  /** A chunk over the limit is one whole group. */
  ghost predicate Roomy<T>(chunk: seq<T>, groups: seq<seq<T>>, max: int) {
    chunk != [] && (|chunk| > max ==> IsGroup(chunk, groups))
  }

  ghost predicate AllRoomy<T>(chunks: seq<seq<T>>, groups: seq<seq<T>>, max: int) {
    forall i :: 0 <= i < |chunks| ==> Roomy(chunks[i], groups, max)
  }

  lemma IsGroupLater<T>(chunk: seq<T>, groups: seq<seq<T>>, n: nat)
    requires n <= |groups| && IsGroup(chunk, groups[..n])
    ensures IsGroup(chunk, groups)
  {
    var g :| 0 <= g < n && groups[..n][g] == chunk;
    assert groups[g] == chunk;
  }

  lemma {:induction false} OversizedChunksAreOneGroup<T>(groups: seq<seq<T>>, max: int)
    requires NonEmpty(groups)
    ensures AllRoomy(PackState(groups, max).0, groups, max)
    ensures groups != [] ==> Roomy(PackState(groups, max).1, groups, max)
    ensures AllRoomy(Packed(groups, max), groups, max)
  {
    if groups != [] {
      var n := |groups| - 1;
      OversizedChunksAreOneGroup(groups[..n], max);
      var (chunks, current) := PackState(groups[..n], max);
      forall c | Roomy(c, groups[..n], max) ensures Roomy(c, groups, max) {
        if |c| > max {
          IsGroupLater(c, groups, n);
        }
      }
      assert IsGroup(groups[n], groups);
      if current == [] {
        assert current + groups[n] == groups[n];
      }
    }
  }

  /** Neighbouring chunks would not fit into one. */
  ghost predicate Tight<T>(chunks: seq<seq<T>>, max: int) {
    forall i :: 0 <= i < |chunks| - 1 ==> |chunks[i]| + |chunks[i + 1]| > max
  }

  lemma {:induction false} NeighboursExceed<T>(groups: seq<seq<T>>, max: int)
    requires NonEmpty(groups)
    ensures groups != [] ==> PackState(groups, max).1 != []
    ensures Tight(PackState(groups, max).0 + [PackState(groups, max).1], max)
    ensures Tight(Packed(groups, max), max)
  {
    if groups != [] {
      var n := |groups| - 1;
      NeighboursExceed(groups[..n], max);
      var (chunks, current) := PackState(groups[..n], max);
      var before, after := chunks + [current], chunks + [current + groups[n]];
      assert forall i :: 0 <= i < |before| ==> |before[i]| <= |after[i]|;
      assert Tight(before, max) && Tight(after, max);
      if |current| + |groups[n]| > max && |current| > 0 {
        var split := before + [groups[n]];
        assert forall i :: 0 <= i < |before| ==> split[i] == before[i];
        assert Tight(split, max);
      }
    }
  }

  lemma {:induction false} FlattenSize<T>(chunks: seq<seq<T>>, max: int)
    requires max >= 0 && forall i :: 0 <= i < |chunks| ==> |chunks[i]| <= max
    ensures |Flatten(chunks)| <= |chunks| * max
  {
    if chunks != [] {
      FlattenSize(chunks[1..], max);
      assert |chunks| * max == max + (|chunks| - 1) * max;
    }
  }

  lemma {:induction false} TightIsHalfFull<T>(chunks: seq<seq<T>>, max: int)
    requires Tight(chunks, max)
    ensures |chunks| / 2 * (max + 1) <= |Flatten(chunks)|
    decreases |chunks|
  {
    if |chunks| >= 2 {
      var rest := chunks[2..];
      assert forall i :: 0 <= i < |rest| ==> rest[i] == chunks[i + 2];
      TightIsHalfFull(rest, max);
      assert chunks[1..][1..] == rest;
      assert |chunks[0]| + |chunks[1]| >= max + 1;
      assert |chunks| / 2 == |rest| / 2 + 1;
      assert (|rest| / 2 + 1) * (max + 1) == |rest| / 2 * (max + 1) + (max + 1);
    }
  }

  lemma Grows(a: nat, b: nat, c: nat)
    ensures a >= b ==> a * c >= b * c
  {
  }

  lemma FewerThan(h: nat, q: nat, max: int)
    requires max >= 0 && h * (max + 1) <= q * max && q > 0
    ensures h < q
  {
    if h >= q {
      Grows(h, q, max + 1);
      assert false;
    }
  }

  lemma GroupsAreNonEmpty(findings: seq<ReportFinding>)
    ensures NonEmpty(Groups(findings))
  {
    KeysAreTheKeys(ToolOf, findings);
    EntriesAreTheNames(Keys(ToolOf, findings));
  }

  lemma GroupsPermute(findings: seq<ReportFinding>)
    ensures multiset(Flatten(Groups(findings))) == multiset(findings)
  {
    KeysAreTheKeys(ToolOf, findings);
    EntriesAreTheNames(Keys(ToolOf, findings));
    BlocksPermute(ToolOf, EntryOrder(Keys(ToolOf, findings)), findings);
  }

  /** The chunks are the findings grouped by tool, in order; neighbours total more than the limit;
      so there are at most total / (max + 1) pairs of them. */
  lemma ChunksCarryAllFindings(findings: seq<ReportFinding>, max: int)
    ensures
      var chunks := Chunks(findings, max);
      && Flatten(chunks) == Flatten(Groups(findings)) && multiset(Flatten(chunks)) == multiset(findings)
      && Tight(chunks, max)
      && |chunks| / 2 * (max + 1) <= |findings|
  {
    var groups := Groups(findings);
    GroupsAreNonEmpty(findings);
    PackingConcatenates(groups, max);
    NeighboursExceed(groups, max);
    GroupsPermute(findings);
    TightIsHalfFull(Chunks(findings, max), max);
    assert |multiset(findings)| == |multiset(Flatten(groups))|;
  }

  /** Next-fit needs less than twice the chunks of any split that respects the limit, even of one
      that tears tools apart. */
  lemma LessThanTwiceOptimal(findings: seq<ReportFinding>, max: int, split: seq<seq<ReportFinding>>)
    requires max >= 0 && findings != [] && multiset(Flatten(split)) == multiset(findings)
    requires forall i :: 0 <= i < |split| ==> |split[i]| <= max
    ensures |Chunks(findings, max)| <= 2 * |split| - 1
  {
    ChunksCarryAllFindings(findings, max);
    FlattenSize(split, max);
    assert |multiset(Flatten(split))| == |multiset(findings)|;
    assert split != [];
    FewerThan(|Chunks(findings, max)| / 2, |split|, max);
  }

  // ----- each tool stays together -----

  ghost predicate Apart<T, K>(key: T -> K, a: seq<T>, b: seq<T>) {
    forall x, y :: x in a && y in b ==> key(x) != key(y)
  }

  ghost predicate AllApart<T, K>(key: T -> K, chunks: seq<seq<T>>) {
    forall i, j :: 0 <= i < j < |chunks| ==> Apart(key, chunks[i], chunks[j])
  }

  ghost predicate KeysWithin<T, K>(key: T -> K, chunks: seq<seq<T>>, ks: seq<K>) {
    forall i, x :: 0 <= i < |chunks| && x in chunks[i] ==> key(x) in ks
  }

  lemma {:induction false} GroupsStayTogether<T, K>(key: T -> K, ks: seq<K>, groups: seq<seq<T>>, max: int)
    requires UniformBlocks(key, ks, groups)
    ensures
      var (chunks, current) := PackState(groups, max);
      AllApart(key, chunks + [current]) && KeysWithin(key, chunks + [current], ks)
  {
    if groups != [] {
      var n := |groups| - 1;
      GroupsStayTogether(key, ks[..n], groups[..n], max);
      var (chunks, current) := PackState(groups[..n], max);
      NewGroupIsApart(key, ks, chunks, current, groups[n]);
    }
  }

  lemma NewGroupIsApart<T, K>(key: T -> K, ks: seq<K>, chunks: seq<seq<T>>, current: seq<T>, group: seq<T>)
    requires ks != [] && Distinct(ks) && forall x :: x in group ==> key(x) == ks[|ks| - 1]
    requires AllApart(key, chunks + [current]) && KeysWithin(key, chunks + [current], ks[..|ks| - 1])
    ensures AllApart(key, chunks + [current] + [group]) && KeysWithin(key, chunks + [current] + [group], ks)
    ensures AllApart(key, chunks + [current + group]) && KeysWithin(key, chunks + [current + group], ks)
  {
    var all := chunks + [current];
    var last := ks[|ks| - 1];
    assert last !in ks[..|ks| - 1];
    forall i | 0 <= i < |all| ensures Apart(key, all[i], group) {
    }
    var joined := chunks + [current + group];
    forall i, j | 0 <= i < j < |joined| ensures Apart(key, joined[i], joined[j]) {
      assert Apart(key, all[i], all[j]) && Apart(key, all[i], group);
    }
    forall i, x | 0 <= i < |joined| && x in joined[i] ensures key(x) in ks {
      if x !in group {
        assert x in all[i];
      }
    }
  }

  ghost predicate OneTool(chunk: seq<ReportFinding>, findings: seq<ReportFinding>) {
    exists t :: chunk == Members(ToolOf, t, findings)
  }

  lemma AllApartPrefix<T, K>(key: T -> K, chunks: seq<seq<T>>, last: seq<T>)
    requires AllApart(key, chunks + [last])
    ensures AllApart(key, chunks)
  {
    var all := chunks + [last];
    forall i, j | 0 <= i < j < |chunks| ensures Apart(key, chunks[i], chunks[j]) {
      assert Apart(key, all[i], all[j]);
    }
  }

  lemma ChunksAreApart(findings: seq<ReportFinding>, max: int)
    ensures AllApart(ToolOf, Chunks(findings, max))
  {
    var groups, ks := Groups(findings), EntryOrder(Keys(ToolOf, findings));
    KeysAreTheKeys(ToolOf, findings);
    EntriesAreTheNames(Keys(ToolOf, findings));
    forall i, x | 0 <= i < |groups| && x in groups[i] ensures ToolOf(x) == ks[i] {
      MembersHaveKey(ToolOf, ks[i], findings);
    }
    GroupsStayTogether(ToolOf, ks, groups, max);
    AllApartPrefix(ToolOf, PackState(groups, max).0, PackState(groups, max).1);
  }

  lemma OversizedChunksAreOneTool(findings: seq<ReportFinding>, max: int, i: nat)
    requires i < |Chunks(findings, max)| && |Chunks(findings, max)[i]| > max
    ensures OneTool(Chunks(findings, max)[i], findings)
  {
    var groups := Groups(findings);
    GroupsAreNonEmpty(findings);
    OversizedChunksAreOneGroup(groups, max);
    assert Roomy(Chunks(findings, max)[i], groups, max);
    var g :| 0 <= g < |groups| && groups[g] == Chunks(findings, max)[i];
    assert groups[g] == Members(ToolOf, EntryOrder(Keys(ToolOf, findings))[g], findings);
  }

  /** No tool is spread over two chunks, and a chunk over the limit holds one tool only. */
  lemma EachToolInOneChunk(findings: seq<ReportFinding>, max: int)
    ensures
      var chunks := Chunks(findings, max);
      && AllApart(ToolOf, chunks)
      && forall i :: 0 <= i < |chunks| && |chunks[i]| > max ==> OneTool(chunks[i], findings)
  {
    ChunksAreApart(findings, max);
    var chunks := Chunks(findings, max);
    forall i | 0 <= i < |chunks| && |chunks[i]| > max ensures OneTool(chunks[i], findings) {
      OversizedChunksAreOneTool(findings, max, i);
    }
  }

  // ----- the loops -----

  /** No tool has the name of a property that every object inherits ("constructor", "toString"): such
      a name is found in the empty object, and adding a finding to what is found there throws. */
  ghost predicate Groupable(inherited: set<string>, findings: seq<ReportFinding>) {
    forall i :: 0 <= i < |findings| ==> ToolOf(findings[i]) !in inherited
  }

  ghost predicate Grouped(created: seq<string>, byTool: map<string, seq<ReportFinding>>, findings: seq<ReportFinding>) {
    && created == Keys(ToolOf, findings)
    && (forall k :: k in byTool <==> k in created)
    && (forall k :: k in byTool ==> byTool[k] == Members(ToolOf, k, findings))
  }

  lemma GroupedSnoc(created: seq<string>, byTool: map<string, seq<ReportFinding>>, findings: seq<ReportFinding>,
                    f: ReportFinding, created': seq<string>, byTool': map<string, seq<ReportFinding>>)
    requires Grouped(created, byTool, findings)
    requires created' == if ToolOf(f) in created then created else created + [ToolOf(f)]
    requires byTool' == byTool[ToolOf(f) := (if ToolOf(f) in byTool then byTool[ToolOf(f)] else []) + [f]]
    ensures Grouped(created', byTool', findings + [f])
  {
    KeysOfSnoc(ToolOf, findings, f);
    forall k ensures k in byTool' <==> k in created' {
      assert k in created' <==> k in created || k == ToolOf(f);
    }
    forall k | k in byTool' ensures byTool'[k] == Members(ToolOf, k, findings + [f]) {
      MembersOfSnoc(ToolOf, k, findings, f);
      if k !in byTool {
        NoMembers(ToolOf, k, findings);
      }
    }
  }

  /** The grouping loop; not `ok` is the exception. */
  method GroupByTool(inherited: set<string>, findings: seq<ReportFinding>)
    returns (ok: bool, created: seq<string>, byTool: map<string, seq<ReportFinding>>)
    ensures ok == Groupable(inherited, findings)
    ensures ok ==> Grouped(created, byTool, findings)
  {
    created, byTool := [], map[];
    for i := 0 to |findings|
      invariant Groupable(inherited, findings[..i])
      invariant Grouped(created, byTool, findings[..i])
    {
      var tool := ToolOf(findings[i]);
      if tool in inherited {
        return false, [], map[];
      }
      ghost var created0, byTool0 := created, byTool;
      if tool !in byTool {
        created := created + [tool];
        byTool := byTool[tool := []];
      }
      byTool := byTool[tool := byTool[tool] + [findings[i]]];
      GroupedSnoc(created0, byTool0, findings[..i], findings[i], created, byTool);
      assert findings[..i + 1] == findings[..i] + [findings[i]];
    }
    assert findings[..|findings|] == findings;
    ok := true;
  }

  lemma EntryIsGroup(created: seq<string>, byTool: map<string, seq<ReportFinding>>, findings: seq<ReportFinding>,
      i: nat)
    requires Grouped(created, byTool, findings) && i < |EntryOrder(created)|
    ensures EntryOrder(created)[i] in byTool && byTool[EntryOrder(created)[i]] == Groups(findings)[i]
  {
    KeysAreTheKeys(ToolOf, findings);
    EntriesAreTheNames(created);
    assert EntryOrder(created)[i] in EntryOrder(created);
  }

  /** The chunking part of generateSplitPrompt: it throws exactly for a tool of an inherited name. */
  method SplitIntoChunks(inherited: set<string>, findings: seq<ReportFinding>, max: int)
    returns (r: Option<seq<seq<ReportFinding>>>)
    ensures r == if Groupable(inherited, findings) then Some(Chunks(findings, max)) else None
  {
    var ok, created, byTool := GroupByTool(inherited, findings);
    if !ok {
      return None;
    }
    var order := EntryOrder(created);
    ghost var groups := Groups(findings);
    var chunks, current, count := [], [], 0;
    for i := 0 to |order|
      invariant (chunks, current) == PackState(groups[..i], max) && count == |current|
    {
      EntryIsGroup(created, byTool, findings, i);
      var toolFindings := byTool[order[i]];
      assert groups[..i + 1][..i] == groups[..i];
      if count + |toolFindings| > max && |current| > 0 {
        chunks := chunks + [current];
        current, count := [], 0;
      }
      assert [] + toolFindings == toolFindings;
      current := current + toolFindings;
      count := count + |toolFindings|;
    }
    assert groups[..|order|] == groups;
    if |current| > 0 {
      chunks := chunks + [current];
    }
    r := Some(chunks);
  }

  // ----- selection -----

  function NormalizeSeverity(sev: string): string {
    var raw := Upper(PolicyMatching.Strip(sev));
    if raw == "" then "INFO"
    else if Contains(raw, "CRIT") then "CRITICAL"
    else if raw in ["HIGH", "ERROR"] then "HIGH"
    else if raw in ["MEDIUM", "MED", "WARN", "MODERATE"] then "MEDIUM"
    else if raw == "LOW" then "LOW"
    else if raw in ["INFO", "INFORMATIONAL", "NOTE"] then "INFO"
    else raw
  }

  function SeverityRank(sev: string): nat {
    match NormalizeSeverity(sev)
    case "CRITICAL" => 0
    case "HIGH" => 1
    case "MEDIUM" => 2
    case "LOW" => 3
    case "INFO" => 4
    case _ => 5
  }

  /** -1 means a key that is no threshold at all: ALL. */
  function Threshold(minSeverity: string): int {
    match Upper(PolicyMatching.Strip(if minSeverity == "" then "ALL" else minSeverity))
    case "ALL" => -1
    case "CRITICAL" => 0
    case "MEDIUM" => 2
    case "LOW" => 3
    case "INFO" => 4
    case _ => 1
  }

  predicate PassesMinSeverity(sev: string, minSeverity: string) {
    Threshold(minSeverity) == -1 || SeverityRank(sev) <= Threshold(minSeverity)
  }

  /** localeCompare, as a total preorder of its own. */
  type Locale = (string, string) -> bool

  type Order = (ReportFinding, ReportFinding) -> bool

  function BySeverity(): Order {
    (a: ReportFinding, b: ReportFinding) => SeverityRank(a.severity) <= SeverityRank(b.severity)
  }

  function ByText(locale: Locale, text: ReportFinding -> string): Order {
    (a: ReportFinding, b: ReportFinding) => locale(Lower(text(a)), Lower(text(b)))
  }

  /** One comparison, and the next one where it ties. */
  function Then(first: Order, second: Order): Order {
    (a: ReportFinding, b: ReportFinding) => first(a, b) && (first(b, a) ==> second(a, b))
  }

  function SortOrder(locale: Locale, sortBy: string): Order {
    var tool, path := ByText(locale, (f: ReportFinding) => f.tool), ByText(locale, (f: ReportFinding) => f.path);
    match Lower(if sortBy == "" then "severity" else sortBy)
    case "tool" => Then(Then(tool, BySeverity()), path)
    case "path" => Then(Then(path, BySeverity()), tool)
    case _ => Then(Then(BySeverity(), tool), path)
  }

  lemma ThenIsTotalPreorder(first: Order, second: Order)
    requires TotalPreorder(first) && TotalPreorder(second)
    ensures TotalPreorder(Then(first, second))
  {
  }

  lemma TextIsTotalPreorder(locale: Locale, text: ReportFinding -> string)
    requires TotalPreorder(locale)
    ensures TotalPreorder(ByText(locale, text))
  {
    var leq := ByText(locale, text);
    forall a, b ensures leq(a, b) || leq(b, a) {
      var x, y := Lower(text(a)), Lower(text(b));
      assert locale(x, y) || locale(y, x);
    }
    forall a, b, c | leq(a, b) && leq(b, c) ensures leq(a, c) {
      var x, y, z := Lower(text(a)), Lower(text(b)), Lower(text(c));
      assert locale(x, y) && locale(y, z) ==> locale(x, z);
    }
  }

  /** Each of the three sort orders is a total preorder, so the sort is defined by it. */
  lemma SortOrderIsTotalPreorder(locale: Locale, sortBy: string)
    requires TotalPreorder(locale)
    ensures TotalPreorder(SortOrder(locale, sortBy))
  {
    var tool, path := ByText(locale, (f: ReportFinding) => f.tool), ByText(locale, (f: ReportFinding) => f.path);
    TextIsTotalPreorder(locale, (f: ReportFinding) => f.tool);
    TextIsTotalPreorder(locale, (f: ReportFinding) => f.path);
    ThenIsTotalPreorder(tool, BySeverity());
    ThenIsTotalPreorder(path, BySeverity());
    ThenIsTotalPreorder(BySeverity(), tool);
    ThenIsTotalPreorder(Then(tool, BySeverity()), path);
    ThenIsTotalPreorder(Then(path, BySeverity()), tool);
    ThenIsTotalPreorder(Then(BySeverity(), tool), path);
  }

  datatype Options = Options(maxFindings: int, minSeverity: string, tool: string, sortBy: string)

  function Matches(options: Options): ReportFinding -> bool {
    (f: ReportFinding) =>
      && (PolicyMatching.Strip(options.tool) == ""
         || PolicyMatching.Strip(f.tool) == PolicyMatching.Strip(options.tool))
      && PassesMinSeverity(f.severity, options.minSeverity)
  }

  function Least<T>(leq: (T, T) -> bool, s: seq<T>, cap: nat): seq<T> {
    if |StableSort(leq, s)| <= cap then StableSort(leq, s) else StableSort(leq, s)[..cap]
  }

  function Cap(options: Options): nat {
    if options.maxFindings < 1 then 1 else options.maxFindings
  }

  function Selected(locale: Locale, options: Options, findings: seq<ReportFinding>): seq<ReportFinding> {
    Least(SortOrder(locale, options.sortBy), Filter(Matches(options), findings), Cap(options))
  }

  /** selectFindingsForPrompt. */
  method SelectFindingsForPrompt(locale: Locale, options: Options, findings: seq<ReportFinding>)
    returns (selected: seq<ReportFinding>, matched: nat)
    ensures selected == Selected(locale, options, findings)
    ensures matched == |Filter(Matches(options), findings)|
  {
    var filtered: seq<ReportFinding> := [];
    for i := 0 to |findings|
      invariant filtered == Filter(Matches(options), findings[..i])
    {
      assert findings[..i + 1][..i] == findings[..i];
      if Matches(options)(findings[i]) {
        filtered := filtered + [findings[i]];
      }
    }
    assert findings[..|findings|] == findings;
    var sorted := StableSort(SortOrder(locale, options.sortBy), filtered);
    var cap := Cap(options);
    selected := if |sorted| <= cap then sorted else sorted[..cap];
    matched := |filtered|;
  }

  /** `best` and `rest` share out `all`, and everything in `best` comes before everything in `rest`. */
  ghost predicate Cut<T>(leq: (T, T) -> bool, all: seq<T>, best: seq<T>, rest: seq<T>) {
    && multiset(best) + multiset(rest) == multiset(all)
    && Sorted(leq, best)
    && forall i, j :: 0 <= i < |best| && 0 <= j < |rest| ==> leq(best[i], rest[j])
  }

  lemma LeastAreFirst<T(!new)>(leq: (T, T) -> bool, s: seq<T>, cap: nat) returns (rest: seq<T>)
    requires TotalPreorder(leq)
    ensures Cut(leq, s, Least(leq, s, cap), rest)
    ensures |Least(leq, s, cap)| == if |s| <= cap then |s| else cap
  {
    var sorted := StableSort(leq, s);
    SortSorts(leq, s);
    var k := if |sorted| <= cap then |sorted| else cap;
    rest := sorted[k..];
    assert sorted == sorted[..k] + rest;
    assert Least(leq, s, cap) == sorted[..k];
  }

  /** The selection is the best `cap` of the matching findings: whatever matched and was left out
      comes after everything selected. */
  lemma SelectionIsTheBest(locale: Locale, options: Options, findings: seq<ReportFinding>)
    returns (rest: seq<ReportFinding>)
    requires TotalPreorder(locale)
    ensures
      var matching, selected := Filter(Matches(options), findings), Selected(locale, options, findings);
      && Cut(SortOrder(locale, options.sortBy), matching, selected, rest)
      && |selected| <= Cap(options)
      && (rest != [] ==> |selected| == Cap(options))
  {
    SortOrderIsTotalPreorder(locale, options.sortBy);
    var matching := Filter(Matches(options), findings);
    rest := LeastAreFirst(SortOrder(locale, options.sortBy), matching, Cap(options));
    var selected := Selected(locale, options, findings);
    assert |multiset(selected) + multiset(rest)| == |multiset(matching)|;
  }

  lemma FilterOfPrefix<T>(p: T -> bool, s: seq<T>, k: nat)
    requires k <= |s|
    ensures Filter(p, s[..k]) <= Filter(p, s)
  {
    assert s == s[..k] + s[k..];
    FilterAppend(p, s[..k], s[k..]);
  }

  /** Findings that tie are selected in the order in which they were given, the first ones first. */
  lemma TiesKeepInputOrder(locale: Locale, options: Options, findings: seq<ReportFinding>, tie: ReportFinding -> bool)
    requires TotalPreorder(locale)
    requires
      var matching := Filter(Matches(options), findings);
      forall a, b :: a in matching && b in matching && tie(a) && tie(b) ==> SortOrder(locale, options.sortBy)(a, b)
    ensures Filter(tie, Selected(locale, options, findings)) <= Filter(tie, Filter(Matches(options), findings))
  {
    var order, matching := SortOrder(locale, options.sortBy), Filter(Matches(options), findings);
    SortOrderIsTotalPreorder(locale, options.sortBy);
    SortIsStable(order, tie, matching);
    var sorted := StableSort(order, matching);
    var cap := Cap(options);
    FilterOfPrefix(tie, sorted, if |sorted| <= cap then |sorted| else cap);
    assert sorted[..|sorted|] == sorted;
  }

  /** In the default order a finding that was left out is never more severe than a selected one. */
  lemma MostSevereAreSelected(locale: Locale, options: Options, findings: seq<ReportFinding>, rest: seq<ReportFinding>,
      i: nat, j: nat)
    requires Lower(if options.sortBy == "" then "severity" else options.sortBy) !in ["tool", "path"]
    requires Cut(SortOrder(locale, options.sortBy), Filter(Matches(options), findings),
        Selected(locale, options, findings), rest)
    requires i < |Selected(locale, options, findings)| && j < |rest|
    ensures SeverityRank(Selected(locale, options, findings)[i].severity) <= SeverityRank(rest[j].severity)
  {
    assert SortOrder(locale, options.sortBy)(Selected(locale, options, findings)[i], rest[j]);
  }
}

/** The selection of findings for a prompt in terms of the texts a caller gives, and the order in which
    tools are packed: scanner/output/ai_prompt_modal.ts. */
module PromptMeaning {
  import opened Collections
  import opened Findings
  import PolicyMatching
  import opened TextMeaning
  import opened PromptSplit

  // ----- severities -----

  /** The place of a severity in the default order, from the critical ones down to unknown names. */
  function Rank(severity: string): nat {
    RankOf(PolicyMatching.Strip(severity))
  }

  function RankOf(s: string): nat {
    if OccursUpToCase("CRIT", s) then 0
    else if SameUpToCase(s, "HIGH") || SameUpToCase(s, "ERROR") then 1
    else if SameUpToCase(s, "MEDIUM") || SameUpToCase(s, "MED") || SameUpToCase(s, "WARN")
            || SameUpToCase(s, "MODERATE") then 2
    else if SameUpToCase(s, "LOW") then 3
    else if s == "" || SameUpToCase(s, "INFO") || SameUpToCase(s, "INFORMATIONAL") || SameUpToCase(s, "NOTE") then 4
    else 5
  }

  lemma IsUpper(s: string, name: string)
    requires forall i :: 0 <= i < |name| ==> !('a' <= name[i] <= 'z')
    ensures Upper(s) == name <==> SameUpToCase(s, name)
  {
    SameUpper(s, name);
    assert Upper(name) == name;
  }

  /** The same for a text in upper case. */
  function RawRank(raw: string): nat {
    if raw == "" then 4
    else if Contains(raw, "CRIT") then 0
    else if raw == "HIGH" || raw == "ERROR" then 1
    else if raw == "MEDIUM" || raw == "MED" || raw == "WARN" || raw == "MODERATE" then 2
    else if raw == "LOW" then 3
    else if raw == "INFO" || raw == "INFORMATIONAL" || raw == "NOTE" then 4
    else 5
  }

  lemma RawRankIs(severity: string)
    ensures SeverityRank(severity) == RawRank(Upper(PolicyMatching.Strip(severity)))
  {
    assert Contains("CRITICAL", "CRIT") by {
      assert "CRIT" <= "CRITICAL"[0..];
    }
  }

  lemma UpperRank(s: string)
    ensures RawRank(Upper(s)) == RankOf(s)
  {
    UpperContains(s, "CRIT");
    IsUpper(s, "HIGH");
    IsUpper(s, "ERROR");
    IsUpper(s, "MEDIUM");
    IsUpper(s, "MED");
    IsUpper(s, "WARN");
    IsUpper(s, "MODERATE");
    IsUpper(s, "LOW");
    IsUpper(s, "INFO");
    IsUpper(s, "INFORMATIONAL");
    IsUpper(s, "NOTE");
  }

  lemma RankIs(severity: string)
    ensures SeverityRank(severity) == Rank(severity)
  {
    RawRankIs(severity);
    UpperRank(PolicyMatching.Strip(severity));
  }

  /** The least severe rank a threshold lets through; all pass "ALL" and an empty threshold, and a name that is no
      threshold means high. */
  function LowestRank(minSeverity: string): nat {
    var s := PolicyMatching.Strip(minSeverity);
    if minSeverity == "" || SameUpToCase(s, "ALL") then 5
    else if SameUpToCase(s, "CRITICAL") then 0
    else if SameUpToCase(s, "MEDIUM") then 2
    else if SameUpToCase(s, "LOW") then 3
    else if SameUpToCase(s, "INFO") then 4
    else 1
  }

  lemma ThresholdIs(minSeverity: string)
    ensures Threshold(minSeverity) == if LowestRank(minSeverity) == 5 then -1 else LowestRank(minSeverity)
  {
    var s := PolicyMatching.Strip(if minSeverity == "" then "ALL" else minSeverity);
    IsUpper(s, "ALL");
    IsUpper(s, "CRITICAL");
    IsUpper(s, "MEDIUM");
    IsUpper(s, "LOW");
    IsUpper(s, "INFO");
    if minSeverity == "" {
      AllIsAll();
    }
  }

  lemma AllIsAll()
    ensures SameUpToCase(PolicyMatching.Strip("ALL"), "ALL")
  {
    assert PolicyMatching.StripLeft("ALL") == "ALL";
    assert PolicyMatching.StripRight("ALL") == "ALL";
  }

  lemma PassesIff(severity: string, minSeverity: string)
    ensures PassesMinSeverity(severity, minSeverity) <==> Rank(severity) <= LowestRank(minSeverity)
  {
    RankIs(severity);
    ThresholdIs(minSeverity);
  }

  // ----- the selection -----

  /** A finding of the tool asked for, if any, that is severe enough. */
  predicate Wanted(options: Options, f: ReportFinding) {
    var tool := PolicyMatching.Strip(options.tool);
    && (tool == "" || PolicyMatching.Strip(f.tool) == tool)
    && Rank(f.severity) <= LowestRank(options.minSeverity)
  }

  function WantedBy(options: Options): ReportFinding -> bool {
    (f: ReportFinding) => Wanted(options, f)
  }

  lemma WantedAreMatching(options: Options, findings: seq<ReportFinding>)
    ensures Filter(Matches(options), findings) == Filter(WantedBy(options), findings)
  {
    forall f: ReportFinding ensures Matches(options)(f) == WantedBy(options)(f) {
      PassesIff(f.severity, options.minSeverity);
    }
    SameFilter(Matches(options), WantedBy(options), findings);
  }

  lemma {:induction false} SameFilter<T>(p: T -> bool, q: T -> bool, s: seq<T>)
    requires forall x :: x in s ==> p(x) == q(x)
    ensures Filter(p, s) == Filter(q, s)
  {
    if s != [] {
      assert s[|s| - 1] in s;
      SameFilter(p, q, s[..|s| - 1]);
    }
  }

  /** -1, 0 or 1 for a text that comes before, ties with or comes behind another. */
  function Compared(locale: Locale, a: string, b: string): int {
    if !locale(Lower(b), Lower(a)) then -1 else if !locale(Lower(a), Lower(b)) then 1 else 0
  }

  /** The first comparison that does not tie. */
  function First(x: int, y: int, z: int): int {
    if x != 0 then x else if y != 0 then y else z
  }

  /** The three orders: by tool or by path with the severity second, otherwise by severity, tool and path. */
  function Comparison(locale: Locale, sortBy: string, a: ReportFinding, b: ReportFinding): int {
    var severity, tool, path :=
      Rank(a.severity) - Rank(b.severity), Compared(locale, a.tool, b.tool), Compared(locale, a.path, b.path);
    if SameUpToCase(sortBy, "tool") then First(tool, severity, path)
    else if SameUpToCase(sortBy, "path") then First(path, severity, tool)
    else First(severity, tool, path)
  }

  lemma OrderIs(locale: Locale, sortBy: string, a: ReportFinding, b: ReportFinding)
    requires TotalPreorder(locale)
    ensures SortOrder(locale, sortBy)(a, b) <==> Comparison(locale, sortBy, a, b) <= 0
  {
    RankIs(a.severity);
    RankIs(b.severity);
    SameLower(sortBy, "tool");
    SameLower(sortBy, "path");
    var x, y := Lower(a.tool), Lower(b.tool);
    assert locale(x, y) || locale(y, x);
    var p, q := Lower(a.path), Lower(b.path);
    assert locale(p, q) || locale(q, p);
  }

  /** The selection holds wanted findings only, in the order asked for, at most as many as asked for and at least one
      if there is any; every wanted finding that is not in it does not come before one that is. */
  lemma SelectionIs(locale: Locale, options: Options, findings: seq<ReportFinding>) returns (rest: seq<ReportFinding>)
    requires TotalPreorder(locale)
    ensures
      var selected, wanted := Selected(locale, options, findings), Filter(WantedBy(options), findings);
      && multiset(selected) + multiset(rest) == multiset(wanted)
      && |selected| == (if |wanted| <= options.maxFindings then |wanted|
                        else if options.maxFindings >= 1 then options.maxFindings
                        else if wanted == [] then 0 else 1)
      && (forall i, j :: 0 <= i < j < |selected| ==>
            Comparison(locale, options.sortBy, selected[i], selected[j]) <= 0)
      && (forall i, j :: 0 <= i < |selected| && 0 <= j < |rest| ==>
            Comparison(locale, options.sortBy, selected[i], rest[j]) <= 0)
  {
    WantedAreMatching(options, findings);
    var selected, wanted := Selected(locale, options, findings), Filter(WantedBy(options), findings);
    var order := SortOrder(locale, options.sortBy);
    SortOrderIsTotalPreorder(locale, options.sortBy);
    rest := LeastAreFirst(order, wanted, Cap(options));
    forall a, b | order(a, b) ensures Comparison(locale, options.sortBy, a, b) <= 0 {
      OrderIs(locale, options.sortBy, a, b);
    }
  }

  // ----- the tools -----

  /** Findings without a tool are those of the tool "Unknown". */
  predicate SameTool(f: ReportFinding, g: ReportFinding) {
    f.tool == g.tool || (f.tool in {"", "Unknown"} && g.tool in {"", "Unknown"})
  }

  lemma SameToolIff(f: ReportFinding, g: ReportFinding)
    ensures ToolOf(f) == ToolOf(g) <==> SameTool(f, g)
  {
  }

  /** Findings of one tool share a chunk, and a chunk over the limit holds the findings of one tool. */
  lemma ToolsStayTogether(findings: seq<ReportFinding>, max: int)
    ensures
      var chunks := Chunks(findings, max);
      && (forall i, j, f, g :: 0 <= i < j < |chunks| && f in chunks[i] && g in chunks[j] ==> !SameTool(f, g))
      && (forall i, f, g :: 0 <= i < |chunks| && |chunks[i]| > max && f in chunks[i] && g in chunks[i] ==>
            SameTool(f, g))
  {
    var chunks := Chunks(findings, max);
    EachToolInOneChunk(findings, max);
    forall i, j, f, g | 0 <= i < j < |chunks| && f in chunks[i] && g in chunks[j] ensures !SameTool(f, g) {
      assert Apart(ToolOf, chunks[i], chunks[j]);
      SameToolIff(f, g);
    }
    forall i, f, g | 0 <= i < |chunks| && |chunks[i]| > max && f in chunks[i] && g in chunks[i] ensures SameTool(f, g) {
      var t :| chunks[i] == Members(ToolOf, t, findings);
      MembersHaveKey(ToolOf, t, findings);
      SameToolIff(f, g);
    }
  }

  /** A property name comes first if it is the decimal of an array index. */
  lemma {:induction false} IndexIff(name: string)
    ensures IsIndex(name) <==> exists n: nat :: n < 4294967295 && name == Str(Num(n))
  {
    if IsIndex(name) {
      var n := DigitsValue(name);
      DigitsOfValue(name);
      assert name == Str(Num(n));
    }
    if n: nat :| n < 4294967295 && name == Str(Num(n)) {
      DigitsRead(n);
      NoLeadingZero(n);
      forall i | 0 <= i < |name| ensures '0' <= name[i] <= '9' {
        assert name[i] in name;
      }
    }
  }

  lemma {:induction false} NoLeadingZero(n: nat)
    ensures Digits(n)[0] == '0' ==> n == 0
  {
    if n >= 10 {
      NoLeadingZero(n / 10);
    }
  }

  lemma {:induction false} DigitsOfValue(s: string)
    requires s != "" && (forall i :: 0 <= i < |s| ==> '0' <= s[i] <= '9') && (s[0] == '0' ==> |s| == 1)
    ensures 0 <= DigitsValue(s) && Digits(DigitsValue(s)) == s
  {
    var front, last := s[..|s| - 1], s[|s| - 1];
    assert s == front + [last];
    if front != "" {
      assert front[0] == s[0];
      DigitsOfValue(front);
      assert Digits(0) == "0";
      assert front != "0";
    } else {
      assert DigitsValue(front) == 0;
    }
  }

  ghost predicate IndexOf(name: string, n: nat) {
    n < 4294967295 && name == Str(Num(n))
  }

  /** Sorting what `p` holds of and appending the rest keeps the order of the rest. */
  lemma SortedComeFirst<T(!new)>(p: T -> bool, q: T -> bool, leq: (T, T) -> bool, s: seq<T>)
    requires TotalPreorder(leq) && forall x :: p(x) != q(x)
    ensures
      var entries := StableSort(leq, Filter(p, s)) + Filter(q, s);
      && Filter(q, entries) == Filter(q, s)
      && forall i, j :: 0 <= i < j < |entries| && p(entries[j]) ==> p(entries[i]) && leq(entries[i], entries[j])
  {
    var sorted, rest := StableSort(leq, Filter(p, s)), Filter(q, s);
    SortSorts(leq, Filter(p, s));
    FilteredHold(p, s);
    FilteredHold(q, s);
    forall x | x in sorted ensures p(x) {
      assert x in multiset(sorted);
    }
    FilterNone(q, sorted);
    FilterAppend(q, sorted, rest);
    FilterTwice(q, s);
    var entries := sorted + rest;
    forall k | |sorted| <= k < |entries| ensures q(entries[k]) {
      assert entries[k] in rest;
    }
    forall k | 0 <= k < |sorted| ensures p(entries[k]) {
      assert sorted[k] in sorted;
    }
  }

  lemma ByValueIsTotal()
    ensures TotalPreorder(ByValue())
  {
  }

  lemma IndexValue(name: string, n: nat)
    requires IndexOf(name, n)
    ensures IsIndex(name) && DigitsValue(name) == n
  {
    IndexIff(name);
    DigitsRead(n);
  }

  lemma EntriesAreSorted(names: seq<string>)
    ensures
      var entries := EntryOrder(names);
      && Filter(NoIndex, entries) == Filter(NoIndex, names)
      && forall i, j :: 0 <= i < j < |entries| && IsIndex(entries[j]) ==>
                          IsIndex(entries[i]) && DigitsValue(entries[i]) <= DigitsValue(entries[j])
  {
    ByValueIsTotal();
    SortedComeFirst(IsIndex, NoIndex, ByValue(), names);
    var entries := EntryOrder(names);
    forall i, j | 0 <= i < j < |entries| && IsIndex(entries[j])
      ensures IsIndex(entries[i]) && DigitsValue(entries[i]) <= DigitsValue(entries[j])
    {
      assert ByValue()(entries[i], entries[j]);
    }
  }

  /** Some number below `n` is written there. */
  ghost predicate WritesLess(name: string, n: nat) {
    exists m: nat :: IndexOf(name, m) && m < n
  }

  /** Numbers come first, ascending, before the other names, and these keep their order. */
  lemma EntriesAreOrdered(names: seq<string>)
    requires Distinct(names)
    ensures
      var entries := EntryOrder(names);
      && (forall i, j, n :: 0 <= i < j < |entries| && IndexOf(entries[j], n) ==> WritesLess(entries[i], n))
      && Filter(NoIndex, entries) == Filter(NoIndex, names)
  {
    var entries := EntryOrder(names);
    EntriesAreSorted(names);
    EntriesAreTheNames(names);
    forall i, j, n | 0 <= i < j < |entries| && IndexOf(entries[j], n) ensures WritesLess(entries[i], n) {
      IndexValue(entries[j], n);
      var m := SmallerIndex(entries[i], entries[j], n);
    }
  }

  lemma SmallerIndex(name: string, other: string, n: nat) returns (m: nat)
    requires IsIndex(name) && IndexOf(other, n) && DigitsValue(name) <= DigitsValue(other) && name != other
    ensures IndexOf(name, m) && m < n
  {
    IndexIff(name);
    m :| m < 4294967295 && name == Str(Num(m));
    IndexValue(name, m);
    IndexValue(other, n);
  }

  lemma {:induction false} FilteredHold<T>(p: T -> bool, s: seq<T>)
    ensures forall x :: x in Filter(p, s) ==> x in s && p(x)
  {
    if s != [] {
      FilteredHold(p, s[..|s| - 1]);
    }
  }

  lemma {:induction false} FilterTwice<T>(p: T -> bool, s: seq<T>)
    ensures Filter(p, Filter(p, s)) == Filter(p, s)
  {
    if s != [] {
      var front, x := Filter(p, s[..|s| - 1]), s[|s| - 1];
      FilterTwice(p, s[..|s| - 1]);
      assert front + [] == front;
      if p(x) {
        assert (front + [x])[..|front|] == front;
      }
    }
  }

  // ----- the chunks -----

  /** The groups between two cuts: together within the limit, unless it is one group, and followed by one that does not
      fit in unless they are the last. */
  ghost predicate Fits<T>(groups: seq<seq<T>>, max: int, chunk: seq<T>, from: nat, to: nat, last: bool) {
    && from < to <= |groups| && chunk == Flatten(groups[from..to])
    && (|chunk| <= max || to == from + 1)
    && (!last ==> to < |groups| && |chunk| + |groups[to]| > max)
  }

  ghost predicate NextFit<T>(groups: seq<seq<T>>, max: int, chunks: seq<seq<T>>, cuts: seq<nat>) {
    && |cuts| == |chunks| + 1 && cuts[0] == 0
    && forall i :: 0 <= i < |chunks| ==> Fits(groups, max, chunks[i], cuts[i], cuts[i + 1], i == |chunks| - 1)
  }

  lemma {:induction false} PackingIsNextFit<T>(groups: seq<seq<T>>, max: int) returns (cuts: seq<nat>)
    requires NonEmpty(groups) && groups != []
    ensures NextFit(groups, max, PackState(groups, max).0 + [PackState(groups, max).1], cuts)
    ensures cuts[|PackState(groups, max).0| + 1] == |groups| && PackState(groups, max).1 != []
  {
    var n := |groups| - 1;
    var front, group := groups[..n], groups[n];
    if n == 0 {
      cuts := [0, 1];
      assert front == [] && PackState(front, max) == ([], []) && [] + group == group;
      FlattenOne(groups, 0);
    } else {
      var before := PackingIsNextFit(front, max);
      var (chunks, current) := PackState(front, max);
      cuts := OneMoreGroup(groups, max, chunks, current, before);
      assert groups == front + [group];
      if |current| + |group| > max {
        assert PackState(groups, max) == (chunks + [current], group);
      } else {
        assert PackState(groups, max) == (chunks, current + group);
      }
    }
  }

  lemma FlattenOne<T>(groups: seq<seq<T>>, n: nat)
    requires n < |groups|
    ensures Flatten(groups[n..n + 1]) == groups[n]
  {
    assert groups[n..n + 1] == [groups[n]];
    assert Flatten([groups[n]]) == groups[n] + [];
  }

  /** A new chunk if the group does not fit in, and one more group in the last chunk otherwise. */
  lemma OneMoreGroup<T>(groups: seq<seq<T>>, max: int, chunks: seq<seq<T>>, current: seq<T>, before: seq<nat>)
    returns (cuts: seq<nat>)
    requires groups != [] && NextFit(groups[..|groups| - 1], max, chunks + [current], before)
    requires before[|chunks| + 1] == |groups| - 1
    ensures
      var group := groups[|groups| - 1];
      var all := if |current| + |group| > max then chunks + [current] + [group] else chunks + [current + group];
      NextFit(groups, max, all, cuts) && cuts[|all|] == |groups|
  {
    var n, k := |groups| - 1, |chunks|;
    var was := chunks + [current];
    forall i | 0 <= i <= k ensures Fits(groups, max, was[i], before[i], before[i + 1], i == k) {
      CutLonger(groups, n, max, was[i], before[i], before[i + 1], i == k);
    }
    assert Fits(groups, max, current, before[k], before[k + 1], true) by {
      assert was[k] == current;
    }
    forall i | 0 <= i < k ensures Fits(groups, max, chunks[i], before[i], before[i + 1], false) {
      assert was[i] == chunks[i];
    }
    FlattenOne(groups, n);
    if |current| + |groups[n]| > max {
      cuts := before + [n + 1];
    } else {
      cuts := before[k + 1 := n + 1];
      assert groups[before[k]..n + 1] == groups[before[k]..n] + [groups[n]];
      FlattenSnoc(groups[before[k]..n], groups[n]);
    }
  }

  lemma CutLonger<T>(groups: seq<seq<T>>, n: nat, max: int, chunk: seq<T>, from: nat, to: nat, last: bool)
    requires n <= |groups| && Fits(groups[..n], max, chunk, from, to, last)
    ensures Fits(groups, max, chunk, from, to, last)
  {
    assert groups[..n][from..to] == groups[from..to];
  }

  /** The chunks of a report are its groups, packed in order. */
  lemma ChunksAreNextFit(findings: seq<ReportFinding>, max: int) returns (cuts: seq<nat>)
    ensures NextFit(Groups(findings), max, Chunks(findings, max), cuts)
    ensures cuts[|Chunks(findings, max)|] == |Groups(findings)|
  {
    GroupsAreNonEmpty(findings);
    if Groups(findings) == [] {
      cuts := [0];
    } else {
      cuts := PackingIsNextFit(Groups(findings), max);
    }
  }
}

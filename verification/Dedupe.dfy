/** dedupe_findings_by_line_window and _cap_findings_per_rule of scanner/core/policy_engine.py. */
module Dedupe {
  import opened Collections
  import opened Findings
  import opened Clustering

  // ----- what the loops compute -----

  function LineOf(rt: Runtime, lineField: string, f: Finding): int {
    match ToInt(rt, Get(f, lineField, Num(0)))
    case Some(n) => n
    case None => 0
  }

  function WithLine(rt: Runtime, lineField: string, f: Finding): Finding {
    f["_line" := Num(LineOf(rt, lineField, f))]
  }

  function LineNo(item: Finding): int {
    match Get(item, "_line", Num(0))
    case Num(n) => n
    case _ => 0
  }

  function ByLine(): (Finding, Finding) -> bool {
    (a, b) => LineNo(a) <= LineNo(b)
  }

  function GroupKey(groupFields: seq<string>): Finding -> seq<string> {
    (f: Finding) => seq(|groupFields|, i requires 0 <= i < |groupFields| => Str(Get(f, groupFields[i], Text(""))))
  }

  function PositiveLines(cluster: seq<Finding>): (r: seq<int>) {
    if cluster == [] then []
    else
      var n := |cluster| - 1;
      PositiveLines(cluster[..n]) + if LineNo(cluster[n]) > 0 then [LineNo(cluster[n])] else []
  }

  function Least(s: seq<int>): (m: int)
    requires s != []
    ensures m in s && forall x :: x in s ==> m <= x
  {
    if |s| == 1 then s[0]
    else
      var rest := Least(s[1..]);
      assert s == [s[0]] + s[1..];
      if s[0] <= rest then s[0] else rest
  }

  function Greatest(s: seq<int>): (m: int)
    requires s != []
    ensures m in s && forall x :: x in s ==> x <= m
  {
    if |s| == 1 then s[0]
    else
      var rest := Greatest(s[1..]);
      assert s == [s[0]] + s[1..];
      if s[0] >= rest then s[0] else rest
  }

  /** The record a cluster is reduced to. */
  function AnchorOf(cluster: seq<Finding>): Finding
  {
    if cluster == [] then map[]
    else
      var lines := PositiveLines(cluster);
      var counted := if |cluster| > 1 then cluster[0]["consolidated_count" := Num(|cluster|)] else cluster[0];
      var spanned := if |cluster| > 1 && lines != []
                     then counted["line_span" := Text(Decimal(Least(lines)) + "-" + Decimal(Greatest(lines)))]
                     else counted;
      spanned - {"_line"}
  }

  function Lined(rt: Runtime, lineField: string, group: seq<Finding>): seq<Finding> {
    MapSeq(f => WithLine(rt, lineField, f), group)
  }

  function SortedGroup(rt: Runtime, lineField: string, group: seq<Finding>): seq<Finding> {
    StableSort(ByLine(), Lined(rt, lineField, group))
  }

  function GroupClusters(rt: Runtime, lineField: string, w: int, group: seq<Finding>): seq<seq<Finding>> {
    Clusters(LineNo, w, SortedGroup(rt, lineField, group))
  }

  function DedupedGroup(rt: Runtime, lineField: string, w: int, group: seq<Finding>): (r: seq<Finding>)
    ensures |r| == |GroupClusters(rt, lineField, w, group)|
    ensures forall i :: 0 <= i < |r| ==> r[i] == AnchorOf(GroupClusters(rt, lineField, w, group)[i])
  {
    MapSeq(AnchorOf, GroupClusters(rt, lineField, w, group))
  }

  function DedupedBlocks(rt: Runtime, lineField: string, w: int, blocks: seq<seq<Finding>>): (r: seq<seq<Finding>>)
    ensures |r| == |blocks|
    ensures forall i :: 0 <= i < |r| ==> r[i] == DedupedGroup(rt, lineField, w, blocks[i])
  {
    seq(|blocks|, i requires 0 <= i < |blocks| => DedupedGroup(rt, lineField, w, blocks[i]))
  }

  function Deduped(rt: Runtime, groupFields: seq<string>, lineField: string, w: int,
      findings: seq<Finding>): seq<Finding> {
    Flatten(DedupedBlocks(rt, lineField, w, Blocks(GroupKey(groupFields), findings)))
  }

  // ----- the loops -----

  method GroupFindings(key: Finding -> seq<string>, findings: seq<Finding>)
    returns (order: seq<seq<string>>, grouped: map<seq<string>, seq<Finding>>)
    ensures order == Keys(key, findings)
    ensures forall k :: k in grouped <==> k in order
    ensures forall k :: k in grouped ==> grouped[k] == Members(key, k, findings)
  {
    order, grouped := [], map[];
    for i := 0 to |findings|
      invariant order == Keys(key, findings[..i])
      invariant forall k :: k in grouped <==> k in order
      invariant forall k :: k in grouped ==> grouped[k] == Members(key, k, findings[..i])
    {
      assert findings[..i + 1][..i] == findings[..i];
      var k := key(findings[i]);
      if k !in grouped {
        NoMembers(key, k, findings[..i]);
        order := order + [k];
        grouped := grouped[k := []];
      }
      grouped := grouped[k := grouped[k] + [findings[i]]];
    }
    assert findings[..|findings|] == findings;
  }

  method AddLines(rt: Runtime, lineField: string, items: seq<Finding>) returns (normalized: seq<Finding>)
    ensures normalized == MapSeq(f => WithLine(rt, lineField, f), items)
  {
    normalized := [];
    for i := 0 to |items|
      invariant |normalized| == i && forall j :: 0 <= j < i ==> normalized[j] == WithLine(rt, lineField, items[j])
    {
      normalized := normalized + [WithLine(rt, lineField, items[i])];
    }
  }

  method DedupeGroup(rt: Runtime, lineField: string, w: int, items: seq<Finding>) returns (anchors: seq<Finding>)
    ensures anchors == DedupedGroup(rt, lineField, w, items)
  {
    var normalized := AddLines(rt, lineField, items);
    var clusters := ClusterByWindow(LineNo, w, StableSort(ByLine(), normalized));
    anchors := Anchors(clusters);
  }

  method Anchors(clusters: seq<seq<Finding>>) returns (anchors: seq<Finding>)
    ensures anchors == MapSeq(AnchorOf, clusters)
  {
    anchors := [];
    for i := 0 to |clusters|
      invariant |anchors| == i && forall j :: 0 <= j < i ==> anchors[j] == AnchorOf(clusters[j])
    {
      anchors := anchors + [AnchorOf(clusters[i])];
    }
  }

  method DedupeFindingsByLineWindow(rt: Runtime, groupFields: seq<string>, lineField: string, w: int,
      findings: seq<Finding>)
    returns (deduped: seq<Finding>)
    ensures deduped == Deduped(rt, groupFields, lineField, w, findings)
  {
    var key := GroupKey(groupFields);
    var order, grouped := GroupFindings(key, findings);
    ghost var blocks := DedupedBlocks(rt, lineField, w, Blocks(key, findings));
    deduped := [];
    for i := 0 to |order|
      invariant deduped == Flatten(blocks[..i])
    {
      var anchors := DedupeGroup(rt, lineField, w, grouped[order[i]]);
      assert anchors == blocks[i];
      FlattenTake(blocks, i);
      deduped := deduped + anchors;
    }
    assert blocks[..|order|] == blocks;
  }

  // ----- properties of one group -----

  lemma ByLineIsPreorder()
    ensures TotalPreorder(ByLine())
  {
  }

  /** The sorted group is the group with its line numbers, permuted, in ascending line order. */
  lemma SortedGroupShape(rt: Runtime, lineField: string, group: seq<Finding>)
    ensures SortedBy(LineNo, SortedGroup(rt, lineField, group))
    ensures |SortedGroup(rt, lineField, group)| == |group|
    ensures multiset(SortedGroup(rt, lineField, group)) == multiset(Lined(rt, lineField, group))
    ensures forall x :: x in SortedGroup(rt, lineField, group) ==>
        exists f :: f in group && x == WithLine(rt, lineField, f)
  {
    var items := Lined(rt, lineField, group);
    ByLineIsPreorder();
    SortSorts(ByLine(), items);
    forall x | x in SortedGroup(rt, lineField, group)
      ensures exists f :: f in group && x == WithLine(rt, lineField, f)
    {
      assert x in multiset(items);
      var i :| 0 <= i < |items| && items[i] == x;
      assert group[i] in group;
    }
  }

  /** Two findings of a group end in one cluster iff a chain of group members joins them. */
  lemma GroupClusteringIsExact(rt: Runtime, lineField: string, w: int, group: seq<Finding>, p: nat, q: nat)
    requires p < |group| && q < |group|
    ensures |SortedGroup(rt, lineField, group)| == |group|
    ensures SameBlock(GroupClusters(rt, lineField, w, group), p, q)
            <==> Chained(LineNo, w, SortedGroup(rt, lineField, group), p, q)
  {
    SortedGroupShape(rt, lineField, group);
    ClusteringIsExact(LineNo, w, SortedGroup(rt, lineField, group), p, q);
  }

  /** The anchor is the first member, which has the least line of its cluster; the next cluster
      starts more than `w` above every member; together the clusters are the sorted group. */
  lemma GroupClustersAreSeparated(rt: Runtime, lineField: string, w: int, group: seq<Finding>)
    ensures Flatten(GroupClusters(rt, lineField, w, group)) == SortedGroup(rt, lineField, group)
    ensures Separated(LineNo, w, GroupClusters(rt, lineField, w, group))
  {
    SortedGroupShape(rt, lineField, group);
    ClustersAreSeparated(LineNo, w, SortedGroup(rt, lineField, group));
    ClustersFlatten(LineNo, w, SortedGroup(rt, lineField, group));
  }

  function OnLine(line: int): Finding -> bool {
    (x: Finding) => LineNo(x) == line
  }

  /** Findings of one line stay in the order in which the tool reported them. */
  lemma LinesKeepReportedOrder(rt: Runtime, lineField: string, group: seq<Finding>, line: int)
    ensures Filter(OnLine(line), SortedGroup(rt, lineField, group)) == Filter(OnLine(line), Lined(rt, lineField, group))
  {
    ByLineIsPreorder();
    SortIsStable(ByLine(), OnLine(line), Lined(rt, lineField, group));
  }

  lemma EarlierLinesAreLess<T>(line: T -> int, w: int, clusters: seq<seq<T>>, c: nat, x: T)
    requires w >= 0 && c < |clusters| && clusters[c] != [] && Separated(line, w, clusters)
    requires x in Flatten(clusters[..c])
    ensures line(x) < line(clusters[c][0])
  {
    var i := FlattenComesFrom(clusters[..c], x);
    var k :| 0 <= k < |clusters[i]| && clusters[i][k] == x;
    assert line(clusters[c][0]) - line(clusters[i][k]) > w;
  }

  lemma NoneBefore<T>(line: T -> int, w: int, clusters: seq<seq<T>>, c: nat, onLine: T -> bool)
    requires w >= 0 && c < |clusters| && clusters[c] != [] && Separated(line, w, clusters)
    requires Flatten(clusters) == Flatten(clusters[..c]) + Flatten(clusters[c..])
    requires forall x :: x in Flatten(clusters) ==> onLine(x) == (line(x) == line(clusters[c][0]))
    ensures Filter(onLine, Flatten(clusters[..c])) == []
  {
    forall x | x in Flatten(clusters[..c]) ensures !onLine(x) {
      assert x in Flatten(clusters);
      EarlierLinesAreLess(line, w, clusters, c, x);
    }
    FilterNone(onLine, Flatten(clusters[..c]));
  }

  /** In the flattened list a cluster's first member is the first one of its line. */
  lemma ClusterOpensItsLine<T>(line: T -> int, w: int, clusters: seq<seq<T>>, c: nat, onLine: T -> bool)
    requires w >= 0 && c < |clusters| && clusters[c] != [] && Separated(line, w, clusters)
    requires forall x :: x in Flatten(clusters) ==> onLine(x) == (line(x) == line(clusters[c][0]))
    ensures Filter(onLine, Flatten(clusters)) != [] && Filter(onLine, Flatten(clusters))[0] == clusters[c][0]
  {
    var before, from := Flatten(clusters[..c]), Flatten(clusters[c..]);
    assert clusters == clusters[..c] + clusters[c..];
    FlattenAppend(clusters[..c], clusters[c..]);
    FilterAppend(onLine, before, from);
    NoneBefore(line, w, clusters, c, onLine);
    assert from[0] == clusters[c][0] && from[0] in Flatten(clusters);
    FilterFirst(onLine, from);
  }

  /** The record of a cluster is made from the finding reported first among those on the least line
      of the cluster. */
  lemma AnchorIsFirstReported(rt: Runtime, lineField: string, w: int, group: seq<Finding>, c: nat)
    requires w >= 0 && c < |GroupClusters(rt, lineField, w, group)|
    ensures
      var cluster := GroupClusters(rt, lineField, w, group)[c];
      && cluster != []
      && (forall x :: x in cluster ==> LineNo(cluster[0]) <= LineNo(x))
      && var onLeast := Filter(OnLine(LineNo(cluster[0])), Lined(rt, lineField, group));
      onLeast != [] && onLeast[0] == cluster[0]
  {
    var clusters := GroupClusters(rt, lineField, w, group);
    var line := LineNo(clusters[c][0]);
    GroupClustersAreSeparated(rt, lineField, w, group);
    ClusterOpensItsLine(LineNo, w, clusters, c, OnLine(line));
    LinesKeepReportedOrder(rt, lineField, group, line);
    forall x | x in clusters[c] ensures line <= LineNo(x) {
      var k :| 0 <= k < |clusters[c]| && clusters[c][k] == x;
      LineAtMost(LineNo, clusters[c], 0, k);
    }
  }

  // ----- conservation -----

  /** How many original findings a record stands for: `consolidated_count or 1`. */
  function CountOf(f: Finding): int {
    match Get(f, "consolidated_count", Null)
    case Num(n) => if n != 0 then n else 1
    case _ => 1
  }

  function Counts(findings: seq<Finding>): seq<int> {
    MapSeq(CountOf, findings)
  }

  ghost predicate Uncounted(findings: seq<Finding>) {
    forall f :: f in findings ==> "consolidated_count" !in f
  }

  lemma AnchorCount(cluster: seq<Finding>)
    requires cluster != [] && "consolidated_count" !in cluster[0]
    ensures CountOf(AnchorOf(cluster)) == |cluster|
  {
    assert "consolidated_count" != "line_span" by {
      assert |"line_span"| == 9 && |"consolidated_count"| == 18;
    }
    assert "consolidated_count" != "_line" by {
      assert |"_line"| == 5;
    }
  }

  lemma GroupCounts(rt: Runtime, lineField: string, w: int, group: seq<Finding>)
    requires Uncounted(group)
    ensures Sum(Counts(DedupedGroup(rt, lineField, w, group))) == |group|
  {
    var items := SortedGroup(rt, lineField, group);
    var cs := GroupClusters(rt, lineField, w, group);
    SortedGroupShape(rt, lineField, group);
    ClusterMembers(LineNo, w, items);
    var counts := Counts(DedupedGroup(rt, lineField, w, group));
    forall i | 0 <= i < |cs| ensures counts[i] == |cs[i]| {
      assert cs[i][0] in items;
      var f :| f in group && cs[i][0] == WithLine(rt, lineField, f);
      assert |"_line"| == 5 && |"consolidated_count"| == 18;
      AnchorCount(cs[i]);
    }
    assert counts == Sizes(cs);
    SizesAddUp(cs);
    ClustersFlatten(LineNo, w, items);
  }

  lemma CountsAppend(a: seq<Finding>, b: seq<Finding>)
    ensures Sum(Counts(a + b)) == Sum(Counts(a)) + Sum(Counts(b))
  {
    assert Counts(a + b) == Counts(a) + Counts(b);
    SumAppend(Counts(a), Counts(b));
  }

  lemma {:induction false} BlockCounts(rt: Runtime, lineField: string, w: int, blocks: seq<seq<Finding>>)
    requires forall i :: 0 <= i < |blocks| ==> Uncounted(blocks[i])
    ensures Sum(Counts(Flatten(DedupedBlocks(rt, lineField, w, blocks)))) == |Flatten(blocks)|
  {
    if blocks != [] {
      var out := DedupedBlocks(rt, lineField, w, blocks);
      GroupCounts(rt, lineField, w, blocks[0]);
      BlockCounts(rt, lineField, w, blocks[1..]);
      assert out[1..] == DedupedBlocks(rt, lineField, w, blocks[1..]);
      CountsAppend(out[0], Flatten(out[1..]));
    }
  }

  /** Deduplication loses no finding: the counts of its records add up to the input. */
  lemma DedupeConserves(rt: Runtime, groupFields: seq<string>, lineField: string, w: int, findings: seq<Finding>)
    requires Uncounted(findings)
    ensures Sum(Counts(Deduped(rt, groupFields, lineField, w, findings))) == |findings|
  {
    var key := GroupKey(groupFields);
    var blocks := Blocks(key, findings);
    forall i | 0 <= i < |blocks| ensures Uncounted(blocks[i]) {
      MembersHaveKey(key, Keys(key, findings)[i], findings);
    }
    BlockCounts(rt, lineField, w, blocks);
    KeysAreTheKeys(key, findings);
    BlocksPermute(key, Keys(key, findings), findings);
    assert |multiset(Flatten(blocks))| == |multiset(findings)|;
  }

  // ----- idempotence -----

  const BOOKKEEPING := ["consolidated_count", "line_span", "_line"]

  lemma AnchorKeepsField(cluster: seq<Finding>, field: string, default: Val)
    requires cluster != [] && field !in BOOKKEEPING
    ensures Get(AnchorOf(cluster), field, default) == Get(cluster[0], field, default)
  {
    assert BOOKKEEPING[0] in BOOKKEEPING && BOOKKEEPING[1] in BOOKKEEPING && BOOKKEEPING[2] in BOOKKEEPING;
  }

  lemma WithLineKeepsField(rt: Runtime, lineField: string, f: Finding, field: string, default: Val)
    requires field !in BOOKKEEPING
    ensures Get(WithLine(rt, lineField, f), field, default) == Get(f, field, default)
  {
    assert BOOKKEEPING[2] in BOOKKEEPING;
  }

  lemma AnchorsOfGroup(rt: Runtime, lineField: string, w: int, group: seq<Finding>, i: nat)
    requires i < |GroupClusters(rt, lineField, w, group)|
    ensures
      var cluster := GroupClusters(rt, lineField, w, group)[i];
      cluster != [] && exists f :: f in group && cluster[0] == WithLine(rt, lineField, f)
  {
    SortedGroupShape(rt, lineField, group);
    ClusterMembers(LineNo, w, SortedGroup(rt, lineField, group));
    assert GroupClusters(rt, lineField, w, group)[i][0] in SortedGroup(rt, lineField, group);
  }

  /** Anchors keep the group key and the line of the finding they come from. */
  lemma AnchorKeepsKeyAndLine(rt: Runtime, groupFields: seq<string>, lineField: string, w: int, group: seq<Finding>,
      i: nat)
    requires forall g :: g in groupFields ==> g !in BOOKKEEPING
    requires lineField !in BOOKKEEPING
    requires i < |GroupClusters(rt, lineField, w, group)|
    ensures
      var cluster := GroupClusters(rt, lineField, w, group)[i];
      && (exists f :: f in group && GroupKey(groupFields)(AnchorOf(cluster)) == GroupKey(groupFields)(f))
      && LineOf(rt, lineField, AnchorOf(cluster)) == LineNo(cluster[0])
      && "_line" !in AnchorOf(cluster)
  {
    var cluster := GroupClusters(rt, lineField, w, group)[i];
    AnchorsOfGroup(rt, lineField, w, group, i);
    var f :| f in group && cluster[0] == WithLine(rt, lineField, f);
    var a := AnchorOf(cluster);
    var key := GroupKey(groupFields);
    forall j | 0 <= j < |groupFields| ensures key(a)[j] == key(f)[j] {
      assert groupFields[j] in groupFields;
      AnchorKeepsField(cluster, groupFields[j], Text(""));
      WithLineKeepsField(rt, lineField, f, groupFields[j], Text(""));
    }
    assert key(a) == key(f);
    AnchorKeepsField(cluster, lineField, Num(0));
    WithLineKeepsField(rt, lineField, f, lineField, Num(0));
  }

  /** The anchors of a group, with their lines, are sorted and more than `w` apart. */
  lemma AnchorsAreFarApart(rt: Runtime, lineField: string, w: int, group: seq<Finding>)
    requires lineField !in BOOKKEEPING
    ensures
      var items := MapSeq(f => WithLine(rt, lineField, f), DedupedGroup(rt, lineField, w, group));
      && Sorted(ByLine(), items)
      && forall i :: 0 < i < |items| ==> Abs(LineNo(items[i]) - LineNo(items[i - 1])) > w
  {
    var cs := GroupClusters(rt, lineField, w, group);
    var once := DedupedGroup(rt, lineField, w, group);
    var items := MapSeq(f => WithLine(rt, lineField, f), once);
    GroupClustersAreSeparated(rt, lineField, w, group);
    forall i | 0 <= i < |cs| ensures LineNo(items[i]) == LineNo(cs[i][0]) {
      AnchorKeepsKeyAndLine(rt, [], lineField, w, group, i);
    }
    forall i, j | 0 <= i < j < |items| ensures LineNo(items[j]) - LineNo(items[i]) > w && ByLine()(items[i], items[j]) {
      assert |cs[i]| > 0 && |cs[j]| > 0;
      assert LineNo(cs[j][0]) - LineNo(cs[i][0]) > w;
    }
  }

  /** A second pass over one group changes nothing. */
  lemma GroupIsStable(rt: Runtime, lineField: string, w: int, group: seq<Finding>)
    requires lineField !in BOOKKEEPING
    ensures DedupedGroup(rt, lineField, w, DedupedGroup(rt, lineField, w, group)) ==
        DedupedGroup(rt, lineField, w, group)
  {
    var once := DedupedGroup(rt, lineField, w, group);
    var items := MapSeq(f => WithLine(rt, lineField, f), once);
    AnchorsAreFarApart(rt, lineField, w, group);
    SortedIsFixed(ByLine(), items);
    FarItemsStayAlone(LineNo, w, items);
    var twice := DedupedGroup(rt, lineField, w, once);
    assert SortedGroup(rt, lineField, once) == items;
    forall i | 0 <= i < |once| ensures twice[i] == once[i] {
      AnchorKeepsKeyAndLine(rt, [], lineField, w, group, i);
      SingletonAnchor(rt, lineField, once[i]);
    }
  }

  lemma SingletonAnchor(rt: Runtime, lineField: string, f: Finding)
    requires "_line" !in f
    ensures AnchorOf([WithLine(rt, lineField, f)]) == f
  {
  }

  /** Deduplication is idempotent as a list: same records, same order, same counts and spans. */
  lemma DedupeIsIdempotent(rt: Runtime, groupFields: seq<string>, lineField: string, w: int, findings: seq<Finding>)
    requires forall g :: g in groupFields ==> g !in BOOKKEEPING
    requires lineField !in BOOKKEEPING
    ensures Deduped(rt, groupFields, lineField, w, Deduped(rt, groupFields, lineField, w, findings))
            == Deduped(rt, groupFields, lineField, w, findings)
  {
    var key := GroupKey(groupFields);
    var ks := Keys(key, findings);
    var blocks := Blocks(key, findings);
    var out := DedupedBlocks(rt, lineField, w, blocks);
    KeysAreTheKeys(key, findings);
    forall i | 0 <= i < |out| ensures out[i] != [] {
      assert ks[i] in ks;
      SortedGroupShape(rt, lineField, blocks[i]);
    }
    forall i, x | 0 <= i < |out| && x in out[i] ensures key(x) == ks[i] {
      var j :| 0 <= j < |out[i]| && out[i][j] == x;
      AnchorKeepsKeyAndLine(rt, groupFields, lineField, w, blocks[i], j);
      MembersHaveKey(key, ks[i], findings);
    }
    GroupingBlocks(key, ks, out);
    forall i | 0 <= i < |out| ensures DedupedGroup(rt, lineField, w, out[i]) == out[i] {
      GroupIsStable(rt, lineField, w, blocks[i]);
    }
    assert DedupedBlocks(rt, lineField, w, out) == out;
  }

  // ----- the cap per rule -----

  function RuleKey(ruleField: string): Finding -> string {
    (f: Finding) => Str(Get(f, ruleField, Text("")))
  }

  /** A finding is kept iff fewer than `k` findings of its rule come before it. */
  function Capped(key: Finding -> string, k: int, findings: seq<Finding>): seq<Finding> {
    if findings == [] then []
    else
      var n := |findings| - 1;
      Capped(key, k, findings[..n]) +
      if |Members(key, key(findings[n]), findings[..n])| < k then [findings[n]] else []
  }

  method CapFindingsPerRule(key: Finding -> string, k: int, findings: seq<Finding>) returns (capped: seq<Finding>)
    ensures capped == if k <= 0 then findings else Capped(key, k, findings)
  {
    if k <= 0 {
      return findings;
    }
    var counts: map<string, int> := map[];
    capped := [];
    for i := 0 to |findings|
      invariant capped == Capped(key, k, findings[..i])
      invariant forall r :: (if r in counts then counts[r] else 0) ==
                            var m := |Members(key, r, findings[..i])|; if m < k then m else k
    {
      assert findings[..i + 1][..i] == findings[..i];
      var r := key(findings[i]);
      var c := if r in counts then counts[r] else 0;
      if c < k {
        counts := counts[r := c + 1];
        capped := capped + [findings[i]];
      }
    }
    assert findings[..|findings|] == findings;
  }

  /** Every rule keeps exactly its first min(count, k) findings, in order. */
  lemma {:induction false} CapKeepsFirst(key: Finding -> string, k: nat, findings: seq<Finding>, r: string)
    ensures Members(key, r, Capped(key, k, findings)) ==
            var all := Members(key, r, findings); all[..if |all| < k then |all| else k]
  {
    if findings != [] {
      var n := |findings| - 1;
      var front := Capped(key, k, findings[..n]);
      CapKeepsFirst(key, k, findings[..n], r);
      var all := Members(key, r, findings[..n]);
      MembersOfSnoc(key, r, front, findings[n]);
      assert front + [] == front;
    }
  }
}

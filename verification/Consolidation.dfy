/** Which findings the deduplication of scanner/core/policy_engine.py merges, and into what records, in
    terms of the fields and lines the tool reported. */
module Consolidation {
  import opened Collections
  import opened Findings
  import opened Clustering
  import opened Dedupe

  /** The two findings agree on the text of every field. */
  predicate Agree(fields: seq<string>, f: Finding, g: Finding) {
    forall k :: k in fields ==> Str(Get(f, k, Text(""))) == Str(Get(g, k, Text("")))
  }

  /** The line as reported; what is not a number counts as 0. */
  function ReportedLine(rt: Runtime, lineField: string): Finding -> int {
    (f: Finding) =>
      var n := ToInt(rt, if lineField in f then f[lineField] else Num(0));
      if n.Some? then n.value else 0
  }

  // ----- what a record says about its findings -----

  ghost predicate IsLine(line: Finding -> int, members: seq<Finding>, n: int) {
    n > 0 && exists k :: 0 <= k < |members| && line(members[k]) == n
  }

  /** The text names the least and the greatest positive line. */
  ghost predicate SpanText(line: Finding -> int, members: seq<Finding>, text: string) {
    exists lo, hi :: IsLine(line, members, lo) && IsLine(line, members, hi)
                     && text == Decimal(lo) + "-" + Decimal(hi)
                     && forall n :: IsLine(line, members, n) ==> lo <= n <= hi
  }

  ghost predicate SameField(record: Finding, f: Finding, key: string) {
    (key in record <==> key in f) && (key in f ==> record[key] == f[key])
  }

  /** The record is the first finding; for several it also has their number and the span of their lines. */
  ghost predicate RecordFor(line: Finding -> int, record: Finding, members: seq<Finding>) {
    && members != [] && "_line" !in record
    && (forall key :: key !in BOOKKEEPING ==> SameField(record, members[0], key))
    && (|members| > 1 ==> "consolidated_count" in record && record["consolidated_count"] == Num(|members|))
    && (|members| == 1 ==> SameField(record, members[0], "consolidated_count"))
    && (if |members| > 1 && exists n :: IsLine(line, members, n)
        then "line_span" in record && record["line_span"].Text? && SpanText(line, members, record["line_span"].s)
        else SameField(record, members[0], "line_span"))
  }

  /** Ascending lines with gaps of at most `w`. */
  ghost predicate Chain(line: Finding -> int, w: int, members: seq<Finding>) {
    forall k :: 0 < k < |members| ==> 0 <= line(members[k]) - line(members[k - 1]) <= w
  }

  /** Wherever they agree on the fields, their lines are more than `w` apart. */
  ghost predicate Apart(fields: seq<string>, line: Finding -> int, w: int, a: seq<Finding>, b: seq<Finding>) {
    forall x, y :: x in a && y in b && Agree(fields, x, y) ==> Abs(line(x) - line(y)) > w
  }

  ghost predicate AllAgree(fields: seq<string>, members: seq<Finding>) {
    forall x, y :: x in members && y in members ==> Agree(fields, x, y)
  }

  // ----- sorting and clustering reported findings -----

  function Added(rt: Runtime, lineField: string): Finding -> Finding {
    (f: Finding) => f["_line" := Num(ReportedLine(rt, lineField)(f))]
  }

  function ByReported(rt: Runtime, lineField: string): (Finding, Finding) -> bool {
    (a, b) => ReportedLine(rt, lineField)(a) <= ReportedLine(rt, lineField)(b)
  }

  lemma {:induction false} InsertMaps<A, B>(leq: (A, A) -> bool, leq': (B, B) -> bool, g: A -> B, x: A, s: seq<A>)
    requires forall a, b :: leq(a, b) == leq'(g(a), g(b))
    ensures MapSeq(g, Insert(leq, x, s)) == Insert(leq', g(x), MapSeq(g, s))
  {
    if s != [] && !leq(x, s[0]) {
      assert MapSeq(g, s)[1..] == MapSeq(g, s[1..]);
      InsertMaps(leq, leq', g, x, s[1..]);
    }
  }

  lemma {:induction false} SortMaps<A(!new), B(!new)>(leq: (A, A) -> bool, leq': (B, B) -> bool, g: A -> B, s: seq<A>)
    requires forall a, b :: leq(a, b) == leq'(g(a), g(b))
    ensures MapSeq(g, StableSort(leq, s)) == StableSort(leq', MapSeq(g, s))
  {
    if s != [] {
      assert MapSeq(g, s)[1..] == MapSeq(g, s[1..]);
      SortMaps(leq, leq', g, s[1..]);
      InsertMaps(leq, leq', g, s[0], StableSort(leq, s[1..]));
    }
  }

  function MapEach<A, B>(g: A -> B, blocks: seq<seq<A>>): (r: seq<seq<B>>)
    ensures |r| == |blocks| && forall i :: 0 <= i < |r| ==> r[i] == MapSeq(g, blocks[i])
  {
    seq(|blocks|, i requires 0 <= i < |blocks| => MapSeq(g, blocks[i]))
  }

  lemma PutMaps<A, B>(line: A -> int, line': B -> int, g: A -> B, w: int, cs: seq<seq<A>>, x: A)
    requires AllNonEmpty(cs) && forall a :: line'(g(a)) == line(a)
    ensures MapEach(g, Put(line, w, cs, x)) == Put(line', w, MapEach(g, cs), g(x))
  {
    assert AllNonEmpty(MapEach(g, cs)) && MapSeq(g, [x]) == [g(x)];
    if cs != [] {
      var m, last := |cs| - 1, Last(cs);
      assert Last(Last(MapEach(g, cs))) == g(Last(last));
      assert MapSeq(g, last + [x]) == MapSeq(g, last) + [g(x)];
      assert MapEach(g, cs[..m] + [last + [x]]) == MapEach(g, cs)[..m] + [MapSeq(g, last) + [g(x)]];
      assert MapEach(g, cs + [[x]]) == MapEach(g, cs) + [[g(x)]];
    } else {
      assert MapEach(g, [[x]]) == [[g(x)]];
    }
  }

  lemma {:induction false} ClustersMap<A, B>(line: A -> int, line': B -> int, g: A -> B, w: int, s: seq<A>)
    requires forall a :: line'(g(a)) == line(a)
    ensures MapEach(g, Clusters(line, w, s)) == Clusters(line', w, MapSeq(g, s))
  {
    if s != [] {
      var n := |s| - 1;
      ClustersMap(line, line', g, w, s[..n]);
      PutMaps(line, line', g, w, Clusters(line, w, s[..n]), s[n]);
      assert MapSeq(g, s)[..n] == MapSeq(g, s[..n]);
    }
  }

  /** The clusters of a group, as lists of reported findings. */
  function Merged(rt: Runtime, lineField: string, w: int, group: seq<Finding>): seq<seq<Finding>> {
    Clusters(ReportedLine(rt, lineField), w, StableSort(ByReported(rt, lineField), group))
  }

  lemma GroupClustersAreMerged(rt: Runtime, lineField: string, w: int, group: seq<Finding>)
    ensures GroupClusters(rt, lineField, w, group) == MapEach(Added(rt, lineField), Merged(rt, lineField, w, group))
  {
    var g := Added(rt, lineField);
    forall f ensures WithLine(rt, lineField, f) == g(f) && LineNo(g(f)) == ReportedLine(rt, lineField)(f) {
      assert LineOf(rt, lineField, f) == ReportedLine(rt, lineField)(f);
      assert "_line" in g(f) && g(f)["_line"] == Num(ReportedLine(rt, lineField)(f));
    }
    assert Lined(rt, lineField, group) == MapSeq(g, group);
    SortMaps(ByReported(rt, lineField), ByLine(), g, group);
    ClustersMap(ReportedLine(rt, lineField), LineNo, g, w, StableSort(ByReported(rt, lineField), group));
  }

  // ----- the clusters of one group -----

  lemma ByReportedIsPreorder(rt: Runtime, lineField: string)
    ensures TotalPreorder(ByReported(rt, lineField))
  {
  }

  ghost predicate AllChains(line: Finding -> int, w: int, clusters: seq<seq<Finding>>) {
    forall c :: 0 <= c < |clusters| ==> Chain(line, w, clusters[c])
  }

  lemma {:induction false} ClustersAreChains(line: Finding -> int, w: int, items: seq<Finding>)
    requires SortedBy(line, items)
    ensures AllChains(line, w, Clusters(line, w, items))
  {
    if items != [] {
      var n := |items| - 1;
      var cs := Clusters(line, w, items[..n]);
      ClustersAreChains(line, w, items[..n]);
      if cs != [] {
        assert Last(Last(cs)) == Last(items[..n]) == items[n - 1];
        assert Chain(line, w, Last(cs));
      }
    }
  }

  /** Clusters of one group: chains, far from each other, together the group. */
  lemma MergedShape(rt: Runtime, lineField: string, w: int, group: seq<Finding>)
    ensures
      var line, clusters := ReportedLine(rt, lineField), Merged(rt, lineField, w, group);
      && AllNonEmpty(clusters) && AllChains(line, w, clusters) && Separated(line, w, clusters)
      && multiset(Flatten(clusters)) == multiset(group)
  {
    var line, sorted := ReportedLine(rt, lineField), StableSort(ByReported(rt, lineField), group);
    ByReportedIsPreorder(rt, lineField);
    SortSorts(ByReported(rt, lineField), group);
    assert forall i, j :: 0 <= i < j < |sorted| ==> ByReported(rt, lineField)(sorted[i], sorted[j]);
    ClustersAreChains(line, w, sorted);
    ClustersAreSeparated(line, w, sorted);
    ClustersFlatten(line, w, sorted);
  }

  // ----- all groups together -----

  lemma FlattenMapEach<A, B>(g: A -> B, blocks: seq<seq<A>>)
    ensures Flatten(MapEach(g, blocks)) == MapSeq(g, Flatten(blocks))
  {
    if blocks != [] {
      assert MapEach(g, blocks)[1..] == MapEach(g, blocks[1..]);
      FlattenMapEach(g, blocks[1..]);
    }
  }

  lemma {:induction false} FlattenPairs<T>(q: (T, T) -> bool, blocks: seq<seq<T>>)
    requires forall b, c, d :: 0 <= b < |blocks| && 0 <= c < d < |blocks[b]| ==> q(blocks[b][c], blocks[b][d])
    requires forall a, b, c, d :: 0 <= a < b < |blocks| && 0 <= c < |blocks[a]| && 0 <= d < |blocks[b]| ==>
                                    q(blocks[a][c], blocks[b][d])
    ensures forall i, j :: 0 <= i < j < |Flatten(blocks)| ==> q(Flatten(blocks)[i], Flatten(blocks)[j])
  {
    if blocks != [] {
      var rest := blocks[1..];
      FlattenPairs(q, rest);
      forall i, j | 0 <= i < j < |Flatten(blocks)| ensures q(Flatten(blocks)[i], Flatten(blocks)[j]) {
        if i < |blocks[0]| <= j {
          var y := Flatten(rest)[j - |blocks[0]|];
          var b := FlattenComesFrom(rest, y);
          var d :| 0 <= d < |rest[b]| && rest[b][d] == y;
          assert blocks[b + 1][d] == y;
        }
      }
    }
  }

  lemma {:induction false} FlattenAll<T>(p: T -> bool, blocks: seq<seq<T>>)
    requires forall b, c :: 0 <= b < |blocks| && 0 <= c < |blocks[b]| ==> p(blocks[b][c])
    ensures forall i :: 0 <= i < |Flatten(blocks)| ==> p(Flatten(blocks)[i])
  {
    forall i | 0 <= i < |Flatten(blocks)| ensures p(Flatten(blocks)[i]) {
      var b := FlattenComesFrom(blocks, Flatten(blocks)[i]);
    }
  }

  /** Flattening twice, inside out. */
  lemma {:induction false} FlattenTwice<T>(a: seq<seq<seq<T>>>, b: seq<seq<T>>)
    requires |a| == |b| && forall i :: 0 <= i < |a| ==> multiset(Flatten(a[i])) == multiset(b[i])
    ensures multiset(Flatten(Flatten(a))) == multiset(Flatten(b))
  {
    if a != [] {
      FlattenTwice(a[1..], b[1..]);
      FlattenAppend(a[0], Flatten(a[1..]));
    }
  }

  /** The reported findings behind each record, in the order of the records. */
  function MergedBlocks(rt: Runtime, lineField: string, w: int, blocks: seq<seq<Finding>>): (r: seq<seq<seq<Finding>>>)
    ensures |r| == |blocks| && forall i :: 0 <= i < |r| ==> r[i] == Merged(rt, lineField, w, blocks[i])
  {
    seq(|blocks|, i requires 0 <= i < |blocks| => Merged(rt, lineField, w, blocks[i]))
  }

  function RecordOf(rt: Runtime, lineField: string): seq<Finding> -> Finding {
    (members: seq<Finding>) => AnchorOf(MapSeq(Added(rt, lineField), members))
  }

  lemma GroupRecords(rt: Runtime, lineField: string, w: int, group: seq<Finding>)
    ensures DedupedGroup(rt, lineField, w, group) ==
            MapSeq(RecordOf(rt, lineField), Merged(rt, lineField, w, group))
  {
    GroupClustersAreMerged(rt, lineField, w, group);
  }

  function MergedGroups(rt: Runtime, fields: seq<string>, lineField: string, w: int, findings: seq<Finding>)
    : seq<seq<Finding>>
  {
    Flatten(MergedBlocks(rt, lineField, w, Blocks(GroupKey(fields), findings)))
  }

  lemma RecordsOfGroups(rt: Runtime, fields: seq<string>, lineField: string, w: int, findings: seq<Finding>)
    ensures Deduped(rt, fields, lineField, w, findings) ==
            MapSeq(RecordOf(rt, lineField), MergedGroups(rt, fields, lineField, w, findings))
  {
    var blocks := Blocks(GroupKey(fields), findings);
    var merged := MergedBlocks(rt, lineField, w, blocks);
    forall i | 0 <= i < |blocks|
      ensures DedupedBlocks(rt, lineField, w, blocks)[i] == MapEach(RecordOf(rt, lineField), merged)[i]
    {
      GroupRecords(rt, lineField, w, blocks[i]);
    }
    assert DedupedBlocks(rt, lineField, w, blocks) == MapEach(RecordOf(rt, lineField), merged);
    FlattenMapEach(RecordOf(rt, lineField), merged);
  }

  // ----- which findings share a group -----

  /** The group key is the list of the texts of all fields. */
  lemma KeysAgreeIff(fields: seq<string>, f: Finding, g: Finding)
    ensures GroupKey(fields)(f) == GroupKey(fields)(g) <==> Agree(fields, f, g)
  {
    var key := GroupKey(fields);
    if Agree(fields, f, g) {
      assert forall i :: 0 <= i < |fields| ==> key(f)[i] == key(g)[i];
    } else {
      var k :| k in fields && Str(Get(f, k, Text(""))) != Str(Get(g, k, Text("")));
      var i :| 0 <= i < |fields| && fields[i] == k;
      assert key(f)[i] != key(g)[i];
    }
  }

  /** Two reported findings lie in one group if and only if they agree on the text of every field. */
  lemma SameGroupIff(fields: seq<string>, findings: seq<Finding>, f: Finding, g: Finding)
    requires f in findings && g in findings
    ensures
      var blocks := Blocks(GroupKey(fields), findings);
      (exists b :: 0 <= b < |blocks| && f in blocks[b] && g in blocks[b]) <==> Agree(fields, f, g)
  {
    var key := GroupKey(fields);
    var ks, blocks := Keys(key, findings), Blocks(key, findings);
    KeysAgreeIff(fields, f, g);
    KeysAreTheKeys(key, findings);
    forall b | 0 <= b < |blocks| ensures forall x :: x in blocks[b] <==> x in findings && key(x) == ks[b] {
      MembersHaveKey(key, ks[b], findings);
    }
    var b :| 0 <= b < |ks| && ks[b] == key(f);
    assert f in blocks[b];
  }

  ghost predicate BlocksAgree(fields: seq<string>, findings: seq<Finding>, blocks: seq<seq<Finding>>) {
    && (forall b, x, y :: 0 <= b < |blocks| && x in blocks[b] && y in blocks[b] ==> Agree(fields, x, y))
    && (forall a, b, x, y :: 0 <= a < b < |blocks| && x in blocks[a] && y in blocks[b] ==> !Agree(fields, x, y))
    && multiset(Flatten(blocks)) == multiset(findings)
  }

  lemma GroupsAgree(fields: seq<string>, findings: seq<Finding>)
    ensures BlocksAgree(fields, findings, Blocks(GroupKey(fields), findings))
  {
    var key := GroupKey(fields);
    var ks, blocks := Keys(key, findings), Blocks(key, findings);
    KeysAreTheKeys(key, findings);
    BlocksPermute(key, ks, findings);
    forall b | 0 <= b < |blocks| ensures forall x :: x in blocks[b] ==> key(x) == ks[b] {
      MembersHaveKey(key, ks[b], findings);
    }
    forall a, b, x, y | 0 <= a <= b < |blocks| && x in blocks[a] && y in blocks[b]
      ensures Agree(fields, x, y) <==> a == b
    {
      KeysAgreeIff(fields, x, y);
    }
  }

  // ----- the records -----

  lemma {:induction false} PositiveLinesAre(rt: Runtime, lineField: string, members: seq<Finding>, n: int)
    ensures n in PositiveLines(MapSeq(Added(rt, lineField), members)) <==>
            IsLine(ReportedLine(rt, lineField), members, n)
  {
    var line := ReportedLine(rt, lineField);
    if members != [] {
      var m := |members| - 1;
      var items := MapSeq(Added(rt, lineField), members);
      PositiveLinesAre(rt, lineField, members[..m], n);
      assert items[..m] == MapSeq(Added(rt, lineField), members[..m]);
      assert LineNo(items[m]) == line(members[m]);
      assert IsLine(line, members, n) <==> IsLine(line, members[..m], n) || (n > 0 && line(members[m]) == n);
    }
  }

  lemma BookkeepingNames()
    ensures "consolidated_count" != "line_span" && "consolidated_count" != "_line" && "line_span" != "_line"
    ensures forall key :: key !in BOOKKEEPING ==> key != "consolidated_count" && key != "line_span" && key != "_line"
  {
    assert |"consolidated_count"| == 18 && |"line_span"| == 9 && |"_line"| == 5;
    assert BOOKKEEPING[0] in BOOKKEEPING && BOOKKEEPING[1] in BOOKKEEPING && BOOKKEEPING[2] in BOOKKEEPING;
  }

  /** What AnchorOf makes of its first member, key by key. */
  lemma AnchorFields(cluster: seq<Finding>, key: string)
    requires cluster != []
    ensures "_line" !in AnchorOf(cluster)
    ensures key !in BOOKKEEPING ==> SameField(AnchorOf(cluster), cluster[0], key)
  {
    BookkeepingNames();
  }

  lemma AnchorCounts(cluster: seq<Finding>)
    requires cluster != []
    ensures |cluster| > 1 ==>
              "consolidated_count" in AnchorOf(cluster) && AnchorOf(cluster)["consolidated_count"] == Num(|cluster|)
    ensures |cluster| == 1 ==> SameField(AnchorOf(cluster), cluster[0], "consolidated_count")
  {
    BookkeepingNames();
  }

  lemma AnchorSpan(cluster: seq<Finding>)
    requires cluster != []
    ensures
      var lines := PositiveLines(cluster);
      if |cluster| > 1 && lines != []
      then && "line_span" in AnchorOf(cluster)
           && AnchorOf(cluster)["line_span"] == Text(Decimal(Least(lines)) + "-" + Decimal(Greatest(lines)))
      else SameField(AnchorOf(cluster), cluster[0], "line_span")
  {
    BookkeepingNames();
  }

  lemma AddedField(rt: Runtime, lineField: string, f: Finding, key: string)
    requires key != "_line"
    ensures SameField(Added(rt, lineField)(f), f, key)
  {
  }

  lemma SpanIs(rt: Runtime, lineField: string, members: seq<Finding>)
    ensures
      var line, lines := ReportedLine(rt, lineField), PositiveLines(MapSeq(Added(rt, lineField), members));
      && (lines != [] <==> exists n :: IsLine(line, members, n))
      && (lines != [] ==> SpanText(line, members, Decimal(Least(lines)) + "-" + Decimal(Greatest(lines))))
  {
    var line, lines := ReportedLine(rt, lineField), PositiveLines(MapSeq(Added(rt, lineField), members));
    forall n ensures n in lines <==> IsLine(line, members, n) {
      PositiveLinesAre(rt, lineField, members, n);
    }
    if lines != [] {
      assert IsLine(line, members, Least(lines)) && IsLine(line, members, Greatest(lines));
    }
  }

  lemma RecordIsFor(rt: Runtime, lineField: string, members: seq<Finding>)
    requires members != []
    ensures RecordFor(ReportedLine(rt, lineField), RecordOf(rt, lineField)(members), members)
  {
    var items := MapSeq(Added(rt, lineField), members);
    var record := AnchorOf(items);
    BookkeepingNames();
    forall key | key !in BOOKKEEPING ensures SameField(record, members[0], key) {
      AnchorFields(items, key);
      AddedField(rt, lineField, members[0], key);
    }
    AnchorFields(items, "_line");
    AnchorCounts(items);
    AddedField(rt, lineField, members[0], "consolidated_count");
    AnchorSpan(items);
    AddedField(rt, lineField, members[0], "line_span");
    SpanIs(rt, lineField, members);
  }

  // ----- the whole deduplication -----

  lemma GroupMembers(rt: Runtime, lineField: string, w: int, group: seq<Finding>, c: nat, x: Finding)
    requires c < |Merged(rt, lineField, w, group)| && x in Merged(rt, lineField, w, group)[c]
    ensures x in group
  {
    MergedShape(rt, lineField, w, group);
    FlattenMembers(Merged(rt, lineField, w, group), c, x);
    assert x in multiset(group);
  }

  /** What every list of merged findings is. */
  ghost predicate Merges(fields: seq<string>, line: Finding -> int, w: int, members: seq<Finding>) {
    members != [] && Chain(line, w, members) && AllAgree(fields, members)
  }

  lemma GroupMerges(rt: Runtime, fields: seq<string>, lineField: string, w: int, group: seq<Finding>)
    requires AllAgree(fields, group)
    ensures
      var line, clusters := ReportedLine(rt, lineField), Merged(rt, lineField, w, group);
      && (forall c :: 0 <= c < |clusters| ==> Merges(fields, line, w, clusters[c]))
      && (forall c, d :: 0 <= c < d < |clusters| ==> Apart(fields, line, w, clusters[c], clusters[d]))
  {
    var line, clusters := ReportedLine(rt, lineField), Merged(rt, lineField, w, group);
    MergedShape(rt, lineField, w, group);
    forall c | 0 <= c < |clusters| ensures AllAgree(fields, clusters[c]) {
      forall x | x in clusters[c] ensures x in group {
        GroupMembers(rt, lineField, w, group, c, x);
      }
    }
    forall c, d | 0 <= c < d < |clusters| ensures Apart(fields, line, w, clusters[c], clusters[d]) {
      SeparatedAreApart(fields, line, w, clusters, c, d);
    }
  }

  lemma SeparatedAreApart(fields: seq<string>, line: Finding -> int, w: int, clusters: seq<seq<Finding>>, c: nat,
      d: nat)
    requires c < d < |clusters| && Separated(line, w, clusters)
    ensures Apart(fields, line, w, clusters[c], clusters[d])
  {
    forall x, y | x in clusters[c] && y in clusters[d] ensures Abs(line(x) - line(y)) > w {
      var k :| 0 <= k < |clusters[c]| && clusters[c][k] == x;
      var l :| 0 <= l < |clusters[d]| && clusters[d][l] == y;
      assert line(clusters[d][l]) - line(clusters[c][k]) > w;
    }
  }

  lemma OtherGroupsApart(rt: Runtime, fields: seq<string>, lineField: string, w: int, a: seq<Finding>, b: seq<Finding>,
                         c: nat, d: nat)
    requires forall x, y :: x in a && y in b ==> !Agree(fields, x, y)
    requires c < |Merged(rt, lineField, w, a)| && d < |Merged(rt, lineField, w, b)|
    ensures Apart(fields, ReportedLine(rt, lineField), w, Merged(rt, lineField, w, a)[c],
        Merged(rt, lineField, w, b)[d])
  {
    forall x, y | x in Merged(rt, lineField, w, a)[c] && y in Merged(rt, lineField, w, b)[d]
      ensures !Agree(fields, x, y)
    {
      GroupMembers(rt, lineField, w, a, c, x);
      GroupMembers(rt, lineField, w, b, d, y);
    }
  }

  /** Exactly what deduplication does: it divides the reported findings among its records so that the
      findings of one record agree on all group fields and form a chain of lines with gaps of at most
      the window, while findings of different records disagree on some group field or are farther
      apart; and each record is its first finding with the number and the span of all of them. */
  lemma ConsolidationIsExact(rt: Runtime, fields: seq<string>, lineField: string, w: int, findings: seq<Finding>)
    returns (groups: seq<seq<Finding>>)
    ensures
      var line, records := ReportedLine(rt, lineField), Deduped(rt, fields, lineField, w, findings);
      && |groups| == |records| && multiset(Flatten(groups)) == multiset(findings)
      && (forall r :: 0 <= r < |groups| ==>
            Merges(fields, line, w, groups[r]) && RecordFor(line, records[r], groups[r]))
      && (forall r, q :: 0 <= r < q < |groups| ==> Apart(fields, line, w, groups[r], groups[q]))
  {
    groups := MergedGroups(rt, fields, lineField, w, findings);
    RecordsOfGroups(rt, fields, lineField, w, findings);
    GroupsArePermutation(rt, fields, lineField, w, findings);
    GroupsMerge(rt, fields, lineField, w, findings);
    forall r | 0 <= r < |groups|
      ensures RecordFor(ReportedLine(rt, lineField), Deduped(rt, fields, lineField, w, findings)[r], groups[r])
    {
      RecordIsFor(rt, lineField, groups[r]);
    }
  }

  lemma GroupsArePermutation(rt: Runtime, fields: seq<string>, lineField: string, w: int, findings: seq<Finding>)
    ensures multiset(Flatten(MergedGroups(rt, fields, lineField, w, findings))) == multiset(findings)
  {
    var blocks := Blocks(GroupKey(fields), findings);
    GroupsAgree(fields, findings);
    forall b | 0 <= b < |blocks|
      ensures multiset(Flatten(MergedBlocks(rt, lineField, w, blocks)[b])) == multiset(blocks[b])
    {
      MergedShape(rt, lineField, w, blocks[b]);
    }
    FlattenTwice(MergedBlocks(rt, lineField, w, blocks), blocks);
  }

  lemma GroupsMerge(rt: Runtime, fields: seq<string>, lineField: string, w: int, findings: seq<Finding>)
    ensures
      var line, groups := ReportedLine(rt, lineField), MergedGroups(rt, fields, lineField, w, findings);
      && (forall r :: 0 <= r < |groups| ==> Merges(fields, line, w, groups[r]))
      && (forall r, q :: 0 <= r < q < |groups| ==> Apart(fields, line, w, groups[r], groups[q]))
  {
    var line, blocks := ReportedLine(rt, lineField), Blocks(GroupKey(fields), findings);
    var merged := MergedBlocks(rt, lineField, w, blocks);
    ghost var merges, apart :=
      (m: seq<Finding>) => Merges(fields, line, w, m),
      (a: seq<Finding>, b: seq<Finding>) => Apart(fields, line, w, a, b);
    GroupsAgree(fields, findings);
    forall b | 0 <= b < |blocks| ensures AllAgree(fields, blocks[b]) {
    }
    forall b, c | 0 <= b < |merged| && 0 <= c < |merged[b]| ensures merges(merged[b][c]) {
      GroupMerges(rt, fields, lineField, w, blocks[b]);
    }
    forall b, c, d | 0 <= b < |merged| && 0 <= c < d < |merged[b]| ensures apart(merged[b][c], merged[b][d]) {
      GroupMerges(rt, fields, lineField, w, blocks[b]);
    }
    forall a, b, c, d | 0 <= a < b < |merged| && 0 <= c < |merged[a]| && 0 <= d < |merged[b]|
      ensures apart(merged[a][c], merged[b][d])
    {
      OtherGroupsApart(rt, fields, lineField, w, blocks[a], blocks[b], c, d);
    }
    FlattenAll(merges, merged);
    FlattenPairs(apart, merged);
  }

  /** A record agrees on the group fields with every finding it stands for, and every reported finding
      has such a record. */
  lemma RecordsAgree(rt: Runtime, fields: seq<string>, lineField: string, w: int, findings: seq<Finding>, f: Finding)
    returns (groups: seq<seq<Finding>>, r: nat)
    requires f in findings && forall k :: k in fields ==> k !in BOOKKEEPING
    ensures |groups| == |Deduped(rt, fields, lineField, w, findings)|
    ensures forall q, x :: 0 <= q < |groups| && x in groups[q] ==>
                             Agree(fields, Deduped(rt, fields, lineField, w, findings)[q], x)
    ensures r < |groups| && f in groups[r]
  {
    groups := ConsolidationIsExact(rt, fields, lineField, w, findings);
    var records := Deduped(rt, fields, lineField, w, findings);
    forall q, x | 0 <= q < |groups| && x in groups[q] ensures Agree(fields, records[q], x) {
      assert Merges(fields, ReportedLine(rt, lineField), w, groups[q]);
      assert groups[q][0] in groups[q] && Agree(fields, groups[q][0], x);
      forall k | k in fields ensures Get(records[q], k, Text("")) == Get(groups[q][0], k, Text("")) {
        assert SameField(records[q], groups[q][0], k);
      }
    }
    assert f in multiset(Flatten(groups));
    r := FlattenComesFrom(groups, f);
  }
}

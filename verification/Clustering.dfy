/** Single-linkage clustering of a list by an integer line, as the inner loop of
    dedupe_findings_by_line_window in scanner/core/policy_engine.py does it. */
module Clustering {
  import opened Collections

  function Abs(n: int): nat {
    if n < 0 then -n else n
  }

  ghost predicate AllNonEmpty<T>(blocks: seq<seq<T>>) {
    forall i :: 0 <= i < |blocks| ==> |blocks[i]| > 0
  }

  function Last<T>(s: seq<T>): T
    requires |s| > 0
  {
    s[|s| - 1]
  }

  /** One turn of the loop: join the last cluster, or open a new one. */
  function Put<T>(line: T -> int, w: int, cs: seq<seq<T>>, x: T): (r: seq<seq<T>>)
    requires AllNonEmpty(cs)
    ensures AllNonEmpty(r) && |r| > 0 && Last(Last(r)) == x
  {
    if cs == [] then [[x]]
    else if Abs(line(x) - line(Last(Last(cs)))) <= w then cs[..|cs| - 1] + [Last(cs) + [x]]
    else cs + [[x]]
  }

  function Clusters<T>(line: T -> int, w: int, items: seq<T>): (r: seq<seq<T>>)
    ensures AllNonEmpty(r) && (r == [] <==> items == [])
    ensures items != [] ==> Last(Last(r)) == Last(items)
  {
    if items == [] then [] else Put(line, w, Clusters(line, w, items[..|items| - 1]), Last(items))
  }

  method ClusterByWindow<T>(line: T -> int, w: int, items: seq<T>) returns (clusters: seq<seq<T>>)
    ensures clusters == Clusters(line, w, items)
  {
    clusters := [];
    for i := 0 to |items|
      invariant clusters == Clusters(line, w, items[..i])
    {
      assert items[..i + 1][..i] == items[..i];
      if clusters == [] {
        clusters := [[items[i]]];
      } else {
        var last := Last(clusters);
        if Abs(line(items[i]) - line(Last(last))) <= w {
          clusters := clusters[..|clusters| - 1] + [last + [items[i]]];
        } else {
          clusters := clusters + [[items[i]]];
        }
      }
    }
    assert items[..|items|] == items;
  }

  lemma PutFlattens<T>(line: T -> int, w: int, cs: seq<seq<T>>, x: T)
    requires AllNonEmpty(cs)
    ensures Flatten(Put(line, w, cs, x)) == Flatten(cs) + [x]
  {
    if cs != [] {
      var m := |cs| - 1;
      FlattenSnoc(cs[..m], cs[m]);
      FlattenSnoc(cs[..m], cs[m] + [x]);
      assert cs[..m] + [cs[m]] == cs;
      FlattenSnoc(cs, [x]);
    }
  }

  /** Nothing is lost or reordered. */
  lemma {:induction false} ClustersFlatten<T>(line: T -> int, w: int, items: seq<T>)
    ensures Flatten(Clusters(line, w, items)) == items
  {
    if items != [] {
      var n := |items| - 1;
      ClustersFlatten(line, w, items[..n]);
      PutFlattens(line, w, Clusters(line, w, items[..n]), items[n]);
    }
  }

  // ----- which cluster a position is in -----

  /** The number of gaps wider than `w` up to position `p`. */
  function Breaks<T>(line: T -> int, w: int, items: seq<T>, p: nat): nat
    requires p < |items|
  {
    if p == 0 then 0
    else Breaks(line, w, items, p - 1) + if Abs(line(items[p]) - line(items[p - 1])) <= w then 0 else 1
  }

  /** Position `p` of the flattened list lies in block `c`. */
  ghost predicate InBlock<T>(blocks: seq<seq<T>>, c: nat, p: nat) {
    c < |blocks| && |Flatten(blocks[..c])| <= p < |Flatten(blocks[..c + 1])|
  }

  ghost predicate SameBlock<T>(blocks: seq<seq<T>>, p: nat, q: nat) {
    exists c :: InBlock(blocks, c, p) && InBlock(blocks, c, q)
  }

  lemma {:induction false} BreaksOfPrefix<T>(line: T -> int, w: int, items: seq<T>, n: nat, p: nat)
    requires p < n <= |items|
    ensures Breaks(line, w, items[..n], p) == Breaks(line, w, items, p)
  {
    if p > 0 {
      BreaksOfPrefix(line, w, items, n, p - 1);
    }
  }

  lemma {:induction false} BreaksMonotone<T>(line: T -> int, w: int, items: seq<T>, p: nat, q: nat)
    requires p <= q < |items|
    ensures Breaks(line, w, items, p) <= Breaks(line, w, items, q)
    decreases q
  {
    if p < q {
      BreaksMonotone(line, w, items, p, q - 1);
    }
  }

  lemma {:induction false} FlattenPrefixMonotone<T>(blocks: seq<seq<T>>, a: nat, b: nat)
    requires a <= b <= |blocks|
    ensures |Flatten(blocks[..a])| <= |Flatten(blocks[..b])|
  {
    assert blocks[..b] == blocks[..a] + blocks[a..b];
    FlattenAppend(blocks[..a], blocks[a..b]);
  }

  /** Adding an element at the end leaves earlier positions in their blocks. */
  lemma PutKeepsPositions<T>(line: T -> int, w: int, cs: seq<seq<T>>, x: T, c: nat, p: nat)
    requires AllNonEmpty(cs)
    requires InBlock(cs, c, p)
    ensures InBlock(Put(line, w, cs, x), c, p)
  {
    var r := Put(line, w, cs, x);
    var m := |cs| - 1;
    assert r[..c] == cs[..c];
    if c < m {
      assert r[..c + 1] == cs[..c + 1];
    } else {
      assert cs[..m] + [cs[m]] == cs == cs[..c + 1];
      FlattenSnoc(cs[..m], cs[m]);
      FlattenSnoc(cs[..m], r[m]);
      assert r[..m + 1] == cs[..m] + [r[m]];
    }
  }

  lemma LastPosition<T>(blocks: seq<seq<T>>)
    requires |blocks| > 0 && |Last(blocks)| > 0
    ensures |Flatten(blocks)| > 0 && InBlock(blocks, |blocks| - 1, |Flatten(blocks)| - 1)
  {
    var m := |blocks| - 1;
    FlattenSnoc(blocks[..m], blocks[m]);
    assert blocks[..m] + [blocks[m]] == blocks == blocks[..m + 1];
  }

  /** The added element lands in the last block. */
  lemma PutLandsLast<T>(line: T -> int, w: int, cs: seq<seq<T>>, x: T)
    requires AllNonEmpty(cs)
    ensures InBlock(Put(line, w, cs, x), |Put(line, w, cs, x)| - 1, |Flatten(cs)|)
  {
    PutFlattens(line, w, cs, x);
    LastPosition(Put(line, w, cs, x));
  }

  /** Every wide gap opens a cluster. */
  lemma {:induction false} NumberOfClusters<T>(line: T -> int, w: int, items: seq<T>)
    requires items != []
    ensures |Clusters(line, w, items)| == Breaks(line, w, items, |items| - 1) + 1
  {
    var n := |items| - 1;
    if n > 0 {
      NumberOfClusters(line, w, items[..n]);
      BreaksOfPrefix(line, w, items, n, n - 1);
    }
  }

  lemma EarlierPositionStays<T>(line: T -> int, w: int, items: seq<T>, p: nat)
    requires p < |items| - 1
    requires InBlock(Clusters(line, w, items[..|items| - 1]), Breaks(line, w, items[..|items| - 1], p), p)
    ensures InBlock(Clusters(line, w, items), Breaks(line, w, items, p), p)
  {
    var n := |items| - 1;
    BreaksOfPrefix(line, w, items, n, p);
    PutKeepsPositions(line, w, Clusters(line, w, items[..n]), items[n], Breaks(line, w, items, p), p);
  }

  lemma LastPositionIsCounted<T>(line: T -> int, w: int, items: seq<T>)
    requires items != []
    ensures InBlock(Clusters(line, w, items), Breaks(line, w, items, |items| - 1), |items| - 1)
  {
    var n := |items| - 1;
    ClustersFlatten(line, w, items[..n]);
    PutLandsLast(line, w, Clusters(line, w, items[..n]), items[n]);
    NumberOfClusters(line, w, items);
  }

  /** Position `p` lies in the cluster numbered by the wide gaps before it. */
  lemma {:induction false} ClusterOfPosition<T>(line: T -> int, w: int, items: seq<T>, p: nat)
    requires p < |items|
    ensures InBlock(Clusters(line, w, items), Breaks(line, w, items, p), p)
  {
    if p < |items| - 1 {
      ClusterOfPosition(line, w, items[..|items| - 1], p);
      EarlierPositionStays(line, w, items, p);
    } else {
      LastPositionIsCounted(line, w, items);
    }
  }

  lemma BlockIsUnique<T>(blocks: seq<seq<T>>, c: nat, d: nat, p: nat)
    requires InBlock(blocks, c, p) && InBlock(blocks, d, p)
    ensures c == d
  {
    if c < d {
      FlattenPrefixMonotone(blocks, c + 1, d);
    } else if d < c {
      FlattenPrefixMonotone(blocks, d + 1, c);
    }
  }

  // ----- exactness -----

  ghost predicate SortedBy<T>(line: T -> int, items: seq<T>) {
    forall i, j :: 0 <= i < j < |items| ==> line(items[i]) <= line(items[j])
  }

  /** A chain of members, in any order and of any length, with line gaps of at most `w`. */
  ghost predicate IsChain<T>(line: T -> int, w: int, items: seq<T>, chain: seq<nat>) {
    && chain != []
    && (forall i :: 0 <= i < |chain| ==> chain[i] < |items|)
    && (forall i :: 0 < i < |chain| ==> Abs(line(items[chain[i]]) - line(items[chain[i - 1]])) <= w)
  }

  ghost predicate Chained<T>(line: T -> int, w: int, items: seq<T>, p: nat, q: nat) {
    exists chain :: IsChain(line, w, items, chain) && chain[0] == p && chain[|chain| - 1] == q
  }

  lemma {:induction false} SameBreaksChain<T>(line: T -> int, w: int, items: seq<T>, p: nat, q: nat)
    returns (chain: seq<nat>)
    requires p <= q < |items| && Breaks(line, w, items, p) == Breaks(line, w, items, q)
    ensures IsChain(line, w, items, chain) && chain[0] == p && chain[|chain| - 1] == q
    decreases q
  {
    if p == q {
      chain := [p];
    } else {
      BreaksMonotone(line, w, items, p, q - 1);
      var front := SameBreaksChain(line, w, items, p, q - 1);
      chain := front + [q];
    }
  }

  lemma {:induction false} ReverseChain<T>(line: T -> int, w: int, items: seq<T>, chain: seq<nat>)
    returns (back: seq<nat>)
    requires IsChain(line, w, items, chain)
    ensures IsChain(line, w, items, back) && |back| == |chain|
    ensures back[0] == chain[|chain| - 1] && back[|chain| - 1] == chain[0]
  {
    if |chain| == 1 {
      back := chain;
    } else {
      var n := |chain| - 1;
      var rest := ReverseChain(line, w, items, chain[..n]);
      back := [chain[n]] + rest;
    }
  }

  lemma {:induction false} WideGap<T>(line: T -> int, w: int, items: seq<T>, p: nat, q: nat) returns (b: nat)
    requires p < q < |items| && Breaks(line, w, items, p) < Breaks(line, w, items, q)
    ensures p < b <= q && Abs(line(items[b]) - line(items[b - 1])) > w
    decreases q
  {
    if Abs(line(items[q]) - line(items[q - 1])) > w {
      b := q;
    } else {
      b := WideGap(line, w, items, p, q - 1);
    }
  }

  lemma LineAtMost<T>(line: T -> int, items: seq<T>, i: nat, j: nat)
    requires SortedBy(line, items) && i <= j < |items|
    ensures line(items[i]) <= line(items[j])
  {
  }

  lemma {:induction false} NoChainAcross<T>(line: T -> int, w: int, items: seq<T>, b: nat, chain: seq<nat>)
    requires SortedBy(line, items) && 0 < b < |items| && Abs(line(items[b]) - line(items[b - 1])) > w
    requires IsChain(line, w, items, chain) && chain[0] < b
    ensures chain[|chain| - 1] < b
  {
    if |chain| > 1 {
      var n := |chain| - 1;
      NoChainAcross(line, w, items, b, chain[..n]);
      LineAtMost(line, items, chain[n - 1], b - 1);
      if chain[n] >= b {
        LineAtMost(line, items, b, chain[n]);
      }
    }
  }

  /** Two members end in the same cluster iff a chain of members joins them. */
  lemma ClusteringIsExact<T>(line: T -> int, w: int, items: seq<T>, p: nat, q: nat)
    requires SortedBy(line, items) && p < |items| && q < |items|
    ensures SameBlock(Clusters(line, w, items), p, q) <==> Chained(line, w, items, p, q)
  {
    var cs := Clusters(line, w, items);
    var bp, bq := Breaks(line, w, items, p), Breaks(line, w, items, q);
    ClusterOfPosition(line, w, items, p);
    ClusterOfPosition(line, w, items, q);
    if SameBlock(cs, p, q) {
      var c :| InBlock(cs, c, p) && InBlock(cs, c, q);
      BlockIsUnique(cs, c, bp, p);
      BlockIsUnique(cs, c, bq, q);
    }
    if bp == bq {
      var chain := SameBreaksChain(line, w, items, if p <= q then p else q, if p <= q then q else p);
      if p > q {
        chain := ReverseChain(line, w, items, chain);
      }
      assert Chained(line, w, items, p, q);
    } else if Chained(line, w, items, p, q) {
      var chain :| IsChain(line, w, items, chain) && chain[0] == p && chain[|chain| - 1] == q;
      if p < q {
        BreaksMonotone(line, w, items, p, q);
        var b := WideGap(line, w, items, p, q);
        NoChainAcross(line, w, items, b, chain);
      } else {
        BreaksMonotone(line, w, items, q, p);
        var b := WideGap(line, w, items, q, p);
        var back := ReverseChain(line, w, items, chain);
        NoChainAcross(line, w, items, b, back);
      }
    }
  }

  // ----- shape of the clusters of a sorted list -----

  /** Every cluster is sorted, and members of different clusters are more than `w` apart. */
  ghost predicate Separated<T>(line: T -> int, w: int, blocks: seq<seq<T>>) {
    && (forall i :: 0 <= i < |blocks| ==> SortedBy(line, blocks[i]))
    && forall i, j, k, l :: 0 <= i < j < |blocks| && 0 <= k < |blocks[i]| && 0 <= l < |blocks[j]| ==>
                              line(blocks[j][l]) - line(blocks[i][k]) > w && line(blocks[j][l]) >= line(blocks[i][k])
  }

  /** The new element is far from every cluster it does not join. */
  lemma PutIsFar<T>(line: T -> int, w: int, cs: seq<seq<T>>, x: T, i: nat, k: nat)
    requires AllNonEmpty(cs) && Separated(line, w, cs)
    requires i < |cs| && k < |cs[i]| && line(Last(Last(cs))) <= line(x)
    requires i < |cs| - 1 || |Put(line, w, cs, x)| > |cs|
    ensures line(x) - line(cs[i][k]) > w && line(x) >= line(cs[i][k])
  {
    var m := |cs| - 1;
    if i < m {
      assert cs[m][|cs[m]| - 1] == Last(Last(cs));
    } else {
      LineAtMost(line, cs[m], k, |cs[m]| - 1);
    }
  }

  /** Putting an element that is not below the last one keeps the clusters separated. */
  lemma PutKeepsSeparated<T>(line: T -> int, w: int, cs: seq<seq<T>>, x: T)
    requires AllNonEmpty(cs) && Separated(line, w, cs)
    requires cs != [] ==> line(Last(Last(cs))) <= line(x)
    ensures Separated(line, w, Put(line, w, cs, x))
  {
    var r := Put(line, w, cs, x);
    if cs != [] {
      var m := |cs| - 1;
      forall k | 0 <= k < |cs[m]| ensures line(cs[m][k]) <= line(x) {
        LineAtMost(line, cs[m], k, |cs[m]| - 1);
      }
      forall i | 0 <= i < |r| ensures SortedBy(line, r[i]) {
        if i < m {
          assert r[i] == cs[i];
        }
      }
      forall i, j, k, l | 0 <= i < j < |r| && 0 <= k < |r[i]| && 0 <= l < |r[j]|
        ensures line(r[j][l]) - line(r[i][k]) > w && line(r[j][l]) >= line(r[i][k])
      {
        assert r[i] == cs[i];
        if j < |cs| && l < |cs[j]| {
          assert r[j][l] == cs[j][l];
        } else {
          assert r[j][l] == x;
          PutIsFar(line, w, cs, x, i, k);
        }
      }
    }
  }

  lemma {:induction false} ClustersAreSeparated<T>(line: T -> int, w: int, items: seq<T>)
    requires SortedBy(line, items)
    ensures Separated(line, w, Clusters(line, w, items))
  {
    if items != [] {
      var n := |items| - 1;
      ClustersAreSeparated(line, w, items[..n]);
      PutKeepsSeparated(line, w, Clusters(line, w, items[..n]), items[n]);
    }
  }

  lemma {:induction false} FlattenMembers<T>(blocks: seq<seq<T>>, i: nat, x: T)
    requires i < |blocks| && x in blocks[i]
    ensures x in Flatten(blocks)
  {
    if i > 0 {
      FlattenMembers(blocks[1..], i - 1, x);
    }
  }

  lemma ClusterMembers<T>(line: T -> int, w: int, items: seq<T>)
    ensures forall i, k :: 0 <= i < |Clusters(line, w, items)| && 0 <= k < |Clusters(line, w, items)[i]| ==>
              Clusters(line, w, items)[i][k] in items
  {
    ClustersFlatten(line, w, items);
    var cs := Clusters(line, w, items);
    forall i, k | 0 <= i < |cs| && 0 <= k < |cs[i]| ensures cs[i][k] in items {
      FlattenMembers(cs, i, cs[i][k]);
    }
  }

  function Singletons<T>(items: seq<T>): (r: seq<seq<T>>)
    ensures |r| == |items| && forall i :: 0 <= i < |r| ==> r[i] == [items[i]]
  {
    seq(|items|, i requires 0 <= i < |items| => [items[i]])
  }

  /** Items that are all more than `w` apart stay alone. */
  lemma {:induction false} FarItemsStayAlone<T>(line: T -> int, w: int, items: seq<T>)
    requires forall i :: 0 < i < |items| ==> Abs(line(items[i]) - line(items[i - 1])) > w
    ensures Clusters(line, w, items) == Singletons(items)
  {
    if items != [] {
      FarItemsStayAlone(line, w, items[..|items| - 1]);
    }
  }

  /** Cluster sizes add up to the number of items. */
  function Sizes<T>(blocks: seq<seq<T>>): (r: seq<int>)
    ensures |r| == |blocks| && forall i :: 0 <= i < |r| ==> r[i] == |blocks[i]|
  {
    seq(|blocks|, i requires 0 <= i < |blocks| => |blocks[i]|)
  }

  lemma {:induction false} SizesAddUp<T>(blocks: seq<seq<T>>)
    ensures Sum(Sizes(blocks)) == |Flatten(blocks)|
  {
    if blocks != [] {
      var n := |blocks| - 1;
      SizesAddUp(blocks[..n]);
      assert Sizes(blocks)[..n] == Sizes(blocks[..n]);
      FlattenSnoc(blocks[..n], blocks[n]);
      assert blocks[..n] + [blocks[n]] == blocks;
    }
  }
}

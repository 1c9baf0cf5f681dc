/** Sequence algorithms that several components share: the stable sort of Python's `sorted` and
    JavaScript's `Array.sort`, grouping in first-occurrence order, and flattening. */
module Collections {

  datatype Option<+T> = None | Some(value: T)

  function Flatten<T>(blocks: seq<seq<T>>): seq<T> {
    if blocks == [] then [] else blocks[0] + Flatten(blocks[1..])
  }

  lemma {:induction false} FlattenAppend<T>(a: seq<seq<T>>, b: seq<seq<T>>)
    ensures Flatten(a + b) == Flatten(a) + Flatten(b)
  {
    if a == [] {
      assert a + b == b;
    } else {
      assert (a + b)[1..] == a[1..] + b;
      FlattenAppend(a[1..], b);
    }
  }

  lemma FlattenSnoc<T>(blocks: seq<seq<T>>, last: seq<T>)
    ensures Flatten(blocks + [last]) == Flatten(blocks) + last
  {
    FlattenAppend(blocks, [last]);
    assert Flatten([last]) == last + [];
  }

  lemma FlattenTake<T>(blocks: seq<seq<T>>, i: nat)
    requires i < |blocks|
    ensures Flatten(blocks[..i + 1]) == Flatten(blocks[..i]) + blocks[i]
  {
    assert blocks[..i + 1] == blocks[..i] + [blocks[i]];
    FlattenSnoc(blocks[..i], blocks[i]);
  }

  function MapSeq<A, B>(g: A -> B, s: seq<A>): (r: seq<B>)
    ensures |r| == |s| && forall i :: 0 <= i < |s| ==> r[i] == g(s[i])
  {
    seq(|s|, i requires 0 <= i < |s| => g(s[i]))
  }

  lemma SubsetSize<T>(a: set<T>, b: set<T>)
    requires a <= b
    ensures |a| <= |b|
  {
    assert b == a + (b - a);
  }

  function Sum(xs: seq<int>): int {
    if xs == [] then 0 else Sum(xs[..|xs| - 1]) + xs[|xs| - 1]
  }

  lemma {:induction false} SumAppend(a: seq<int>, b: seq<int>)
    ensures Sum(a + b) == Sum(a) + Sum(b)
  {
    if b == [] {
      assert a + b == a;
    } else {
      var n := |b| - 1;
      assert (a + b)[..|a + b| - 1] == a + b[..n];
      SumAppend(a, b[..n]);
    }
  }

  // ----- stable sorting by a total preorder -----

  ghost predicate TotalPreorder<T(!new)>(leq: (T, T) -> bool) {
    && (forall a, b :: leq(a, b) || leq(b, a))
    && (forall a, b, c :: leq(a, b) && leq(b, c) ==> leq(a, c))
  }

  ghost predicate Sorted<T>(leq: (T, T) -> bool, s: seq<T>) {
    forall i, j :: 0 <= i < j < |s| ==> leq(s[i], s[j])
  }

  function Insert<T>(leq: (T, T) -> bool, x: T, s: seq<T>): seq<T> {
    if s == [] then [x]
    else if leq(x, s[0]) then [x] + s
    else [s[0]] + Insert(leq, x, s[1..])
  }

  function StableSort<T>(leq: (T, T) -> bool, s: seq<T>): seq<T> {
    if s == [] then [] else Insert(leq, s[0], StableSort(leq, s[1..]))
  }

  lemma {:induction false} InsertSorts<T(!new)>(leq: (T, T) -> bool, x: T, s: seq<T>)
    requires TotalPreorder(leq) && Sorted(leq, s)
    ensures Sorted(leq, Insert(leq, x, s))
    ensures multiset(Insert(leq, x, s)) == multiset{x} + multiset(s)
  {
    if s != [] {
      assert s == [s[0]] + s[1..];
      if !leq(x, s[0]) {
        InsertSorts(leq, x, s[1..]);
        ConsSorted(leq, s[0], x, s[1..], Insert(leq, x, s[1..]));
      }
    }
  }

  lemma ConsSorted<T>(leq: (T, T) -> bool, first: T, x: T, s: seq<T>, r: seq<T>)
    requires Sorted(leq, r) && multiset(r) == multiset{x} + multiset(s)
    requires leq(first, x) && forall y :: y in s ==> leq(first, y)
    ensures Sorted(leq, [first] + r)
  {
    forall j | 0 <= j < |r| ensures leq(first, r[j]) {
      assert r[j] in multiset(r);
      assert r[j] == x || r[j] in s;
    }
  }

  /** The sort returns a sorted permutation. */
  lemma {:induction false} SortSorts<T(!new)>(leq: (T, T) -> bool, s: seq<T>)
    requires TotalPreorder(leq)
    ensures Sorted(leq, StableSort(leq, s))
    ensures multiset(StableSort(leq, s)) == multiset(s)
    ensures |StableSort(leq, s)| == |s|
  {
    if s != [] {
      SortSorts(leq, s[1..]);
      InsertSorts(leq, s[0], StableSort(leq, s[1..]));
      assert s == [s[0]] + s[1..];
    }
    SameSize(StableSort(leq, s), s);
  }

  lemma SameSize<T>(a: seq<T>, b: seq<T>)
    requires multiset(a) == multiset(b)
    ensures |a| == |b|
  {
    assert |multiset(a)| == |multiset(b)|;
  }

  lemma {:induction false} SortedIsFixed<T>(leq: (T, T) -> bool, s: seq<T>)
    requires Sorted(leq, s)
    ensures StableSort(leq, s) == s
  {
    if s != [] {
      SortedIsFixed(leq, s[1..]);
      assert s == [s[0]] + s[1..];
    }
  }

  function Filter<T>(p: T -> bool, s: seq<T>): seq<T> {
    if s == [] then []
    else Filter(p, s[..|s| - 1]) + (if p(s[|s| - 1]) then [s[|s| - 1]] else [])
  }

  lemma {:induction false} FilterAppend<T>(p: T -> bool, a: seq<T>, b: seq<T>)
    ensures Filter(p, a + b) == Filter(p, a) + Filter(p, b)
  {
    if b == [] {
      assert a + b == a;
    } else {
      var n := |b| - 1;
      assert (a + b)[..|a + b| - 1] == a + b[..n];
      FilterAppend(p, a, b[..n]);
    }
  }

  lemma {:induction false} InsertIsStable<T>(leq: (T, T) -> bool, p: T -> bool, x: T, s: seq<T>)
    requires forall a, b :: a in [x] + s && b in [x] + s && p(a) && p(b) ==> leq(a, b)
    ensures Filter(p, Insert(leq, x, s)) == Filter(p, [x]) + Filter(p, s)
  {
    if s == [] {
      assert Insert(leq, x, s) == [x] && Filter(p, s) == [];
    } else if leq(x, s[0]) {
      FilterAppend(p, [x], s);
    } else {
      var r := Insert(leq, x, s[1..]);
      assert forall a :: a in [x] + s[1..] ==> a in [x] + s;
      InsertIsStable(leq, p, x, s[1..]);
      FilterAppend(p, [s[0]], r);
      FilterAppend(p, [s[0]], s[1..]);
      assert s == [s[0]] + s[1..];
      assert x in [x] + s && s[0] in [x] + s;
      assert Filter(p, [x]) == if p(x) then [x] else [];
      assert Filter(p, [s[0]]) == if p(s[0]) then [s[0]] else [];
    }
  }

  /** Equal elements keep their order. */
  lemma {:induction false} SortIsStable<T(!new)>(leq: (T, T) -> bool, p: T -> bool, s: seq<T>)
    requires TotalPreorder(leq)
    requires forall a, b :: a in s && b in s && p(a) && p(b) ==> leq(a, b)
    ensures Filter(p, StableSort(leq, s)) == Filter(p, s)
  {
    if s != [] {
      var rest := StableSort(leq, s[1..]);
      assert s == [s[0]] + s[1..];
      SortIsStable(leq, p, s[1..]);
      SortSorts(leq, s[1..]);
      forall a | a in [s[0]] + rest ensures a in s {
        if a != s[0] {
          assert a in multiset(rest);
        }
      }
      InsertIsStable(leq, p, s[0], rest);
      FilterAppend(p, [s[0]], s[1..]);
    }
  }

  lemma {:induction false} FilterNone<T>(p: T -> bool, s: seq<T>)
    requires forall x :: x in s ==> !p(x)
    ensures Filter(p, s) == []
  {
    if s != [] {
      FilterNone(p, s[..|s| - 1]);
    }
  }

  lemma {:induction false} FilterFirst<T>(p: T -> bool, s: seq<T>)
    requires s != [] && p(s[0])
    ensures Filter(p, s) != [] && Filter(p, s)[0] == s[0]
  {
    if |s| > 1 {
      FilterFirst(p, s[..|s| - 1]);
    } else {
      assert s[..0] == [];
    }
  }

  lemma {:induction false} FlattenComesFrom<T>(blocks: seq<seq<T>>, x: T) returns (i: nat)
    requires x in Flatten(blocks)
    ensures i < |blocks| && x in blocks[i]
  {
    if x in blocks[0] {
      i := 0;
    } else {
      i := FlattenComesFrom(blocks[1..], x);
      i := i + 1;
    }
  }

  /** `a` is `b` with some elements left out. */
  ghost predicate Subsequence<T>(a: seq<T>, b: seq<T>)
    decreases |b|
  {
    || a == []
    || (&& b != []
        && (|| (a[|a| - 1] == b[|b| - 1] && Subsequence(a[..|a| - 1], b[..|b| - 1]))
            || Subsequence(a, b[..|b| - 1])))
  }

  lemma SubsequenceSnoc<T>(a: seq<T>, b: seq<T>, x: T)
    requires Subsequence(a, b)
    ensures Subsequence(a, b + [x]) && Subsequence(a + [x], b + [x])
  {
    assert (b + [x])[..|b|] == b && (a + [x])[..|a|] == a;
  }

  // ----- grouping in first-occurrence order -----

  function Keys<T, K(==)>(key: T -> K, s: seq<T>): seq<K> {
    if s == [] then []
    else
      var ks := Keys(key, s[..|s| - 1]);
      var k := key(s[|s| - 1]);
      if k in ks then ks else ks + [k]
  }

  function Members<T, K(==)>(key: T -> K, k: K, s: seq<T>): seq<T> {
    if s == [] then []
    else Members(key, k, s[..|s| - 1]) + (if key(s[|s| - 1]) == k then [s[|s| - 1]] else [])
  }

  ghost predicate Distinct<T>(s: seq<T>) {
    forall i, j :: 0 <= i < j < |s| ==> s[i] != s[j]
  }

  lemma {:induction false} KeysAreTheKeys<T, K>(key: T -> K, s: seq<T>)
    ensures Distinct(Keys(key, s))
    ensures forall x :: x in s ==> key(x) in Keys(key, s)
    ensures forall k :: k in Keys(key, s) ==> Members(key, k, s) != []
  {
    if s != [] {
      var n := |s| - 1;
      KeysAreTheKeys(key, s[..n]);
      assert s == s[..n] + [s[n]];
    }
  }

  lemma {:induction false} MembersHaveKey<T, K>(key: T -> K, k: K, s: seq<T>)
    ensures forall x :: x in Members(key, k, s) <==> x in s && key(x) == k
  {
    if s != [] {
      var n := |s| - 1;
      MembersHaveKey(key, k, s[..n]);
      assert s == s[..n] + [s[n]];
    }
  }

  /** The blocks of `s`, one for each of the keys. */
  function BlocksOf<T, K(==)>(key: T -> K, ks: seq<K>, s: seq<T>): (r: seq<seq<T>>)
    ensures |r| == |ks|
    ensures forall i :: 0 <= i < |r| ==> r[i] == Members(key, ks[i], s)
  {
    seq(|ks|, i requires 0 <= i < |ks| => Members(key, ks[i], s))
  }

  /** The blocks of `s` in first-occurrence order. */
  function Blocks<T, K(==)>(key: T -> K, s: seq<T>): seq<seq<T>> {
    BlocksOf(key, Keys(key, s), s)
  }

  lemma {:induction false} KeysAppend<T, K>(key: T -> K, a: seq<T>, b: seq<T>, k: K)
    requires b != [] && k !in Keys(key, a)
    requires forall x :: x in b ==> key(x) == k
    ensures Keys(key, a + b) == Keys(key, a) + [k]
  {
    var n := |b| - 1;
    assert (a + b)[..|a + b| - 1] == a + b[..n];
    assert b[n] in b;
    if n == 0 {
      assert a + b[..n] == a;
    } else {
      KeysAppend(key, a, b[..n], k);
    }
  }

  lemma {:induction false} MembersAppend<T, K>(key: T -> K, k: K, a: seq<T>, b: seq<T>)
    ensures Members(key, k, a + b) == Members(key, k, a) + Members(key, k, b)
  {
    if b == [] {
      assert a + b == a;
    } else {
      var n := |b| - 1;
      assert (a + b)[..|a + b| - 1] == a + b[..n];
      MembersAppend(key, k, a, b[..n]);
    }
  }

  lemma {:induction false} MembersUniform<T, K>(key: T -> K, k: K, k': K, s: seq<T>)
    requires forall x :: x in s ==> key(x) == k'
    ensures Members(key, k, s) == if k == k' then s else []
  {
    if s != [] {
      var n := |s| - 1;
      assert s[n] in s && s == s[..n] + [s[n]];
      MembersUniform(key, k, k', s[..n]);
    }
  }

  ghost predicate UniformBlocks<T, K>(key: T -> K, ks: seq<K>, blocks: seq<seq<T>>) {
    && |ks| == |blocks| && Distinct(ks)
    && forall i, x :: 0 <= i < |blocks| && x in blocks[i] ==> key(x) == ks[i]
  }

  /** One more block, with a key of its own. */
  lemma BlockAppended<T, K>(key: T -> K, front: seq<T>, last: seq<T>, k: K)
    requires last != [] && k !in Keys(key, front) && forall x :: x in last ==> key(x) == k
    ensures Keys(key, front + last) == Keys(key, front) + [k]
    ensures Members(key, k, front + last) == last
    ensures forall k' :: k' in Keys(key, front) ==> Members(key, k', front + last) == Members(key, k', front)
  {
    KeysAppend(key, front, last, k);
    MembersAppend(key, k, front, last);
    MembersUniform(key, k, k, last);
    NoMembers(key, k, front);
    forall k' | k' in Keys(key, front) ensures Members(key, k', front + last) == Members(key, k', front) {
      MembersAppend(key, k', front, last);
      MembersUniform(key, k', k, last);
    }
  }

  lemma UniformPrefix<T, K>(key: T -> K, ks: seq<K>, blocks: seq<seq<T>>)
    requires UniformBlocks(key, ks, blocks) && blocks != []
    ensures UniformBlocks(key, ks[..|ks| - 1], blocks[..|blocks| - 1])
    ensures ks[|ks| - 1] !in ks[..|ks| - 1] && forall x :: x in blocks[|blocks| - 1] ==> key(x) == ks[|ks| - 1]
  {
  }

  lemma {:induction false} KeysOfBlocks<T, K>(key: T -> K, ks: seq<K>, blocks: seq<seq<T>>)
    requires UniformBlocks(key, ks, blocks)
    requires forall i :: 0 <= i < |blocks| ==> blocks[i] != []
    ensures Keys(key, Flatten(blocks)) == ks
    ensures forall i :: 0 <= i < |ks| ==> Members(key, ks[i], Flatten(blocks)) == blocks[i]
  {
    if blocks != [] {
      var n := |blocks| - 1;
      UniformPrefix(key, ks, blocks);
      KeysOfBlocks(key, ks[..n], blocks[..n]);
      assert blocks == blocks[..n] + [blocks[n]];
      FlattenSnoc(blocks[..n], blocks[n]);
      BlockAppended(key, Flatten(blocks[..n]), blocks[n], ks[n]);
      forall i | 0 <= i < n ensures Members(key, ks[i], Flatten(blocks)) == blocks[i] {
        assert ks[..n][i] == ks[i] && ks[i] in ks[..n];
      }
    }
  }

  /** Grouping a list that is already laid out in blocks gives the blocks back. */
  lemma GroupingBlocks<T, K>(key: T -> K, ks: seq<K>, blocks: seq<seq<T>>)
    requires UniformBlocks(key, ks, blocks)
    requires forall i :: 0 <= i < |blocks| ==> blocks[i] != []
    ensures Keys(key, Flatten(blocks)) == ks
    ensures Blocks(key, Flatten(blocks)) == blocks
  {
    KeysOfBlocks(key, ks, blocks);
  }

  lemma {:induction false} NoMembers<T, K>(key: T -> K, k: K, s: seq<T>)
    requires k !in Keys(key, s)
    ensures Members(key, k, s) == []
  {
    if s != [] {
      NoMembers(key, k, s[..|s| - 1]);
    }
  }

  lemma {:induction false} FlattenChange<T>(a: seq<seq<T>>, b: seq<seq<T>>, i: nat, x: T)
    requires |a| == |b| && i < |a|
    requires b[i] == a[i] + [x]
    requires forall j :: 0 <= j < |a| && j != i ==> b[j] == a[j]
    ensures multiset(Flatten(b)) == multiset(Flatten(a)) + multiset{x}
  {
    if i == 0 {
      assert a[1..] == b[1..];
    } else {
      FlattenChange(a[1..], b[1..], i - 1, x);
    }
  }

  lemma MembersOfSnoc<T, K>(key: T -> K, k: K, s: seq<T>, x: T)
    ensures Members(key, k, s + [x]) == Members(key, k, s) + (if key(x) == k then [x] else [])
  {
    assert (s + [x])[..|s + [x]| - 1] == s;
  }

  lemma KeysOfSnoc<T, K>(key: T -> K, s: seq<T>, x: T)
    ensures Keys(key, s + [x]) == if key(x) in Keys(key, s) then Keys(key, s) else Keys(key, s) + [key(x)]
  {
    assert (s + [x])[..|s + [x]| - 1] == s;
  }

  lemma {:induction false} FlattenNothing<T>(blocks: seq<seq<T>>)
    requires forall i :: 0 <= i < |blocks| ==> blocks[i] == []
    ensures Flatten(blocks) == []
  {
    if blocks != [] {
      FlattenNothing(blocks[1..]);
    }
  }

  /** One more element extends the block of its key and no other. */
  lemma BlocksOfSnoc<T, K>(key: T -> K, ks: seq<K>, s: seq<T>, x: T)
    requires Distinct(ks) && key(x) in ks
    ensures multiset(Flatten(BlocksOf(key, ks, s + [x]))) == multiset(Flatten(BlocksOf(key, ks, s))) + multiset{x}
  {
    var i :| 0 <= i < |ks| && ks[i] == key(x);
    forall j | 0 <= j < |ks|
      ensures BlocksOf(key, ks, s + [x])[j] == BlocksOf(key, ks, s)[j] + (if j == i then [x] else [])
    {
      MembersOfSnoc(key, ks[j], s, x);
      assert j != i ==> ks[j] != ks[i];
    }
    FlattenChange(BlocksOf(key, ks, s), BlocksOf(key, ks, s + [x]), i, x);
  }

  /** Grouping neither loses nor invents elements, in whatever order the keys are taken. */
  lemma {:induction false} BlocksPermute<T, K>(key: T -> K, ks: seq<K>, s: seq<T>)
    requires Distinct(ks) && forall x :: x in s ==> key(x) in ks
    ensures multiset(Flatten(BlocksOf(key, ks, s))) == multiset(s)
  {
    if s == [] {
      FlattenNothing(BlocksOf(key, ks, s));
    } else {
      var n := |s| - 1;
      assert s == s[..n] + [s[n]];
      BlocksPermute(key, ks, s[..n]);
      BlocksOfSnoc(key, ks, s[..n], s[n]);
    }
  }
}

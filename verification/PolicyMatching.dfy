/** Path normalisation of scanner/core/policy_matching.py. */
module PolicyMatching {
  import opened Collections

  /** Python's str.isspace, by code point. */
  predicate IsSpace(c: char) {
    var n := c as int;
    || 9 <= n <= 13 || 28 <= n <= 32 || n == 0x85 || n == 0xA0 || n == 0x1680
    || 0x2000 <= n <= 0x200A || n == 0x2028 || n == 0x2029 || n == 0x202F || n == 0x205F || n == 0x3000
  }

  function Slashes(s: string): (r: string)
    ensures |r| == |s| && '\\' !in r
    ensures forall i :: 0 <= i < |s| ==> r[i] == if s[i] == '\\' then '/' else s[i]
  {
    if s == "" then "" else [if s[0] == '\\' then '/' else s[0]] + Slashes(s[1..])
  }

  function StripLeft(s: string): string {
    if s != "" && IsSpace(s[0]) then StripLeft(s[1..]) else s
  }

  function StripRight(s: string): string {
    if s != "" && IsSpace(s[|s| - 1]) then StripRight(s[..|s| - 1]) else s
  }

  function Strip(s: string): string {
    StripRight(StripLeft(s))
  }

  function TrimSlashes(s: string): string {
    if s != "" && s[0] == '/' then TrimSlashes(s[1..]) else s
  }

  const MARKER := "/target/"
  const MOUNT_PREFIXES := ["/app/target/", "/target/"]

  /** Index of the first "/target/" in `s`. */
  function MarkerAt(s: string): Option<nat> {
    if |s| < |MARKER| then None
    else if MARKER <= s then Some(0)
    else
      match MarkerAt(s[1..])
      case Some(i) => Some(i + 1)
      case None => None
  }

  ghost predicate MarkerHere(s: string, i: nat) {
    i + |MARKER| <= |s| && s[i..i + |MARKER|] == MARKER
  }

  ghost predicate HasMarker(s: string) {
    exists i :: MarkerHere(s, i)
  }

  lemma MarkerShift(s: string, i: nat)
    requires s != ""
    ensures MarkerHere(s[1..], i) <==> MarkerHere(s, i + 1)
  {
    if i + 1 + |MARKER| <= |s| {
      assert s[1..][i..i + |MARKER|] == s[i + 1..i + 1 + |MARKER|];
    }
  }

  /** The search returns the first marker and misses none. */
  lemma {:induction false} MarkerAtFindsFirst(s: string)
    ensures MarkerAt(s).None? <==> !HasMarker(s)
    ensures MarkerAt(s).Some? ==> MarkerHere(s, MarkerAt(s).value)
    ensures MarkerAt(s).Some? ==> forall i :: 0 <= i < MarkerAt(s).value ==> !MarkerHere(s, i)
  {
    if |s| < |MARKER| {
    } else if MARKER <= s {
      assert s[0..0 + |MARKER|] == MARKER;
      assert MarkerHere(s, 0);
    } else {
      var t := s[1..];
      MarkerAtFindsFirst(t);
      assert !MarkerHere(s, 0);
      forall i: nat ensures MarkerHere(t, i) <==> MarkerHere(s, i + 1) {
        MarkerShift(s, i);
      }
      forall i: nat | MarkerHere(s, i) ensures i > 0 && MarkerHere(t, i - 1) {
        MarkerShift(s, i - 1);
      }
    }
  }

  /** What follows the first marker, or the whole path. */
  function AfterMarker(s: string): string
  {
    match MarkerAt(s)
    case Some(i) => MarkerAtFindsFirst(s); s[i + |MARKER|..]
    case None => s
  }

  function Unmounted(s: string): string {
    if MOUNT_PREFIXES[0] <= s then s[|MOUNT_PREFIXES[0]|..]
    else if MOUNT_PREFIXES[1] <= s then s[|MOUNT_PREFIXES[1]|..]
    else s
  }

  // ----- shape of the result -----

  ghost predicate IsSuffix(t: string, s: string) {
    |t| <= |s| && t == s[|s| - |t|..]
  }

  lemma SuffixTransitive(a: string, b: string, c: string)
    requires IsSuffix(a, b) && IsSuffix(b, c)
    ensures IsSuffix(a, c)
  {
  }

  lemma {:induction false} StripLeftSuffix(s: string)
    ensures IsSuffix(StripLeft(s), s)
  {
    if s != "" && IsSpace(s[0]) {
      StripLeftSuffix(s[1..]);
    }
  }

  lemma {:induction false} TrimSlashesSuffix(s: string)
    ensures IsSuffix(TrimSlashes(s), s)
    ensures TrimSlashes(s) != "" ==> TrimSlashes(s)[0] != '/'
    ensures s != "" && s[0] != '/' ==> TrimSlashes(s) == s
  {
    if s != "" && s[0] == '/' {
      TrimSlashesSuffix(s[1..]);
      SuffixTransitive(TrimSlashes(s), s[1..], s);
    }
  }

  lemma {:induction false} StripRightPrefix(s: string)
    ensures StripRight(s) <= s
  {
    if s != "" && IsSpace(s[|s| - 1]) {
      StripRightPrefix(s[..|s| - 1]);
    }
  }

  lemma StripShape(s: string)
    ensures |Strip(s)| <= |s|
    ensures forall c :: c in Strip(s) ==> c in s
    ensures |Strip(s)| == |s| ==> Strip(s) == s
    ensures (forall c :: c in s ==> !IsSpace(c)) ==> Strip(s) == s
  {
    StripLeftSuffix(s);
    StripRightPrefix(StripLeft(s));
    forall c | c in Strip(s) ensures c in s {
      assert c in StripLeft(s);
    }
    if forall c :: c in s ==> !IsSpace(c) {
      assert s != "" ==> s[0] in s && s[|s| - 1] in s;
    }
  }

  lemma DropSuffix(s: string, k: nat)
    requires k <= |s|
    ensures IsSuffix(s[k..], s)
  {
  }

  lemma UnmountedSuffix(s: string)
    ensures IsSuffix(Unmounted(s), s)
  {
    if MOUNT_PREFIXES[0] <= s {
      DropSuffix(s, |MOUNT_PREFIXES[0]|);
    } else if MOUNT_PREFIXES[1] <= s {
      DropSuffix(s, |MOUNT_PREFIXES[1]|);
    }
  }

  lemma AfterMarkerSuffix(s: string)
    ensures IsSuffix(AfterMarker(s), s)
    ensures MarkerAt(s).Some? ==> |AfterMarker(s)| + |MARKER| <= |s|
  {
    MarkerAtFindsFirst(s);
    if MarkerAt(s).Some? {
      DropSuffix(s, MarkerAt(s).value + |MARKER|);
    }
  }

  lemma TailShape(s: string)
    ensures IsSuffix(TrimSlashes(AfterMarker(Unmounted(s))), s)
  {
    var a := Unmounted(s);
    var b := AfterMarker(a);
    UnmountedSuffix(s);
    AfterMarkerSuffix(a);
    TrimSlashesSuffix(b);
    SuffixTransitive(TrimSlashes(b), b, a);
    SuffixTransitive(TrimSlashes(b), a, s);
  }

  /** A normalised path has no leading slash and no backslash. */
  predicate Relative(n: string) {
    '\\' !in n && (n != "" ==> n[0] != '/')
  }

  lemma SuffixElements(t: string, s: string)
    requires IsSuffix(t, s)
    ensures forall c :: c in t ==> c in s
  {
    forall c | c in t ensures c in s {
      assert c in s[|s| - |t|..];
    }
  }

  lemma TailIsRelative(path: string)
    ensures Relative(TrimSlashes(AfterMarker(Unmounted(Strip(Slashes(path))))))
  {
    var s := Strip(Slashes(path));
    TailShape(s);
    StripShape(Slashes(path));
    TrimSlashesSuffix(AfterMarker(Unmounted(s)));
    SuffixElements(TrimSlashes(AfterMarker(Unmounted(s))), s);
  }

  /** The value normalize_policy_path computes. */
  function Normalized(path: string): (r: string)
    ensures Relative(r)
  {
    TailIsRelative(path);
    TrimSlashes(AfterMarker(Unmounted(Strip(Slashes(path)))))
  }

  method NormalizePolicyPath(path: string) returns (r: string)
    ensures r == Normalized(path)
  {
    var raw := Strip(Slashes(path));
    ghost var stripped := raw;
    for i := 0 to |MOUNT_PREFIXES|
      invariant raw == stripped
      invariant forall j :: 0 <= j < i ==> !(MOUNT_PREFIXES[j] <= stripped)
    {
      if MOUNT_PREFIXES[i] <= raw {
        raw := raw[|MOUNT_PREFIXES[i]|..];
        break;
      }
    }
    if MarkerAt(raw).Some? {
      raw := AfterMarker(raw);
    }
    r := TrimSlashes(raw);
  }

  /** For every path: the result is a suffix of the slashed and stripped input. */
  lemma NormalizedShape(path: string)
    ensures IsSuffix(Normalized(path), Strip(Slashes(path)))
  {
    TailShape(Strip(Slashes(path)));
  }

  /** Whitespace-free paths: the result is a suffix of the backslash-replaced input itself. */
  lemma NormalizedSuffix(path: string)
    requires Spaceless(path)
    ensures IsSuffix(Normalized(path), Slashes(path))
    ensures Spaceless(Normalized(path))
  {
    NormalizedShape(path);
    var s := Slashes(path);
    forall c | c in s ensures !IsSpace(c) {
      var i :| 0 <= i < |s| && s[i] == c;
      assert path[i] in path;
    }
    StripShape(s);
    SuffixElements(Normalized(path), s);
  }

  lemma {:induction false} SlashesFixed(s: string)
    requires '\\' !in s
    ensures Slashes(s) == s
  {
  }

  lemma {:induction false} RelativeUnmounted(n: string)
    requires n == "" || n[0] != '/'
    ensures Unmounted(n) == n
  {
    assert MOUNT_PREFIXES[0][0] == '/' && MOUNT_PREFIXES[1][0] == '/';
  }

  /** A second application changes a path iff a marker or outer whitespace is left, and then the
      path gets shorter; without whitespace it loses at least the eight characters of a marker. */
  lemma NextApplication(n: string)
    requires Relative(n)
    ensures Normalized(n) == n <==> !HasMarker(n) && Strip(n) == n
    ensures Normalized(n) != n ==> |Normalized(n)| < |n|
    ensures Normalized(n) != n && Strip(n) == n ==> |Normalized(n)| + |MARKER| <= |n|
    ensures Strip(n) == n ==> Normalized(n) == TrimSlashes(AfterMarker(n))
  {
    SlashesFixed(n);
    StripShape(n);
    var s := Strip(n);
    TailShape(s);
    if s == n {
      RelativeUnmounted(n);
      MarkerAtFindsFirst(n);
      TrimSlashesSuffix(AfterMarker(n));
    } else {
      assert |Normalized(n)| <= |s| < |n|;
    }
  }

  // ----- convergence -----

  function Fixpoint(n: string): (r: string)
    requires Relative(n)
    decreases |n|
  {
    NextApplication(n);
    if Normalized(n) == n then n else Fixpoint(Normalized(n))
  }

  function Iterate<T>(f: T -> T, x: T, k: nat): T
    decreases k
  {
    if k == 0 then x else f(Iterate(f, x, k - 1))
  }

  function Iterated(path: string, k: nat): string {
    Iterate(Normalized, path, k)
  }

  lemma {:induction false} IterateFirst<T>(f: T -> T, x: T, k: nat)
    ensures Iterate(f, x, k + 1) == Iterate(f, f(x), k)
  {
    if k > 0 {
      IterateFirst(f, x, k - 1);
    }
  }

  lemma {:induction false} IterateFixed<T>(f: T -> T, x: T, k: nat)
    requires f(x) == x
    ensures Iterate(f, x, k) == x
  {
    if k > 0 {
      IterateFixed(f, x, k - 1);
    }
  }

  lemma {:induction false} FixpointIsFixed(n: string)
    requires Relative(n)
    ensures Normalized(Fixpoint(n)) == Fixpoint(n)
    ensures !HasMarker(Fixpoint(n)) && Relative(Fixpoint(n))
    decreases |n|
  {
    NextApplication(n);
    if Normalized(n) != n {
      FixpointIsFixed(Normalized(n));
    }
  }

  /** Each application of `f` that changes a value makes it smaller and keeps its `fix`. */
  ghost predicate Converging<T(!new)>(f: T -> T, dom: T -> bool, size: T -> nat, fix: T -> T) {
    forall x :: dom(x) ==> if f(x) == x then fix(x) == x else dom(f(x)) && size(f(x)) < size(x) && fix(f(x)) == fix(x)
  }

  lemma {:induction false} IterationReachesFix<T(!new)>(f: T -> T, dom: T -> bool, size: T -> nat, fix: T -> T, x: T,
      k: nat)
    requires Converging(f, dom, size, fix) && dom(x) && size(x) <= k
    ensures Iterate(f, x, k) == fix(x)
    decreases k
  {
    if f(x) == x {
      IterateFixed(f, x, k);
    } else {
      IterationReachesFix(f, dom, size, fix, f(x), k - 1);
      IterateFirst(f, x, k - 1);
    }
  }

  lemma FixpointStep(n: string)
    requires Relative(n)
    ensures if Normalized(n) == n then Fixpoint(n) == n
        else |Normalized(n)| < |n| && Fixpoint(n) == Fixpoint(Normalized(n))
  {
    NextApplication(n);
  }

  lemma FixpointReached(n: string, k: nat)
    requires Relative(n) && |n| <= k
    ensures Iterated(n, k) == Fixpoint(n)
  {
    var dom, size := (s: string) => Relative(s), (s: string) => |s|;
    var fix := (s: string) => if Relative(s) then Fixpoint(s) else s;
    forall s | dom(s)
      ensures if Normalized(s) == s then fix(s) == s
              else dom(Normalized(s)) && size(Normalized(s)) < size(s) && fix(Normalized(s)) == fix(s)
    {
      FixpointStep(s);
    }
    IterationReachesFix(Normalized, dom, size, fix, n, k);
  }

  /** Applying the normalisation often enough reaches a path without any marker. */
  lemma NormalizationConverges(path: string)
    ensures Iterated(path, |path| + 1) == Fixpoint(Normalized(path))
    ensures !HasMarker(Iterated(path, |path| + 1))
    ensures Normalized(Iterated(path, |path| + 1)) == Iterated(path, |path| + 1)
  {
    NormalizedShape(path);
    StripShape(Slashes(path));
    FixpointReached(Normalized(path), |path|);
    IterateFirst(Normalized, path, |path|);
    FixpointIsFixed(Normalized(path));
  }

  // ----- how many applications it takes -----

  ghost predicate Spaceless(s: string) {
    forall c :: c in s ==> !IsSpace(c)
  }

  /** The first marker position from `p` on. */
  ghost function NextMarker(s: string, p: nat): (r: Option<nat>)
    ensures r.Some? ==> p <= r.value && MarkerHere(s, r.value)
    ensures r.Some? ==> forall i :: p <= i < r.value ==> !MarkerHere(s, i)
    ensures r.None? ==> forall i :: p <= i ==> !MarkerHere(s, i)
    decreases |s| - p
  {
    if p + |MARKER| > |s| then None
    else if MarkerHere(s, p) then Some(p)
    else NextMarker(s, p + 1)
  }

  /** The first position from `p` on that is no slash. */
  function PastSlashes(s: string, p: nat): (q: nat)
    requires p <= |s|
    ensures p <= q <= |s| && (q < |s| ==> s[q] != '/')
    decreases |s| - p
  {
    if p < |s| && s[p] == '/' then PastSlashes(s, p + 1) else p
  }

  /** The markers from `p` on, read from left to right; the slashes after a marker belong to it. */
  ghost function Markers(s: string, p: nat): nat
    requires p <= |s|
    decreases |s| - p
  {
    match NextMarker(s, p)
    case None => 0
    case Some(i) => 1 + Markers(s, PastSlashes(s, i + |MARKER|))
  }

  /** The length of the mount prefix. */
  function Mount(s: string): (p: nat)
    ensures p <= |s|
  {
    if MOUNT_PREFIXES[0] <= s then |MOUNT_PREFIXES[0]|
    else if MOUNT_PREFIXES[1] <= s then |MOUNT_PREFIXES[1]|
    else 0
  }

  /** Neither a slash nor a blank stands at `p`. */
  predicate Clean(s: string, p: nat) {
    p <= |s| && (p < |s| ==> s[p] != '/' && !IsSpace(s[p]))
  }

  /** No blank comes to stand in front when a marker, or the leading slashes of a path without
      markers, are cut off; blanks anywhere else do not matter. */
  ghost predicate Tidy(s: string) {
    && (forall i: nat :: MarkerHere(s, i) ==> Clean(s, PastSlashes(s, i + |MARKER|)))
    && (NextMarker(s, 0).None? ==> Clean(s, PastSlashes(s, 0)))
  }

  /** A path as every application leaves it at its end: no backslash and no blank at the end. */
  predicate Trimmed(s: string) {
    '\\' !in s && (s != "" ==> !IsSpace(s[|s| - 1]))
  }

  lemma {:induction false} TrimmedFrom(s: string, p: nat)
    requires p <= |s|
    ensures TrimSlashes(s[p..]) == s[PastSlashes(s, p)..]
    decreases |s| - p
  {
    if p < |s| && s[p] == '/' {
      TrimmedFrom(s, p + 1);
      assert s[p..][1..] == s[p + 1..];
    }
  }

  lemma {:induction false} MarkerAtFrom(s: string, p: nat)
    requires p <= |s|
    ensures MarkerAt(s[p..]) == match NextMarker(s, p)
                                case None => None
                                case Some(i) => Some(i - p)
    decreases |s| - p
  {
    if p + |MARKER| <= |s| {
      assert s[p..][..|MARKER|] == s[p..p + |MARKER|];
      if !MarkerHere(s, p) {
        assert s[p..][1..] == s[p + 1..];
        MarkerAtFrom(s, p + 1);
      }
    }
  }

  lemma AfterMarkerFrom(s: string, p: nat)
    requires p <= |s|
    ensures AfterMarker(s[p..]) == match NextMarker(s, p)
                                   case None => s[p..]
                                   case Some(i) => s[i + |MARKER|..]
  {
    MarkerAtFrom(s, p);
    var next := NextMarker(s, p);
    if next.Some? {
      assert s[p..][next.value - p + |MARKER|..] == s[next.value + |MARKER|..];
    }
  }

  lemma NoOuterBlanks(t: string)
    requires t != "" ==> !IsSpace(t[0]) && !IsSpace(t[|t| - 1])
    ensures Strip(t) == t
  {
  }

  /** Where the next application of a path that starts at `p` ends up. */
  ghost function After(s: string, p: nat): (q: nat)
    requires p <= |s|
    ensures p <= q <= |s|
  {
    match NextMarker(s, p)
    case None => p
    case Some(i) => PastSlashes(s, i + |MARKER|)
  }

  lemma StepText(s: string, p: nat)
    requires Trimmed(s) && Clean(s, p)
    ensures Relative(s[p..]) && Normalized(s[p..]) == TrimSlashes(AfterMarker(s[p..]))
  {
    NoOuterBlanks(s[p..]);
    NextApplication(s[p..]);
  }

  lemma AfterText(s: string, p: nat)
    requires Clean(s, p)
    ensures TrimSlashes(AfterMarker(s[p..])) == s[After(s, p)..]
  {
    AfterMarkerFrom(s, p);
    match NextMarker(s, p) {
      case None => TrimmedFrom(s, p);
      case Some(i) => TrimmedFrom(s, i + |MARKER|);
    }
  }

  lemma AfterCounts(s: string, p: nat)
    requires Tidy(s) && Clean(s, p)
    ensures Clean(s, After(s, p)) && (After(s, p) == p <==> Markers(s, p) == 0)
    ensures Markers(s, After(s, p)) == if Markers(s, p) > 0 then Markers(s, p) - 1 else 0
  {
  }

  /** An application takes one off the rank, and rank zero is the fixpoint. */
  ghost predicate RankedAt<T(!new)>(f: T -> T, dom: T -> bool, fix: T -> T, rank: T -> nat, x: T) {
    if rank(x) == 0 then f(x) == x && fix(x) == x
    else dom(f(x)) && rank(f(x)) == rank(x) - 1 && fix(x) != x && fix(f(x)) == fix(x)
  }

  ghost predicate Ranked<T(!new)>(f: T -> T, dom: T -> bool, fix: T -> T, rank: T -> nat) {
    forall x :: dom(x) ==> RankedAt(f, dom, fix, rank, x)
  }

  lemma {:induction false} IterationTakesRank<T(!new)>(
    f: T -> T, dom: T -> bool, fix: T -> T, rank: T -> nat, x: T, k: nat)
    requires Ranked(f, dom, fix, rank) && dom(x)
    ensures Iterate(f, x, k) == fix(x) <==> rank(x) <= k
    decreases k
  {
    assert RankedAt(f, dom, fix, rank, x);
    if rank(x) == 0 {
      IterateFixed(f, x, k);
    } else if k > 0 {
      IterationTakesRank(f, dom, fix, rank, f(x), k - 1);
      IterateFirst(f, x, k - 1);
    } else {
      assert Iterate(f, x, 0) == x;
    }
  }

  /** The suffixes of `s` that start at a clean position, and their markers. */
  ghost function CleanSuffix(s: string): string -> bool {
    (t: string) => IsSuffix(t, s) && Clean(s, |s| - |t|)
  }

  ghost function MarkersOf(s: string): string -> nat {
    (t: string) => if |t| <= |s| then Markers(s, |s| - |t|) else 0
  }

  ghost function FixpointOf(t: string): string {
    if Relative(t) then Fixpoint(t) else t
  }

  lemma SuffixAt(s: string, p: nat)
    requires Clean(s, p)
    ensures CleanSuffix(s)(s[p..]) && MarkersOf(s)(s[p..]) == Markers(s, p)
  {
  }

  lemma FixpointOfNext(t: string, u: string)
    requires Relative(t) && u == Normalized(t)
    ensures if u == t then FixpointOf(t) == t else FixpointOf(t) != t && FixpointOf(u) == FixpointOf(t)
  {
    FixpointStep(t);
    FixpointIsFixed(t);
  }

  /** The markers behind its position are the rank of a suffix. */
  lemma MarkersStep(s: string, t: string, u: string)
    requires Trimmed(s) && Tidy(s) && CleanSuffix(s)(t) && u == s[After(s, |s| - |t|)..]
    ensures CleanSuffix(s)(u) && (u == t <==> MarkersOf(s)(t) == 0)
    ensures MarkersOf(s)(t) > 0 ==> MarkersOf(s)(u) == MarkersOf(s)(t) - 1
  {
    AfterCounts(s, |s| - |t|);
    SuffixAt(s, After(s, |s| - |t|));
  }

  lemma NextText(s: string, t: string)
    requires Trimmed(s) && CleanSuffix(s)(t)
    ensures Relative(t) && Normalized(t) == s[After(s, |s| - |t|)..]
  {
    StepText(s, |s| - |t|);
    AfterText(s, |s| - |t|);
  }

  lemma StepRanks(s: string, t: string)
    requires Trimmed(s) && Tidy(s) && CleanSuffix(s)(t)
    ensures RankedAt(Normalized, CleanSuffix(s), FixpointOf, MarkersOf(s), t)
  {
    var u := s[After(s, |s| - |t|)..];
    NextText(s, t);
    MarkersStep(s, t, u);
    FixpointOfNext(t, u);
  }

  lemma MarkersRank(s: string)
    requires Trimmed(s) && Tidy(s)
    ensures Ranked(Normalized, CleanSuffix(s), FixpointOf, MarkersOf(s))
  {
    forall t | CleanSuffix(s)(t) ensures RankedAt(Normalized, CleanSuffix(s), FixpointOf, MarkersOf(s), t) {
      StepRanks(s, t);
    }
  }

  /** From a clean position, `k` further applications are the fixpoint iff at most `k` markers follow. */
  lemma StepsFrom(s: string, p: nat, t: string, k: nat)
    requires Trimmed(s) && Tidy(s) && Clean(s, p) && t == s[p..]
    ensures Iterate(Normalized, t, k) == FixpointOf(t) <==> Markers(s, p) <= k
  {
    MarkersRank(s);
    SuffixAt(s, p);
    IterationTakesRank(Normalized, CleanSuffix(s), FixpointOf, MarkersOf(s), t, k);
  }

  lemma UnmountedFrom(s: string)
    ensures Unmounted(s) == s[Mount(s)..]
    ensures Mount(s) > 0 ==> Mount(s) >= |MARKER| && MarkerHere(s, Mount(s) - |MARKER|)
  {
    if MOUNT_PREFIXES[0] <= s {
      assert s[4..12] == MOUNT_PREFIXES[0][4..12] == MARKER;
    } else if MOUNT_PREFIXES[1] <= s {
      assert s[0..8] == MARKER;
    }
  }

  lemma StrippedIsTrimmed(path: string)
    ensures Trimmed(Strip(Slashes(path)))
  {
    StripShape(Slashes(path));
    StripRightEnds(StripLeft(Slashes(path)));
  }

  lemma {:induction false} StripRightEnds(s: string)
    ensures StripRight(s) != "" ==> !IsSpace(StripRight(s)[|StripRight(s)| - 1])
  {
    if s != "" && IsSpace(s[|s| - 1]) {
      StripRightEnds(s[..|s| - 1]);
    }
  }

  lemma FirstText(s: string) returns (p: nat)
    requires Tidy(s)
    ensures Clean(s, p) && TrimSlashes(AfterMarker(Unmounted(s))) == s[p..]
    ensures Markers(s, p) == if Markers(s, Mount(s)) > 0 then Markers(s, Mount(s)) - 1 else 0
  {
    UnmountedFrom(s);
    AfterMarkerFrom(s, Mount(s));
    var next := NextMarker(s, Mount(s));
    var end := if next.Some? then next.value + |MARKER| else Mount(s);
    p := PastSlashes(s, end);
    TrimmedFrom(s, end);
  }

  /** The first application takes the mount prefix and one marker. */
  lemma FirstApplication(path: string) returns (p: nat)
    requires Tidy(Strip(Slashes(path)))
    ensures
      var s := Strip(Slashes(path));
      && Clean(s, p) && Normalized(path) == s[p..]
      && Markers(s, p) == if Markers(s, Mount(s)) > 0 then Markers(s, Mount(s)) - 1 else 0
  {
    p := FirstText(Strip(Slashes(path)));
  }

  lemma IteratedFrom(path: string, n: string, k: nat)
    requires Normalized(path) == n
    ensures Iterated(path, k + 1) == Iterated(n, k)
  {
    IterateFirst(Normalized, path, k);
  }

  lemma StepsAfterFirst(path: string, s: string, p: nat, k: nat)
    requires Trimmed(s) && Tidy(s) && Clean(s, p) && Normalized(path) == s[p..]
    ensures Iterated(path, k + 1) == Fixpoint(Normalized(path)) <==> Markers(s, p) <= k
  {
    var n := s[p..];
    StepsFrom(s, p, n, k);
    IteratedFrom(path, n, k);
  }

  /** A tidy path is normalised to its fixpoint by `k` applications iff at most `k` markers stand
      behind its mount prefix. */
  lemma ApplicationsNeeded(path: string, k: nat)
    requires Tidy(Strip(Slashes(path))) && k > 0
    ensures
      var s := Strip(Slashes(path));
      Iterated(path, k) == Fixpoint(Normalized(path)) <==> Markers(s, Mount(s)) <= k
  {
    var p := FirstApplication(path);
    StrippedIsTrimmed(path);
    StepsAfterFirst(path, Strip(Slashes(path)), p, k - 1);
  }

  /** The pipeline applies the normalisation three times. */
  lemma TripleApplicationIsFixpoint(path: string)
    requires Tidy(Strip(Slashes(path)))
    ensures
      var s := Strip(Slashes(path));
      Normalized(Normalized(Normalized(path))) == Fixpoint(Normalized(path)) <==> Markers(s, Mount(s)) <= 3
  {
    ApplicationsNeeded(path, 3);
    assert Iterated(path, 0) == path && Iterated(path, 1) == Normalized(path);
    assert Iterated(path, 2) == Normalized(Normalized(path));
  }

  /** Whitespace-free paths are tidy. */
  lemma SpacelessIsTidy(path: string)
    requires Spaceless(path)
    ensures Strip(Slashes(path)) == Slashes(path) && Tidy(Slashes(path))
  {
    var s := Slashes(path);
    forall c | c in s ensures !IsSpace(c) {
      var i :| 0 <= i < |s| && s[i] == c;
      assert path[i] in path;
    }
    StripShape(s);
    assert forall i :: 0 <= i < |s| ==> s[i] in s;
  }

  ghost function Positions(s: string, p: nat): set<nat> {
    set i: nat | p <= i < |s| && MarkerHere(s, i)
  }

  lemma OneMorePosition(s: string, p: nat, i: nat, q: nat)
    requires p <= i < q && MarkerHere(s, i)
    ensures |Positions(s, q)| + 1 <= |Positions(s, p)|
  {
    assert i !in Positions(s, q);
    SubsetSize(Positions(s, q) + {i}, Positions(s, p));
  }

  lemma {:induction false} MarkersAreFew(s: string, p: nat)
    requires p <= |s|
    ensures Markers(s, p) <= |Positions(s, p)|
    decreases |s| - p
  {
    var next := NextMarker(s, p);
    if next.Some? {
      var q := PastSlashes(s, next.value + |MARKER|);
      MarkersAreFew(s, q);
      OneMorePosition(s, p, next.value, q);
    }
  }

  /** Three applications are enough whenever "/target/" occurs at no more than three positions behind
      the mount prefix, overlapping occurrences counted apart. */
  lemma ThreePositionsAreEnough(path: string)
    requires Tidy(Strip(Slashes(path)))
    requires |Positions(Strip(Slashes(path)), Mount(Strip(Slashes(path))))| <= 3
    ensures Normalized(Normalized(Normalized(path))) == Fixpoint(Normalized(path))
  {
    MarkersAreFew(Strip(Slashes(path)), Mount(Strip(Slashes(path))));
    TripleApplicationIsFixpoint(path);
  }

  // ----- paths on which three applications are not enough -----

  /** A path that starts and ends in the ordinary way. */
  predicate Plain(t: string) {
    Trimmed(t) && t != "" && t[0] != '/' && !IsSpace(t[0])
  }

  /** A letter, a marker, and the rest of the path. */
  function Nested(c: char, t: string): string {
    [c] + MARKER + t
  }

  lemma NestedCut(c: char, t: string, blank: bool)
    requires Plain([c]) && Plain(t)
    ensures
      var rest := if blank then " " + t else t;
      Normalized(Nested(c, rest)) == rest && (!blank ==> Plain(Nested(c, t)))
  {
    var rest := if blank then " " + t else t;
    var n := Nested(c, rest);
    assert n[0] == c && n[|n| - 1] == t[|t| - 1];
    assert n[1..1 + |MARKER|] == MARKER && n[1 + |MARKER|..] == rest;
    assert !MarkerHere(n, 0) by {
      assert MARKER[0] == '/' && n[0..|MARKER|][0] == c;
    }
    NestedHasNoBackslash(c, rest);
    NoOuterBlanks(n);
    RemoveFirstMarker(n, 1);
    TrimSlashesSuffix(rest);
  }

  lemma NestedHasNoBackslash(c: char, t: string)
    requires c != '\\' && '\\' !in t
    ensures '\\' !in Nested(c, t)
  {
    assert forall i :: 0 <= i < |MARKER| ==> MARKER[i] != '\\';
  }

  /** A path with four markers: three applications leave one of them. */
  lemma FourMarkersAreTooMany(a: char, b: char, c: char, d: char, e: string)
    requires Plain([a]) && Plain([b]) && Plain([c]) && Plain([d]) && Plain(e)
    ensures
      var path := Nested(a, Nested(b, Nested(c, Nested(d, e))));
      && Normalized(Normalized(Normalized(path))) == Nested(d, e)
      && Normalized(Nested(d, e)) == e
  {
    NestedCut(d, e, false);
    NestedCut(c, Nested(d, e), false);
    NestedCut(b, Nested(c, Nested(d, e)), false);
    NestedCut(a, Nested(b, Nested(c, Nested(d, e))), false);
  }

  lemma BlankCut(t: string)
    requires Plain(t) && !HasMarker(t)
    ensures Normalized(" " + t) == t
  {
    assert (" " + t)[1..] == t;
    NoOuterBlanks(t);
    assert StripLeft(t) == t && Strip(" " + t) == t;
    SlashesFixed(" " + t);
    RelativeUnmounted(t);
    MarkerAtFindsFirst(t);
    TrimSlashesSuffix(t);
  }

  /** With whitespace the eight-character step fails: only the blank goes in the second application. */
  lemma BlankShrinksByOne(a: char, t: string)
    requires Plain([a]) && Plain(t) && !HasMarker(t)
    ensures Normalized(Nested(a, " " + t)) == " " + t && Normalized(" " + t) == t
  {
    NestedCut(a, t, true);
    BlankCut(t);
  }

  /** Slashes and blanks in turn before an ordinary path. */
  function Ladder(k: nat, t: string): string {
    if k == 0 then t else "/ " + Ladder(k - 1, t)
  }

  /** What a rung is put in front of. */
  ghost predicate Rail(l: string) {
    Trimmed(l) && l != "" && !IsSpace(l[0]) && !HasMarker(l)
  }

  lemma NoMarkerOnRung(r: string)
    requires !HasMarker(r)
    ensures !HasMarker("/ " + r)
  {
    var l := "/ " + r;
    assert l[1..][1..] == r;
    forall i | 0 <= i < |l| ensures !MarkerHere(l, i) {
      if i >= 2 {
        MarkerShift(l, i - 1);
        MarkerShift(l[1..], i - 2);
      } else if i + |MARKER| <= |l| {
        assert MARKER[0] == '/' && MARKER[1] == 't';
        assert l[i..i + |MARKER|][1 - i] == ' ';
      }
    }
  }

  lemma RungIsRail(r: string)
    requires Rail(r)
    ensures Rail("/ " + r)
  {
    var l := "/ " + r;
    assert l[|l| - 1] == r[|r| - 1];
    NoMarkerOnRung(r);
  }

  lemma {:induction false} LadderIsRail(k: nat, t: string)
    requires Plain(t) && !HasMarker(t)
    ensures Rail(Ladder(k, t))
  {
    if k > 0 {
      LadderIsRail(k - 1, t);
      RungIsRail(Ladder(k - 1, t));
    }
  }

  lemma StripBlank(l: string, blank: bool)
    requires l != "" && !IsSpace(l[0]) && !IsSpace(l[|l| - 1])
    ensures Strip((if blank then " " else "") + l) == l
  {
    var path := (if blank then " " else "") + l;
    NoOuterBlanks(l);
    assert blank ==> path[1..] == l && StripLeft(path) == StripLeft(l);
    assert !blank ==> path == l;
  }

  lemma RungTail(r: string)
    requires Rail(r)
    ensures TrimSlashes(AfterMarker(Unmounted("/ " + r))) == " " + r
  {
    var l := "/ " + r;
    RungIsRail(r);
    assert MOUNT_PREFIXES[0][1] == 'a' && MOUNT_PREFIXES[1][1] == 't' && l[1] == ' ';
    MarkerAtFindsFirst(l);
    assert l[1..] == " " + r;
  }

  /** An application takes one rung, with or without a blank in front of it. */
  lemma RungCut(r: string, blank: bool)
    requires Rail(r)
    ensures Normalized((if blank then " " else "") + ("/ " + r)) == " " + r
  {
    var l := "/ " + r;
    var path := (if blank then " " else "") + l;
    RungIsRail(r);
    StripBlank(l, blank);
    SlashesFixed(path);
    RungTail(r);
  }

  lemma IterateLast<T>(f: T -> T, x: T, k: nat, y: T)
    requires Iterate(f, x, k) == y
    ensures Iterate(f, x, k + 1) == f(y)
  {
  }

  /** After `j` applications `j` rungs are gone, and a blank is left in front. */
  lemma {:induction false} LadderDown(k: nat, t: string, j: nat)
    requires Plain(t) && !HasMarker(t) && 0 < j <= k
    ensures Iterate(Normalized, Ladder(k, t), j) == " " + Ladder(k - j, t)
    decreases j
  {
    LadderIsRail(k - j, t);
    if j == 1 {
      RungCut(Ladder(k - 1, t), false);
      assert "" + Ladder(k, t) == Ladder(k, t);
      IterateLast(Normalized, Ladder(k, t), 0, Ladder(k, t));
    } else {
      LadderDown(k, t, j - 1);
      RungCut(Ladder(k - j, t), true);
      IterateLast(Normalized, Ladder(k, t), j - 1, " " + Ladder(k - j + 1, t));
    }
  }

  lemma BlankIsNoFixpoint(l: string)
    requires Rail(l)
    ensures Normalized(" " + l) != " " + l
  {
    StripBlank(l, true);
    SlashesFixed(" " + l);
    TailShape(l);
  }

  /** Without tidiness the number of markers bounds nothing: a path without any marker can take any
      number of applications. */
  lemma UntidyPathsTakeLonger(k: nat, t: string)
    requires Plain(t) && !HasMarker(t) && k > 0
    ensures !HasMarker(Ladder(k, t))
    ensures Normalized(Iterated(Ladder(k, t), k)) != Iterated(Ladder(k, t), k)
  {
    LadderIsRail(k, t);
    LadderDown(k, t, k);
    LadderIsRail(0, t);
    BlankIsNoFixpoint(t);
  }

  lemma RemoveFirstMarker(n: string, i: nat)
    requires Relative(n) && Strip(n) == n
    requires MarkerHere(n, i) && forall j :: 0 <= j < i ==> !MarkerHere(n, j)
    ensures Normalized(n) == TrimSlashes(n[i + |MARKER|..])
  {
    NextApplication(n);
    MarkerAtFindsFirst(n);
  }
}

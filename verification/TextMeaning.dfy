/** What the text functions of the model compute, said of single characters. */
module TextMeaning {
  import opened Collections
  import opened Findings
  import opened PolicyMatching
  import opened InlineSuppressions

  predicate AllBlank(s: string) {
    forall c :: c in s ==> IsSpace(c)
  }

  predicate AllSlashes(s: string) {
    forall c :: c in s ==> c == '/'
  }

  /** `t` begins and ends with a character that is not blank, or is empty. */
  predicate NoBlankEnds(t: string) {
    t != "" ==> !IsSpace(t[0]) && !IsSpace(t[|t| - 1])
  }

  lemma {:induction false} StripLeftIs(s: string) returns (before: string)
    ensures s == before + StripLeft(s) && AllBlank(before)
    ensures StripLeft(s) != "" ==> !IsSpace(StripLeft(s)[0])
  {
    before := "";
    if s != "" && IsSpace(s[0]) {
      var tail := StripLeftIs(s[1..]);
      before := [s[0]] + tail;
      assert s == [s[0]] + s[1..];
    }
  }

  lemma {:induction false} StripRightIs(s: string) returns (after: string)
    ensures s == StripRight(s) + after && AllBlank(after)
    ensures StripRight(s) != "" ==> !IsSpace(StripRight(s)[|StripRight(s)| - 1])
  {
    after := "";
    if s != "" && IsSpace(s[|s| - 1]) {
      var head := StripRightIs(s[..|s| - 1]);
      after := head + [s[|s| - 1]];
      assert s == s[..|s| - 1] + [s[|s| - 1]];
    }
  }

  /** Stripping takes the blanks at both ends and nothing else. */
  lemma StripIs(s: string) returns (before: string, after: string)
    ensures s == before + Strip(s) + after && AllBlank(before) && AllBlank(after) && NoBlankEnds(Strip(s))
  {
    before := StripLeftIs(s);
    after := StripRightIs(StripLeft(s));
  }

  lemma {:induction false} TrimSlashesIs(s: string) returns (before: string)
    ensures s == before + TrimSlashes(s) && AllSlashes(before)
    ensures TrimSlashes(s) != "" ==> TrimSlashes(s)[0] != '/'
  {
    before := "";
    if s != "" && s[0] == '/' {
      var tail := TrimSlashesIs(s[1..]);
      before := ['/'] + tail;
      assert s == ['/'] + s[1..];
    }
  }

  lemma {:induction false} TrimTrailingSlashesIs(s: string) returns (after: string)
    ensures s == TrimTrailingSlashes(s) + after && AllSlashes(after)
    ensures
      var t := TrimTrailingSlashes(s);
      t != "" ==> t[|t| - 1] != '/'
  {
    after := "";
    if s != "" && s[|s| - 1] == '/' {
      var head := TrimTrailingSlashesIs(s[..|s| - 1]);
      after := head + ['/'];
      assert s == s[..|s| - 1] + ['/'];
    }
  }

  /** The first marker stands at the end of `head`, or there is none. */
  ghost predicate UpToFirstMarker(head: string, text: string) {
    && (head == "" ==> forall i: nat :: !OccursAt("/target/", text, i))
    && (head != "" ==>
          |head| >= 8 && OccursAt("/target/", text, |head| - 8)
          && forall i: nat :: OccursAt("/target/", text, i) ==> |head| - 8 <= i)
  }

  /** One mount point, then all up to the first marker, then slashes, and the rest. */
  ghost predicate LeavesOf(s: string, mount: string, head: string, slashes: string, r: string) {
    var rest := head + slashes + r;
    && s == mount + rest
    && mount in {"/app/target/", "/target/", ""}
    && (mount == "" ==> !("/app/target/" <= s) && !("/target/" <= s))
    && UpToFirstMarker(head, rest)
    && AllSlashes(slashes) && (r != "" ==> r[0] != '/')
  }

  /** A normalised path is what these leave of a path, written with slashes and without outer blanks. */
  lemma NormalizedIs(path: string)
    returns (before: string, shown: string, after: string, mount: string, head: string, slashes: string)
    ensures Slashes(path) == before + shown + after && AllBlank(before) && AllBlank(after) && NoBlankEnds(shown)
    ensures LeavesOf(shown, mount, head, slashes, Normalized(path))
  {
    before, after := StripIs(Slashes(path));
    shown := Strip(Slashes(path));
    mount, head, slashes := LeavesAre(shown);
  }

  lemma LeavesAre(s: string) returns (mount: string, head: string, slashes: string)
    ensures LeavesOf(s, mount, head, slashes, TrimSlashes(AfterMarker(Unmounted(s))))
  {
    mount := MountIs(s);
    head := HeadIs(Unmounted(s));
    slashes := TrimSlashesIs(AfterMarker(Unmounted(s)));
    Associates(Unmounted(s), head, AfterMarker(Unmounted(s)), slashes, TrimSlashes(AfterMarker(Unmounted(s))));
  }

  lemma Associates(rest: string, head: string, tail: string, slashes: string, r: string)
    requires rest == head + tail && tail == slashes + r
    ensures rest == head + slashes + r
  {
  }

  lemma MountIs(s: string) returns (mount: string)
    ensures s == mount + Unmounted(s) && mount in {"/app/target/", "/target/", ""}
    ensures mount == "" ==> !("/app/target/" <= s) && !("/target/" <= s)
  {
    mount := if "/app/target/" <= s then "/app/target/" else if "/target/" <= s then "/target/" else "";
  }

  lemma HeadIs(s: string) returns (head: string)
    ensures s == head + AfterMarker(s) && UpToFirstMarker(head, s)
  {
    MarkerAtFindsFirst(s);
    assert forall i: nat :: OccursAt("/target/", s, i) <==> MarkerHere(s, i);
    head := if MarkerAt(s).Some? then s[..MarkerAt(s).value + 8] else "";
  }

  // ----- upper and lower case -----

  predicate SameLetter(a: char, b: char) {
    || a == b
    || ('a' <= a <= 'z' && b as int == a as int - 32)
    || ('a' <= b <= 'z' && a as int == b as int - 32)
  }

  predicate SameUpToCase(s: string, t: string) {
    |s| == |t| && forall i :: 0 <= i < |s| ==> SameLetter(s[i], t[i])
  }

  lemma SameUpper(s: string, t: string)
    ensures Upper(s) == Upper(t) <==> SameUpToCase(s, t)
  {
    if Upper(s) == Upper(t) {
      forall i | 0 <= i < |s| ensures SameLetter(s[i], t[i]) {
        assert Upper(s)[i] == Upper(t)[i];
      }
    }
  }

  lemma SameLower(s: string, t: string)
    requires forall i :: 0 <= i < |t| ==> !('A' <= t[i] <= 'Z')
    ensures Lower(s) == t <==> SameUpToCase(s, t)
  {
    if Lower(s) == t {
      forall i | 0 <= i < |s| ensures SameLetter(s[i], t[i]) {
        assert Lower(s)[i] == t[i];
      }
    }
  }

  // ----- parts of a text -----

  predicate OccursAt(part: string, s: string, i: nat) {
    i + |part| <= |s| && s[i..i + |part|] == part
  }

  predicate Occurs(part: string, s: string) {
    exists i :: 0 <= i <= |s| && OccursAt(part, s, i)
  }

  lemma ContainsIff(s: string, part: string)
    ensures Contains(s, part) <==> Occurs(part, s)
  {
    if i :| 0 <= i <= |s| && part <= s[i..] {
      assert OccursAt(part, s, i);
    }
    if i :| 0 <= i <= |s| && OccursAt(part, s, i) {
      assert part <= s[i..];
    }
  }

  lemma EndOccurs(s: string, part: string, c: char)
    requires EndsWith(s, [c] + part)
    ensures Contains(s, part)
  {
    assert s[|s| - |part|..] == s[|s| - |part| - 1..][1..];
    assert part <= s[|s| - |part|..];
  }

  predicate OccursUpToCaseAt(part: string, s: string, i: nat) {
    i + |part| <= |s| && forall j :: 0 <= j < |part| ==> SameLetter(part[j], s[i + j])
  }

  predicate OccursUpToCase(part: string, s: string) {
    exists i :: 0 <= i <= |s| && OccursUpToCaseAt(part, s, i)
  }

  lemma UpperContains(s: string, part: string)
    requires forall i :: 0 <= i < |part| ==> !('a' <= part[i] <= 'z')
    ensures Contains(Upper(s), part) <==> OccursUpToCase(part, s)
  {
    forall i | 0 <= i <= |s| ensures part <= Upper(s)[i..] <==> OccursUpToCaseAt(part, s, i) {
      if part <= Upper(s)[i..] {
        forall j | 0 <= j < |part| ensures SameLetter(part[j], s[i + j]) {
          assert part[j] == Upper(s)[i..][j] == Upper(s)[i + j];
        }
      }
      if OccursUpToCaseAt(part, s, i) {
        forall j | 0 <= j < |part| ensures part[j] == Upper(s)[i..][j] {
          assert SameLetter(part[j], s[i + j]);
        }
      }
    }
  }

  /** `base` is what stands behind the last slash of `path`. */
  predicate IsBase(path: string, base: string) {
    && '/' !in base && |base| <= |path| && path[|path| - |base|..] == base
    && (|base| < |path| ==> path[|path| - |base| - 1] == '/')
  }

  lemma {:induction false} BasenameIs(path: string)
    ensures IsBase(path, Basename(path))
  {
    if path != "" && path[|path| - 1] != '/' {
      BasenameIs(path[..|path| - 1]);
      assert path == path[..|path| - 1] + [path[|path| - 1]];
    }
  }

  lemma OneBase(path: string, base: string)
    requires IsBase(path, base)
    ensures base == Basename(path)
  {
    BasenameIs(path);
  }

  /** The base name is the whole path exactly for a path without a slash. */
  lemma DirectoryIff(path: string)
    ensures Basename(path) != path <==> '/' in path
  {
    BasenameIs(path);
    if '/' !in path {
      assert path[0..] == path;
      OneBase(path, path);
    }
  }

  // ----- numbers -----

  lemma {:induction false} DigitsRead(n: nat)
    ensures DigitsValue(Digits(n)) == n && Digits(n) != ""
    ensures forall c :: c in Digits(n) ==> '0' <= c <= '9'
  {
    var d := [('0' as int + n % 10) as char];
    if n < 10 {
      assert d[..0] == "";
    } else {
      DigitsRead(n / 10);
      assert Digits(n)[..|Digits(n)| - 1] == Digits(n / 10);
    }
  }

  function Read(s: string): int {
    if s != "" && s[0] == '-' then -DigitsValue(s[1..]) else DigitsValue(s)
  }

  /** A number is written in decimal: read back it is the number again. */
  lemma NumberRead(n: int)
    ensures Read(Str(Num(n))) == n
  {
    if n < 0 {
      DigitsRead(-n);
      assert Decimal(n)[1..] == Digits(-n);
    } else {
      DigitsRead(n);
      assert Digits(n)[0] in Digits(n);
    }
  }
}

/**
 * The string operations the handlers apply to object keys and file paths:
 * JavaScript's `indexOf`, `includes`, `replace` with a string pattern,
 * `endsWith`, `slice(-n)` and (ASCII) `toLowerCase`; Python's `str.replace`;
 * and the POSIX `basename`/`extname` of Node's `path` module and of Python's
 * `os.path`.
 */
module Text {

  /** `pat` occurs in `s` starting at index `i`. */
  predicate OccursAt(s: string, pat: string, i: int) {
    0 <= i && i + |pat| <= |s| && s[i..i + |pat|] == pat
  }

  /** JavaScript `s.includes(pat)`. */
  predicate Contains(s: string, pat: string) {
    exists i :: 0 <= i <= |s| && OccursAt(s, pat, i)
  }

  /** `i` is the leftmost position at which `pat` occurs in `s`. */
  predicate FirstOccurrence(s: string, pat: string, i: int) {
    OccursAt(s, pat, i) && forall j :: 0 <= j < i ==> !OccursAt(s, pat, j)
  }

  /** Leftmost occurrence of `pat` in `s` at or after `from`, or -1. */
  function IndexFrom(s: string, pat: string, from: nat): (r: int)
    decreases |s| - from
    ensures r == -1 ==> forall j :: from <= j ==> !OccursAt(s, pat, j)
    ensures r != -1 ==> from <= r && OccursAt(s, pat, r)
    ensures r != -1 ==> forall j :: from <= j < r ==> !OccursAt(s, pat, j)
  {
    if from + |pat| > |s| then -1
    else if s[from..from + |pat|] == pat then from
    else IndexFrom(s, pat, from + 1)
  }

  /** JavaScript `s.indexOf(pat)`. */
  function IndexOf(s: string, pat: string): (r: int)
    ensures r == -1 <==> !Contains(s, pat)
    ensures r != -1 ==> FirstOccurrence(s, pat, r)
  {
    IndexFrom(s, pat, 0)
  }

  /**
   * JavaScript `s.replace(pat, rep)` with a string pattern: only the leftmost
   * occurrence of `pat` is replaced. The replacement is inserted literally:
   * the `$&`, `$1` and `$$` patterns JavaScript interprets are not modelled,
   * which is exact for the handlers' replacements, none of which holds a `$`.
   */
  function ReplaceFirst(s: string, pat: string, rep: string): string {
    var i := IndexOf(s, pat);
    if i == -1 then s else s[..i] + rep + s[i + |pat|..]
  }

  /** Without an occurrence nothing changes; otherwise the leftmost occurrence is the one replaced. */
  lemma ReplaceFirstSpec(s: string, pat: string, rep: string)
    ensures !Contains(s, pat) ==> ReplaceFirst(s, pat, rep) == s
    ensures forall i :: FirstOccurrence(s, pat, i) ==> ReplaceFirst(s, pat, rep) == s[..i] + rep + s[i + |pat|..]
  {
  }

  /** When `pat` does not start anywhere inside `a`, replacing it in `a + pat + b` yields `a + rep + b`. */
  lemma ReplaceFirstAt(a: string, pat: string, b: string, rep: string)
    requires forall j :: 0 <= j < |a| ==> !OccursAt(a + pat + b, pat, j)
    ensures ReplaceFirst(a + pat + b, pat, rep) == a + rep + b
  {
    var s := a + pat + b;
    assert s[|a|..|a| + |pat|] == pat;
    assert FirstOccurrence(s, pat, |a|);
    assert s[..|a|] == a;
    assert s[|a| + |pat|..] == b;
  }

  /**
   * Python `s.replace(pat, rep)`: every non-overlapping occurrence, scanning
   * from the left, is replaced; an empty `pat` inserts `rep` before every
   * character and at the end.
   */
  function ReplaceAll(s: string, pat: string, rep: string): string
    decreases |s|
  {
    if pat == [] then
      if s == [] then rep else rep + [s[0]] + ReplaceAll(s[1..], pat, rep)
    else if |s| < |pat| then s
    else if s[..|pat|] == pat then rep + ReplaceAll(s[|pat|..], pat, rep)
    else [s[0]] + ReplaceAll(s[1..], pat, rep)
  }

  /** A non-empty pattern that does not occur leaves the string unchanged. */
  lemma {:induction false} ReplaceAllAbsent(s: string, pat: string, rep: string)
    requires pat != [] && !Contains(s, pat)
    ensures ReplaceAll(s, pat, rep) == s
    decreases |s|
  {
    if |s| >= |pat| {
      assert !OccursAt(s, pat, 0);
      assert s[..|pat|] != pat;
      forall i | 0 <= i <= |s[1..]| && OccursAt(s[1..], pat, i) ensures false {
        OccursShift(s, pat, i);
      }
      ReplaceAllAbsent(s[1..], pat, rep);
    }
  }

  /** Occurrences in the tail of `s` are the occurrences in `s` shifted by one. */
  lemma OccursShift(s: string, pat: string, j: int)
    requires s != [] && 0 <= j
    ensures OccursAt(s[1..], pat, j) <==> OccursAt(s, pat, j + 1)
  {
    if j + |pat| <= |s[1..]| {
      assert s[1..][j..j + |pat|] == s[j + 1..j + 1 + |pat|];
    }
  }

  /** Unfolding `ReplaceAll` on a string shorter than the pattern. */
  lemma ReplaceAllShort(s: string, pat: string, rep: string)
    requires pat != [] && |s| < |pat|
    ensures ReplaceAll(s, pat, rep) == s
  {
  }

  /** Unfolding `ReplaceAll` where no occurrence starts at index 0. */
  lemma ReplaceAllSkip(s: string, pat: string, rep: string)
    requires pat != [] && |s| >= |pat| && !OccursAt(s, pat, 0)
    ensures ReplaceAll(s, pat, rep) == [s[0]] + ReplaceAll(s[1..], pat, rep)
  {
  }

  /** Dropping the first character of the prefix keeps the prefix free of occurrences. */
  lemma NoOccurrenceTail(a: string, t: string, pat: string)
    requires a != []
    requires forall j :: 0 <= j < |a| ==> !OccursAt(a + t, pat, j)
    ensures (a + t)[1..] == a[1..] + t
    ensures forall j :: 0 <= j < |a[1..]| ==> !OccursAt(a[1..] + t, pat, j)
  {
    assert (a + t)[1..] == a[1..] + t;
    forall j | 0 <= j < |a[1..]| ensures !OccursAt(a[1..] + t, pat, j) {
      OccursShift(a + t, pat, j);
    }
  }

  /** A prefix in which no occurrence of `pat` starts is copied unchanged. */
  lemma {:induction false} ReplaceAllKeepsPrefix(a: string, t: string, pat: string, rep: string)
    requires pat != []
    requires forall j :: 0 <= j < |a| ==> !OccursAt(a + t, pat, j)
    ensures ReplaceAll(a + t, pat, rep) == a + ReplaceAll(t, pat, rep)
    decreases |a|
  {
    if a != [] {
      var s := a + t;
      assert !OccursAt(s, pat, 0);
      if |s| < |pat| {
        ReplaceAllShort(s, pat, rep);
        ReplaceAllShort(t, pat, rep);
      } else {
        var x := ReplaceAll(t, pat, rep);
        NoOccurrenceTail(a, t, pat);
        ReplaceAllKeepsPrefix(a[1..], t, pat, rep);
        ReplaceAllSkip(s, pat, rep);
        assert ReplaceAll(s, pat, rep) == [a[0]] + (a[1..] + x);
        assert [a[0]] + (a[1..] + x) == ([a[0]] + a[1..]) + x;
        assert [a[0]] + a[1..] == a;
      }
    } else {
      assert a + t == t;
    }
  }

  /**
   * With exactly one occurrence of a non-empty pattern, Python's all-occurrence
   * replacement and JavaScript's first-occurrence replacement agree.
   */
  lemma ReplaceAllSingle(a: string, pat: string, b: string, rep: string)
    requires pat != []
    requires forall j :: 0 <= j < |a| ==> !OccursAt(a + pat + b, pat, j)
    requires !Contains(b, pat)
    ensures ReplaceAll(a + pat + b, pat, rep) == a + rep + b
    ensures ReplaceAll(a + pat + b, pat, rep) == ReplaceFirst(a + pat + b, pat, rep)
  {
    var t := pat + b;
    assert a + pat + b == a + t;
    ReplaceAllKeepsPrefix(a, t, pat, rep);
    assert t[|pat|..] == b;
    ReplaceAllHit(t, pat, rep);
    ReplaceAllAbsent(b, pat, rep);
    assert ReplaceAll(t, pat, rep) == rep + b;
    assert a + (rep + b) == a + rep + b;
    ReplaceFirstAt(a, pat, b, rep);
  }

  /** Unfolding `ReplaceAll` where an occurrence starts at index 0. */
  lemma ReplaceAllHit(s: string, pat: string, rep: string)
    requires pat != [] && OccursAt(s, pat, 0)
    ensures ReplaceAll(s, pat, rep) == rep + ReplaceAll(s[|pat|..], pat, rep)
  {
  }

  /** A non-empty pattern on its own is replaced once. */
  lemma ReplaceAllWhole(pat: string, rep: string)
    requires pat != []
    ensures ReplaceAll(pat, pat, rep) == rep
  {
    assert pat[..|pat|] == pat;
    assert pat[|pat|..] == [];
  }

  /** A non-empty pattern repeated twice is replaced twice. */
  lemma ReplaceAllTwice(pat: string, rep: string)
    requires pat != []
    ensures ReplaceAll(pat + pat, pat, rep) == rep + rep
  {
    var s := pat + pat;
    assert s[..|pat|] == pat;
    assert s[|pat|..] == pat;
    ReplaceAllWhole(pat, rep);
  }

  /**
   * `r` is `s` with a copy of `rep` before each character and one at the end:
   * with blocks of `|rep| + 1` characters, block `i` is a copy of `rep`
   * followed by character `i` of `s`, and a last copy ends `r`.
   */
  predicate InterleavedWith(r: string, s: string, rep: string) {
    var k := |rep| + 1;
    && (forall i :: 0 <= i < |s| ==>
          && 0 <= i * k && i * k + k <= |r|
          && r[i * k..i * k + |rep|] == rep && r[i * k + |rep|] == s[i])
    && 0 <= |s| * k <= |r| && r[|s| * k..] == rep
  }

  /** Block `i` of Python's replacement of the empty pattern, starting at `p`: a copy of `rep`, then character `i`. */
  lemma {:induction false} ReplaceAllEmptyAt(s: string, rep: string, i: nat, p: nat)
    requires i < |s| && p == i * (|rep| + 1)
    ensures var r := ReplaceAll(s, [], rep);
      && p + |rep| < |r|
      && r[p..p + |rep|] == rep && r[p + |rep|] == s[i]
    decreases i
  {
    var head := rep + [s[0]];
    var rest := ReplaceAll(s[1..], [], rep);
    assert ReplaceAll(s, [], rep) == head + rest;
    if i > 0 {
      var q := p - |head|;
      assert q == (i - 1) * (|rep| + 1);
      ReplaceAllEmptyAt(s[1..], rep, i - 1, q);
      SliceAfterHead(head, rest, q, |rep|);
    }
  }

  /** Positions past a head are positions of the rest, shifted. */
  lemma SliceAfterHead(head: string, rest: string, q: nat, n: nat)
    requires q + n < |rest|
    ensures (head + rest)[|head| + q..|head| + q + n] == rest[q..q + n]
    ensures (head + rest)[|head| + q + n] == rest[q + n]
  {
  }

  /** The last copy of `rep` in Python's replacement of the empty pattern ends the result. */
  lemma {:induction false} ReplaceAllEmptyEnd(s: string, rep: string)
    ensures var r, k := ReplaceAll(s, [], rep), |rep| + 1;
      0 <= |s| * k <= |r| && r[|s| * k..] == rep
    decreases |s|
  {
    var k := |rep| + 1;
    if s != [] {
      var rest := ReplaceAll(s[1..], [], rep);
      ReplaceAllEmptyEnd(s[1..], rep);
      var m := (|s| - 1) * k;
      assert |s| * k == m + k;
      assert ReplaceAll(s, [], rep) == rep + [s[0]] + rest;
      assert ReplaceAll(s, [], rep)[k + m..] == rest[m..];
    }
  }

  /** Every block of Python's replacement of the empty pattern, and the copy that ends it. */
  lemma ReplaceAllEmptyBlocks(s: string, rep: string)
    ensures InterleavedWith(ReplaceAll(s, [], rep), s, rep)
  {
    var r, k := ReplaceAll(s, [], rep), |rep| + 1;
    forall i | 0 <= i < |s|
      ensures 0 <= i * k && i * k + k <= |r|
      ensures r[i * k..i * k + |rep|] == rep && r[i * k + |rep|] == s[i]
    {
      ReplaceAllEmptyAt(s, rep, i, i * k);
    }
    ReplaceAllEmptyEnd(s, rep);
  }

  /** Python's replacement of the empty pattern puts `rep` before every character and at the end. */
  lemma {:induction false} ReplaceAllEmpty(s: string, rep: string)
    ensures |ReplaceAll(s, [], rep)| == |s| + (|s| + 1) * |rep|
    ensures ReplaceAll(s, [], rep)[..|rep|] == rep
    ensures InterleavedWith(ReplaceAll(s, [], rep), s, rep)
    decreases |s|
  {
    if s != [] {
      ReplaceAllEmpty(s[1..], rep);
    }
    ReplaceAllEmptyBlocks(s, rep);
  }

  /** No occurrence of a pattern that starts with a dot starts inside a dot-free prefix. */
  lemma NoOccurrenceInDotFree(front: string, t: string, pat: string)
    requires '.' !in front && pat != [] && pat[0] == '.'
    ensures forall j :: 0 <= j < |front| ==> !OccursAt(front + t, pat, j)
  {
    forall j | 0 <= j < |front| ensures !OccursAt(front + t, pat, j) {
      assert (front + t)[j] == front[j];
      if j + |pat| <= |front + t| {
        assert (front + t)[j..j + |pat|][0] == (front + t)[j];
      }
    }
  }

  /**
   * `str.replace` and JavaScript's `replace` part ways as soon as the pattern
   * occurs twice: after a dot-free prefix, a dotted pattern repeated twice is
   * replaced twice by the former and once by the latter.
   */
  lemma ReplaceRepeated(front: string, pat: string, rep: string)
    requires '.' !in front && pat != [] && pat[0] == '.'
    ensures ReplaceAll(front + pat + pat, pat, rep) == front + rep + rep
    ensures ReplaceFirst(front + pat + pat, pat, rep) == front + rep + pat
  {
    NoOccurrenceInDotFree(front, pat + pat, pat);
    assert front + pat + pat == front + (pat + pat);
    ReplaceAllKeepsPrefix(front, pat + pat, pat, rep);
    ReplaceAllTwice(pat, rep);
    ReplaceFirstAt(front, pat, pat, rep);
  }

  /** JavaScript `s.endsWith(suffix)`. */
  predicate EndsWith(s: string, suffix: string) {
    |suffix| <= |s| && s[|s| - |suffix|..] == suffix
  }

  /** A mismatch at position `k` of `t`, aligned with the end of `s`, means `s` does not end with `t`. */
  lemma NotEndsWith(s: string, t: string, k: int)
    requires 0 <= k < |t| && (|t| <= |s| ==> s[|s| - |t| + k] != t[k])
    ensures !EndsWith(s, t)
  {
    if |t| <= |s| {
      assert s[|s| - |t|..][k] == s[|s| - |t| + k];
    }
  }

  /** JavaScript `s.slice(-n)` for `n > 0`: the last `n` characters, or all of `s` when shorter. */
  function SliceLast(s: string, n: nat): (r: string)
    ensures |r| == if |s| < n then |s| else n
    ensures EndsWith(s, r)
  {
    if |s| <= n then s else s[|s| - n..]
  }

  predicate IsUpper(c: char) {
    'A' <= c <= 'Z'
  }

  function LowerChar(c: char): char {
    if IsUpper(c) then (c as int + 32) as char else c
  }

  /** `toLowerCase` restricted to the ASCII letters. */
  function Lower(s: string): (r: string)
    ensures |r| == |s|
    ensures forall i :: 0 <= i < |s| ==> r[i] == LowerChar(s[i])
  {
    seq(|s|, i requires 0 <= i < |s| => LowerChar(s[i]))
  }

  /** Index of the last `c` in `s`, or -1. */
  function LastIndexOf(s: string, c: char): (r: int)
    ensures -1 <= r < |s|
    decreases |s|
  {
    if s == [] then -1
    else if s[|s| - 1] == c then |s| - 1
    else LastIndexOf(s[..|s| - 1], c)
  }

  /** A non-negative result is an index of `c`, and no `c` follows it. */
  lemma {:induction false} LastIndexOfSpec(s: string, c: char)
    ensures LastIndexOf(s, c) >= 0 ==> s[LastIndexOf(s, c)] == c
    ensures forall j :: LastIndexOf(s, c) < j < |s| ==> s[j] != c
    decreases |s|
  {
    if s != [] && s[|s| - 1] != c {
      var t := s[..|s| - 1];
      LastIndexOfSpec(t, c);
      forall j | LastIndexOf(t, c) < j < |t| ensures s[j] != c {
        assert s[j] == t[j];
      }
    }
  }

  /** The last path component: everything after the last `/`. */
  function Basename(p: string): string {
    p[LastIndexOf(p, '/') + 1..]
  }

  /** The last component is a slash-free suffix of the path, preceded by a `/` unless it is the whole path. */
  lemma BasenameSpec(p: string)
    ensures EndsWith(p, Basename(p))
    ensures '/' !in Basename(p)
    ensures |Basename(p)| == |p| || p[|p| - |Basename(p)| - 1] == '/'
  {
    LastIndexOfSpec(p, '/');
    SuffixAfter(p, LastIndexOf(p, '/'), '/');
  }

  /** Every character after the last `c` differs from `c`. */
  lemma SuffixAfter(p: string, j: int, c: char)
    requires -1 <= j < |p|
    requires forall k :: j < k < |p| ==> p[k] != c
    ensures c !in p[j + 1..]
  {
    var b := p[j + 1..];
    forall k | 0 <= k < |b| ensures b[k] != c {
      assert b[k] == p[j + 1 + k];
    }
  }

  /**
   * Node's `path.extname` (no trailing `/`): from the last `.` of the last
   * component, unless that `.` is its first character or the component is `..`.
   */
  function Extname(p: string): string {
    var b := Basename(p);
    var j := LastIndexOf(b, '.');
    if j > 0 && b != ".." then b[j..] else []
  }

  /** The extension is a suffix of the last component; a non-empty one is a dot followed by slash- and dot-free text. */
  lemma ExtnameSpec(p: string)
    ensures EndsWith(p, Extname(p)) && EndsWith(Basename(p), Extname(p))
    ensures Extname(p) != [] ==>
      Extname(p)[0] == '.' && '/' !in Extname(p) && '.' !in Extname(p)[1..] && |Extname(p)| < |Basename(p)|
  {
    var b := Basename(p);
    var j := LastIndexOf(b, '.');
    BasenameSpec(p);
    LastIndexOfSpec(b, '.');
    if j > 0 && b != ".." {
      ExtensionOf(p, b, j);
    }
  }

  /**
   * Node's `path.basename(p, ext)`: the last component, without `ext` when it
   * ends with `ext` and is longer than it.
   */
  function BasenameWithout(p: string, ext: string): string {
    var base := Basename(p);
    if EndsWith(base, ext) && |ext| < |base| then base[..|base| - |ext|] else base
  }

  /** Removing `ext` leaves what precedes it in the last component. */
  lemma BasenameWithoutSpec(p: string, ext: string)
    ensures EndsWith(Basename(p), ext) && |ext| < |Basename(p)| ==> BasenameWithout(p, ext) + ext == Basename(p)
    ensures !(EndsWith(Basename(p), ext) && |ext| < |Basename(p)|) ==> BasenameWithout(p, ext) == Basename(p)
  {
    var base := Basename(p);
    if EndsWith(base, ext) && |ext| < |base| {
      assert base[..|base| - |ext|] + base[|base| - |ext|..] == base;
    }
  }

  /** The part of the last component from its last `.` on is a dot-led, slash-free suffix of the path. */
  lemma ExtensionOf(p: string, b: string, j: int)
    requires EndsWith(p, b) && '/' !in b
    requires 0 <= j < |b| && b[j] == '.'
    requires forall k :: j < k < |b| ==> b[k] != '.'
    ensures EndsWith(p, b[j..])
    ensures b[j..][0] == '.' && '/' !in b[j..] && '.' !in b[j..][1..]
  {
    SuffixAfter(b, j, '.');
    assert b[j..][1..] == b[j + 1..];
    assert p[|p| - |b[j..]|..] == b[j..];
    forall k | 0 <= k < |b[j..]| ensures b[j..][k] != '/' {
      assert b[j..][k] == b[j + k];
    }
  }

  /** Some character of `b` before index `j` is not a dot. */
  predicate NonDotBefore(b: string, j: int)
    requires j <= |b|
  {
    exists i :: 0 <= i < j && b[i] != '.'
  }

  /**
   * The extension part of Python's `os.path.splitext`: from the last `.` of the
   * last component, provided a non-dot character precedes it there.
   */
  function SplitextExt(p: string): string {
    var b := Basename(p);
    var j := LastIndexOf(b, '.');
    if j >= 0 && NonDotBefore(b, j) then b[j..] else []
  }

  /** The extension is a suffix of the path; a non-empty one is a dot followed by slash- and dot-free text. */
  lemma SplitextExtSpec(p: string)
    ensures EndsWith(p, SplitextExt(p))
    ensures SplitextExt(p) != [] ==> SplitextExt(p)[0] == '.' && '/' !in SplitextExt(p) && '.' !in SplitextExt(p)[1..]
  {
    var b := Basename(p);
    var j := LastIndexOf(b, '.');
    BasenameSpec(p);
    LastIndexOfSpec(b, '.');
    if j >= 0 && NonDotBefore(b, j) {
      ExtensionOf(p, b, j);
    }
  }

  /** The last `c` of `s` is at `i`. */
  lemma LastIndexAt(s: string, c: char, i: int)
    requires 0 <= i < |s| && s[i] == c
    requires forall k :: i < k < |s| ==> s[k] != c
    ensures LastIndexOf(s, c) == i
  {
    LastIndexOfSpec(s, c);
  }

  /** Without a slash among the last `m` characters, these are part of the last component. */
  lemma LongBasename(p: string, m: nat)
    requires m <= |p|
    requires forall k :: |p| - m <= k < |p| ==> p[k] != '/'
    ensures |Basename(p)| >= m && Basename(p) == p[|p| - |Basename(p)|..]
  {
    var slash := LastIndexOf(p, '/');
    LastIndexOfSpec(p, '/');
    assert slash < |p| - m;
  }

  /**
   * A path ending in a dot and `n` characters that are neither dots nor
   * slashes, after a character that is neither: Node's and Python's
   * extension are that dot and what follows it.
   */
  lemma ExtensionAtEnd(p: string, n: nat)
    requires 1 <= n && n + 2 <= |p|
    requires p[|p| - n - 1] == '.' && p[|p| - n - 2] != '/' && p[|p| - n - 2] != '.'
    requires forall k :: |p| - n <= k < |p| ==> p[k] != '/' && p[k] != '.'
    ensures Extname(p) == p[|p| - n - 1..] && SplitextExt(p) == p[|p| - n - 1..]
  {
    LongBasename(p, n + 2);
    var b := Basename(p);
    var j := |b| - n - 1;
    assert b[j] == p[|p| - n - 1];
    assert b[j - 1] == p[|p| - n - 2];
    assert b[|b| - 1] == p[|p| - 1];
    forall k | j < k < |b| ensures b[k] != '.' {
      assert b[k] == p[|p| - |b| + k];
    }
    LastIndexAt(b, '.', j);
    assert NonDotBefore(b, j);
    assert b[j..] == p[|p| - n - 1..];
  }

  /** The extension of `front.ext`, for a slash- and dot-free `ext` and a `front` ending in neither. */
  lemma ExtensionOfName(front: string, ext: string)
    requires '/' !in ext && '.' !in ext && ext != []
    requires front != [] && front[|front| - 1] != '/' && front[|front| - 1] != '.'
    ensures Extname(front + "." + ext) == "." + ext && SplitextExt(front + "." + ext) == "." + ext
  {
    var p := front + "." + ext;
    var i := |front|;
    assert p[i - 1] == front[i - 1];
    forall k | i < k < |p| ensures p[k] != '/' && p[k] != '.' {
      assert p[k] == ext[k - i - 1];
    }
    ExtensionAtEnd(p, |ext|);
    assert p[i..] == "." + ext;
  }
}

/**
 * The few pieces of Python's `str` that the detector relies on, with Python's
 * semantics: `startswith`, `in`, `replace`, `split`, `strip`, and `str()` of a
 * non-negative integer. Every other module builds on these.
 */
module Text {
  import opened Wrappers

  /** Python's `s.startswith(p)`. */
  predicate StartsWith(s: string, p: string) {
    |p| <= |s| && s[..|p|] == p
  }

  /** A text starts with whatever is put in front of it. */
  lemma StartsWithAppend(p: string, q: string)
    ensures StartsWith(p + q, p)
  {
    assert (p + q)[..|p|] == p;
  }

  /** `p` occurs in `s` starting at position `i`. */
  predicate OccursAt(s: string, p: string, i: int) {
    0 <= i && i + |p| <= |s| && s[i..i + |p|] == p
  }

  /** Python's `p in s`. */
  predicate Contains(s: string, p: string) {
    exists i :: 0 <= i <= |s| && OccursAt(s, p, i)
  }

  /** An occurrence inside a window of `s` is an occurrence in `s`. */
  lemma OccursFromWindow(s: string, a: nat, b: nat, p: string, i: int)
    requires a <= b <= |s| && OccursAt(s[a..b], p, i)
    ensures OccursAt(s, p, a + i)
  {
    var w := s[a..b];
    forall k | 0 <= k < |p| ensures s[a + i + k] == p[k] {
      assert w[i..i + |p|][k] == p[k];
    }
  }

  /** An occurrence in `s` that lies inside a window is an occurrence in the window. */
  lemma OccursInWindow(s: string, a: nat, b: nat, p: string, i: int)
    requires a <= i && i + |p| <= b <= |s| && OccursAt(s, p, i)
    ensures OccursAt(s[a..b], p, i - a)
  {
    var w := s[a..b];
    forall k | 0 <= k < |p| ensures w[i - a + k] == p[k] {
      assert s[i..i + |p|][k] == p[k];
    }
  }

  /** A window of `s` never holds a pattern that `s` does not hold. */
  lemma WindowKeepsAbsent(s: string, a: nat, b: nat, p: string)
    requires a <= b <= |s|
    requires !Contains(s, p)
    ensures !Contains(s[a..b], p)
  {
    if Contains(s[a..b], p) {
      var i :| 0 <= i <= b - a && OccursAt(s[a..b], p, i);
      OccursFromWindow(s, a, b, p, i);
    }
  }

  /** A character that is absent is absent as a one-character pattern. */
  lemma AbsentCharNotContained(s: string, c: char)
    requires c !in s
    ensures !Contains(s, [c])
  {
    forall i | 0 <= i <= |s| ensures !OccursAt(s, [c], i) {
      if i + 1 <= |s| {
        assert s[i..i + 1][0] == s[i];
      }
    }
  }

  /** A string that lacks `p` lacks every pattern that starts with `p`. */
  lemma AbsentPrefixPattern(s: string, p: string, q: string)
    requires !Contains(s, p)
    ensures !Contains(s, p + q)
  {
    forall i | 0 <= i <= |s| ensures !OccursAt(s, p + q, i) {
      if i + |p| + |q| <= |s| {
        assert !OccursAt(s, p, i);
        assert s[i..i + |p + q|][..|p|] == s[i..i + |p|];
      }
    }
  }

  // ---------------------------------------------------------------------------
  // str.replace

  /**
   * Python's `s.replace(pat, rep)` for a non-empty pattern: occurrences are
   * found from the left and do not overlap.
   */
  function ReplaceAll(s: string, pat: string, rep: string): string
    requires |pat| > 0
    decreases |s|
  {
    if |s| < |pat| then s
    else if s[..|pat|] == pat then rep + ReplaceAll(s[|pat|..], pat, rep)
    else [s[0]] + ReplaceAll(s[1..], pat, rep)
  }

  /** Replacing a pattern that does not occur leaves the string as it is. */
  lemma {:induction false} ReplaceAllAbsent(s: string, pat: string, rep: string)
    requires |pat| > 0 && !Contains(s, pat)
    ensures ReplaceAll(s, pat, rep) == s
    decreases |s|
  {
    if |s| >= |pat| {
      assert !OccursAt(s, pat, 0);
      WindowKeepsAbsent(s, 1, |s|, pat);
      assert s[1..|s|] == s[1..];
      ReplaceAllAbsent(s[1..], pat, rep);
    }
  }

  /** A pattern at the front is replaced and the scan resumes after it. */
  lemma ReplaceAllAtHead(pat: string, t: string, rep: string)
    requires |pat| > 0
    ensures ReplaceAll(pat + t, pat, rep) == rep + ReplaceAll(t, pat, rep)
  {
    assert (pat + t)[..|pat|] == pat;
    assert (pat + t)[|pat|..] == t;
  }

  /** A prefix without the pattern's first character passes through unchanged. */
  lemma {:induction false} ReplaceAllSkipsPrefix(x: string, t: string, pat: string, rep: string)
    requires |pat| > 0 && pat[0] !in x
    ensures ReplaceAll(x + t, pat, rep) == x + ReplaceAll(t, pat, rep)
    decreases |x|
  {
    if |x| > 0 {
      var s := x + t;
      if |s| < |pat| {
        assert ReplaceAll(t, pat, rep) == t;
      } else {
        assert s[..|pat|][0] == x[0];
        assert s[1..] == x[1..] + t;
        ReplaceAllSkipsPrefix(x[1..], t, pat, rep);
        assert x == [x[0]] + x[1..];
      }
    } else {
      assert x + t == t;
    }
  }

  /** Deleting every occurrence of a one-character pattern leaves none of that character. */
  lemma {:induction false} DeleteCharComplete(s: string, c: char)
    ensures c !in ReplaceAll(s, [c], "")
    decreases |s|
  {
    if |s| >= 1 {
      DeleteCharComplete(s[1..], c);
    }
  }

  /** Deleting occurrences of a pattern introduces no character that was not there. */
  lemma {:induction false} DeleteKeepsAbsentChar(s: string, pat: string, c: char)
    requires |pat| > 0 && c !in s
    ensures c !in ReplaceAll(s, pat, "")
    decreases |s|
  {
    if |s| >= |pat| {
      if s[..|pat|] == pat {
        DeleteKeepsAbsentChar(s[|pat|..], pat, c);
      } else {
        DeleteKeepsAbsentChar(s[1..], pat, c);
      }
    }
  }

  /** When `s` does not start with the pattern's first character, neither does the result of a deletion. */
  lemma DeleteKeepsHead(s: string, pat: string)
    requires |pat| > 0 && |s| > 0 && s[0] != pat[0]
    ensures |ReplaceAll(s, pat, "")| > 0 && ReplaceAll(s, pat, "")[0] == s[0]
  {
  }

  /** The code-fence marker that model replies wrap around their JSON. */
  const Fence: string := "```"

  /** One character in front of a fence-free string leaves it fence-free unless it completes a fence. */
  lemma ConsKeepsFenceFree(x: char, t: string)
    requires !Contains(t, Fence)
    requires !(x == '`' && StartsWith(t, "``"))
    ensures !Contains([x] + t, Fence)
  {
    var u := [x] + t;
    forall i | 0 <= i <= |u| ensures !OccursAt(u, Fence, i) {
      if i == 0 && |u| >= 3 {
        if x == '`' {
          assert t[..2] != "``";
          assert t[0] != '`' || t[1] != '`';
        }
        assert u[..3][0] != '`' || u[..3][1] != '`' || u[..3][2] != '`';
      } else if i > 0 && i + 3 <= |u| {
        assert u[i..i + 3] == t[i - 1..i + 2];
        assert !OccursAt(t, Fence, i - 1);
      }
    }
  }

  /**
   * Deleting every fence leaves no fence behind: the left-to-right scan never
   * stops on a backtick that could join the backticks after a deleted fence.
   */
  lemma {:induction false} DeleteFenceComplete(s: string)
    ensures !Contains(ReplaceAll(s, Fence, ""), Fence)
    decreases |s|
  {
    var r := ReplaceAll(s, Fence, "");
    if |s| < 3 {
      assert r == s;
    } else if s[..3] == Fence {
      DeleteFenceComplete(s[3..]);
      assert r == ReplaceAll(s[3..], Fence, "");
    } else {
      var t := ReplaceAll(s[1..], Fence, "");
      assert r == [s[0]] + t;
      DeleteFenceComplete(s[1..]);
      if s[0] == '`' {
        if s[1] != '`' {
          DeleteKeepsHead(s[1..], Fence);
        } else {
          assert s[2] != '`';
          if |s| - 1 < 3 {
            assert t == s[1..];
          } else {
            assert s[1..][..3] != Fence;
            assert t == [s[1]] + ReplaceAll(s[2..], Fence, "");
            DeleteKeepsHead(s[2..], Fence);
          }
          assert t[1] == s[2];
        }
      }
      ConsKeepsFenceFree(s[0], t);
    }
  }

  // ---------------------------------------------------------------------------
  // str.strip

  /** Python's `c.isspace()`. */
  predicate IsSpace(c: char) {
    var k := c as int;
    (9 <= k <= 13) || (28 <= k <= 32) || k == 0x85 || k == 0xA0 || k == 0x1680
    || (0x2000 <= k <= 0x200A) || k == 0x2028 || k == 0x2029 || k == 0x202F
    || k == 0x205F || k == 0x3000
  }

  /** Python's `s.lstrip()`: the longest suffix of `s` that does not start with whitespace. */
  function TrimStart(s: string): (r: string)
    ensures |r| <= |s| && r == s[|s| - |r|..]
    ensures forall k :: 0 <= k < |s| - |r| ==> IsSpace(s[k])
    ensures |r| > 0 ==> !IsSpace(r[0])
    decreases |s|
  {
    if |s| > 0 && IsSpace(s[0]) then TrimStart(s[1..]) else s
  }

  /** Python's `s.rstrip()`: the longest prefix of `s` that does not end with whitespace. */
  function TrimEnd(s: string): (r: string)
    ensures |r| <= |s| && r == s[..|r|]
    ensures forall k :: |r| <= k < |s| ==> IsSpace(s[k])
    ensures |r| > 0 ==> !IsSpace(r[|r| - 1])
    decreases |s|
  {
    if |s| > 0 && IsSpace(s[|s| - 1]) then TrimEnd(s[..|s| - 1]) else s
  }

  /**
   * Python's `s.strip()`: the window of `s` left once the whitespace at both
   * ends is cut off. The window starts where `TrimStart` stops, everything
   * outside it is whitespace, and it neither starts nor ends with whitespace.
   */
  function Strip(s: string): (r: string)
    ensures |r| > 0 ==> !IsSpace(r[0]) && !IsSpace(r[|r| - 1])
    ensures |r| <= |s|
    ensures var a := |s| - |TrimStart(s)|;
      a + |r| <= |s| && r == s[a..a + |r|] &&
      (forall k :: 0 <= k < a ==> IsSpace(s[k])) &&
      (forall k :: a + |r| <= k < |s| ==> IsSpace(s[k]))
  {
    var t := TrimStart(s);
    var r := TrimEnd(t);
    WindowOfSuffix(s, t, r);
    r
  }

  /** A whitespace-trimmed end of a suffix of `s` is a window of `s` with whitespace after it. */
  lemma WindowOfSuffix(s: string, t: string, r: string)
    requires |t| <= |s| && t == s[|s| - |t|..]
    requires |r| <= |t| && r == t[..|r|]
    requires forall k :: |r| <= k < |t| ==> IsSpace(t[k])
    ensures var a := |s| - |t|;
      r == s[a..a + |r|] && forall k :: a + |r| <= k < |s| ==> IsSpace(s[k])
  {
    var a := |s| - |t|;
    forall k | a + |r| <= k < |s| ensures IsSpace(s[k]) {
      assert s[k] == t[k - a];
    }
  }

  /** Stripping changes nothing on a string with no whitespace at either end. */
  lemma StripTrimmed(s: string)
    requires |s| > 0 ==> !IsSpace(s[0]) && !IsSpace(s[|s| - 1])
    ensures Strip(s) == s
  {
  }

  /** Stripping keeps a window of its input, so it keeps absent characters and patterns absent. */
  lemma StripKeepsAbsent(s: string, p: string, c: char)
    ensures !Contains(s, p) ==> !Contains(Strip(s), p)
    ensures c !in s ==> c !in Strip(s)
  {
    var r := Strip(s);
    var a := |s| - |TrimStart(s)|;
    assert a + |r| <= |s| && r == s[a..a + |r|];
    if !Contains(s, p) {
      WindowKeepsAbsent(s, a, a + |r|, p);
    }
    if c in r {
      var k :| 0 <= k < |r| && r[k] == c;
      assert s[a + k] == c;
    }
  }

  // ---------------------------------------------------------------------------
  // str.split

  /** Python's `s.split(sep)` for a non-empty separator. */
  function Split(s: string, sep: string): (r: seq<string>)
    requires |sep| > 0
    ensures |r| > 0
    decreases |s|
  {
    if |s| < |sep| then [s]
    else if s[..|sep|] == sep then [""] + Split(s[|sep|..], sep)
    else
      var rest := Split(s[1..], sep);
      [[s[0]] + rest[0]] + rest[1..]
  }

  /** Python's `s.split(sep)[-1]`. */
  function LastPiece(s: string, sep: string): string
    requires |sep| > 0
  {
    var pieces := Split(s, sep);
    pieces[|pieces| - 1]
  }

  /** Occurrences past the first character are the occurrences in the tail. */
  lemma OccursShift(s: string, p: string, j: int)
    requires |s| > 0 && j >= 1
    ensures OccursAt(s, p, j) <==> OccursAt(s[1..], p, j - 1)
  {
    assert s[1..] == s[1..|s|];
    if OccursAt(s, p, j) {
      OccursInWindow(s, 1, |s|, p, j);
    }
    if OccursAt(s[1..], p, j - 1) {
      OccursFromWindow(s, 1, |s|, p, j - 1);
    }
  }

  /** A text whose own head is not `p` and whose tail lacks `p` lacks `p`. */
  lemma ShiftAbsent(s: string, p: string)
    requires |p| > 0 && |s| >= |p| && s[..|p|] != p && !Contains(s[1..], p)
    ensures !Contains(s, p)
  {
    forall j | 0 <= j <= |s| ensures !OccursAt(s, p, j) {
      if j >= 1 {
        OccursShift(s, p, j);
      }
    }
  }

  /** The first piece of a split is a prefix of the string split. */
  lemma {:induction false} SplitHeadPrefix(s: string, sep: string)
    requires |sep| > 0
    ensures StartsWith(s, Split(s, sep)[0])
    decreases |s|
  {
    if |s| >= |sep| && s[..|sep|] != sep {
      var rest := Split(s[1..], sep);
      SplitHeadPrefix(s[1..], sep);
      assert ([s[0]] + rest[0]) == s[..|rest[0]| + 1];
    }
  }

  /** No piece of a split holds the separator: every occurrence was cut out. */
  lemma {:induction false} SplitPiecesFree(s: string, sep: string)
    requires |sep| > 0
    ensures forall k :: 0 <= k < |Split(s, sep)| ==> !Contains(Split(s, sep)[k], sep)
    decreases |s|
  {
    var r := Split(s, sep);
    if |s| < |sep| {
      assert r == [s];
    } else if s[..|sep|] == sep {
      var rest := Split(s[|sep|..], sep);
      assert r == [""] + rest;
      SplitPiecesFree(s[|sep|..], sep);
      assert forall k :: 1 <= k < |r| ==> r[k] == rest[k - 1];
    } else {
      var rest := Split(s[1..], sep);
      var head := [s[0]] + rest[0];
      assert r == [head] + rest[1..];
      SplitPiecesFree(s[1..], sep);
      SplitHeadPrefix(s[1..], sep);
      assert head == s[..|head|];
      if |head| < |sep| {
      } else {
        assert head[..|sep|] == s[..|sep|];
        assert head[1..] == rest[0];
        ShiftAbsent(head, sep);
      }
      assert forall k :: 1 <= k < |r| ==> r[k] == rest[k];
    }
  }

  /** Python's `s.find(p)`, with `None` for `-1`. */
  function Find(s: string, p: string): (r: Option<nat>)
    requires |p| > 0
    ensures r.Some? ==> OccursAt(s, p, r.value)
    ensures r.Some? ==> forall j :: 0 <= j < r.value ==> !OccursAt(s, p, j)
    ensures r.None? ==> !Contains(s, p)
    decreases |s|
  {
    if |s| < |p| then None
    else if s[..|p|] == p then Some(0)
    else
      match Find(s[1..], p)
      case None => ShiftAbsent(s, p); None
      case Some(i) => ShiftFirst(s, p, i); Some(i + 1)
  }

  lemma ShiftFirst(s: string, p: string, i: nat)
    requires |p| > 0 && |s| >= |p| && s[..|p|] != p
    requires OccursAt(s[1..], p, i) && forall j :: 0 <= j < i ==> !OccursAt(s[1..], p, j)
    ensures OccursAt(s, p, i + 1) && forall j :: 0 <= j < i + 1 ==> !OccursAt(s, p, j)
  {
    OccursShift(s, p, i + 1);
    forall j | 0 <= j < i + 1 ensures !OccursAt(s, p, j) {
      if j >= 1 {
        OccursShift(s, p, j);
      }
    }
  }

  /** Without an occurrence of the separator, the split leaves the string whole. */
  lemma {:induction false} SplitAbsent(s: string, sep: string)
    requires |sep| > 0 && !Contains(s, sep)
    ensures Split(s, sep) == [s]
    decreases |s|
  {
    if |s| >= |sep| {
      assert !OccursAt(s, sep, 0);
      WindowKeepsAbsent(s, 1, |s|, sep);
      assert s[1..|s|] == s[1..];
      SplitAbsent(s[1..], sep);
      assert Split(s, sep) == [[s[0]] + Split(s[1..], sep)[0]] + Split(s[1..], sep)[1..];
      assert s == [s[0]] + s[1..];
    }
  }

  /**
   * Python's split is leftmost and non-overlapping: the first piece runs up
   * to the first occurrence of the separator, and the rest is the split of
   * what follows that occurrence.
   */
  lemma {:induction false} SplitAtFind(s: string, sep: string)
    requires |sep| > 0
    ensures Find(s, sep).None? ==> Split(s, sep) == [s]
    ensures Find(s, sep).Some? ==> var i := Find(s, sep).value;
      i + |sep| <= |s| && Split(s, sep) == [s[..i]] + Split(s[i + |sep|..], sep)
    decreases |s|
  {
    if Find(s, sep).None? {
      SplitAbsent(s, sep);
    } else if s[..|sep|] != sep {
      var i := Find(s[1..], sep).value;
      assert Find(s, sep) == Some(i + 1);
      SplitAtFind(s[1..], sep);
      SplitPastHead(s, sep, i);
    } else {
      assert s[..0] == [];
    }
  }

  /** The first character followed by the next `n - 1` is the prefix of length `n`. */
  lemma HeadThenSlice(s: string, n: nat)
    requires 0 < n <= |s|
    ensures [s[0]] + s[1..][..n - 1] == s[..n]
  {
    forall k | 0 <= k < n ensures ([s[0]] + s[1..][..n - 1])[k] == s[k] {
    }
  }

  /** The step of `SplitAtFind` past a first character that does not open the separator. */
  lemma SplitPastHead(s: string, sep: string, i: nat)
    requires |sep| > 0 && |s| >= |sep| && s[..|sep|] != sep
    requires i + |sep| <= |s| - 1
    requires Split(s[1..], sep) == [s[1..][..i]] + Split(s[1..][i + |sep|..], sep)
    ensures Split(s, sep) == [s[..i + 1]] + Split(s[i + 1 + |sep|..], sep)
  {
    var rest := Split(s[1..], sep);
    var tail := s[i + 1 + |sep|..];
    assert Split(s, sep) == [[s[0]] + rest[0]] + rest[1..];
    assert [s[0]] + rest[0] == s[..i + 1] by {
      assert rest[0] == s[1..][..i];
      HeadThenSlice(s, i + 1);
    }
    assert rest[1..] == Split(tail, sep) by {
      assert s[1..][i + |sep|..] == tail;
    }
  }

  /** Python's `sep.join(parts)`. */
  function Join(parts: seq<string>, sep: string): string
    decreases |parts|
  {
    if |parts| == 0 then ""
    else if |parts| == 1 then parts[0]
    else parts[0] + sep + Join(parts[1..], sep)
  }

  lemma JoinCons(a: string, rest: seq<string>, sep: string)
    requires |rest| > 0
    ensures Join([a] + rest, sep) == a + sep + Join(rest, sep)
  {
    assert ([a] + rest)[1..] == rest;
  }

  lemma JoinExtendHead(c: char, parts: seq<string>, sep: string)
    requires |parts| > 0
    ensures Join([[c] + parts[0]] + parts[1..], sep) == [c] + Join(parts, sep)
  {
    if |parts| > 1 {
      JoinCons([c] + parts[0], parts[1..], sep);
      assert parts == [parts[0]] + parts[1..];
      JoinCons(parts[0], parts[1..], sep);
    }
  }

  /** Splitting loses nothing: joining the pieces with the separator gives the string back. */
  lemma {:induction false} SplitJoin(s: string, sep: string)
    requires |sep| > 0
    ensures Join(Split(s, sep), sep) == s
    decreases |s|
  {
    if |s| < |sep| {
    } else if s[..|sep|] == sep {
      var rest := Split(s[|sep|..], sep);
      assert Split(s, sep) == [""] + rest;
      SplitJoin(s[|sep|..], sep);
      JoinCons("", rest, sep);
      assert s == sep + s[|sep|..];
    } else {
      var rest := Split(s[1..], sep);
      assert Split(s, sep) == [[s[0]] + rest[0]] + rest[1..];
      SplitJoin(s[1..], sep);
      JoinExtendHead(s[0], rest, sep);
      assert s == [s[0]] + s[1..];
    }
  }

  /** `s.replace(pat, rep) == rep.join(s.split(pat))`: replacing is splitting, then joining with the replacement. */
  lemma {:induction false} ReplaceAllIsJoinSplit(s: string, pat: string, rep: string)
    requires |pat| > 0
    ensures ReplaceAll(s, pat, rep) == Join(Split(s, pat), rep)
    decreases |s|
  {
    if |s| < |pat| {
    } else if s[..|pat|] == pat {
      var rest := Split(s[|pat|..], pat);
      assert Split(s, pat) == [""] + rest;
      ReplaceAllIsJoinSplit(s[|pat|..], pat, rep);
      JoinCons("", rest, rep);
    } else {
      var rest := Split(s[1..], pat);
      assert Split(s, pat) == [[s[0]] + rest[0]] + rest[1..];
      ReplaceAllIsJoinSplit(s[1..], pat, rep);
      JoinExtendHead(s[0], rest, rep);
    }
  }

  /** The first piece of a split on a single character is the text before that character's first occurrence. */
  lemma {:induction false} SplitCharHead(h: string, rest: string, c: char)
    requires c !in h
    requires rest == [] || rest[0] == c
    ensures Split(h + rest, [c])[0] == h
    decreases |h|
  {
    if |h| > 0 {
      SplitCharHead(h[1..], rest, c);
      assert (h + rest)[1..] == h[1..] + rest;
      assert h == [h[0]] + h[1..];
    } else {
      assert h + rest == rest;
    }
  }

  /** The first piece of a split on a single character never holds that character. */
  lemma {:induction false} SplitCharHeadFree(s: string, c: char)
    ensures c !in Split(s, [c])[0]
    decreases |s|
  {
    if |s| >= 1 && s[..1] != [c] {
      SplitCharHeadFree(s[1..], c);
    }
  }

  // ---------------------------------------------------------------------------
  // str() of a non-negative int

  function DigitChar(d: nat): (c: char)
    requires d < 10
    ensures '0' <= c <= '9' && c as int - '0' as int == d
  {
    (('0' as int) + d) as char
  }

  predicate AllDigits(s: string) {
    forall k :: 0 <= k < |s| ==> '0' <= s[k] <= '9'
  }

  /** Python's `str(n)` (and `f"{n}"`) for `n >= 0`: decimal digits, no leading zero. */
  function NatToString(n: nat): (r: string)
    ensures |r| > 0 && AllDigits(r)
    ensures |r| > 1 ==> r[0] != '0'
    decreases n
  {
    if n < 10 then [DigitChar(n)] else NatToString(n / 10) + [DigitChar(n % 10)]
  }

  /** Python's `int(s)` on a string of decimal digits. */
  function ParseNat(s: string): nat
    requires AllDigits(s)
    decreases |s|
  {
    if |s| == 0 then 0 else ParseNat(s[..|s| - 1]) * 10 + (s[|s| - 1] as int - '0' as int)
  }

  /** Reading back the decimal text of `n` gives `n`. */
  lemma {:induction false} ParseNatToString(n: nat)
    ensures ParseNat(NatToString(n)) == n
    decreases n
  {
    var s := NatToString(n);
    if n >= 10 {
      ParseNatToString(n / 10);
      assert s[..|s| - 1] == NatToString(n / 10);
    }
  }

  /** Different numbers have different decimal texts. */
  lemma NatToStringInjective(a: nat, b: nat)
    requires NatToString(a) == NatToString(b)
    ensures a == b
  {
    ParseNatToString(a);
    ParseNatToString(b);
  }
}

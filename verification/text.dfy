/**
 The string operations the catalog fetch relies on, in Python's semantics:
 `str.strip()` with no argument, `str.split(sep)` with a one-character
 separator, and the substring test `target in line`.
 */
module Text {

  /** Python's `str.isspace()` characters: the ones `str.strip()` removes. */
  predicate IsSpace(c: char)
  {
    || c == ' ' || c == '\t' || c == '\n' || c == '\r'
    || c == '\U{000B}' || c == '\U{000C}'
    || ('\U{001C}' <= c <= '\U{001F}')
    || c == '\U{0085}' || c == '\U{00A0}' || c == '\U{1680}'
    || ('\U{2000}' <= c <= '\U{200A}')
    || c == '\U{2028}' || c == '\U{2029}' || c == '\U{202F}' || c == '\U{205F}' || c == '\U{3000}'
  }

  predicate AllSpace(s: string)
  {
    forall k :: 0 <= k < |s| ==> IsSpace(s[k])
  }

  /** Neither end of `s` is whitespace. */
  predicate Trimmed(s: string)
  {
    |s| == 0 || (!IsSpace(s[0]) && !IsSpace(s[|s| - 1]))
  }

  /** `s.lstrip()`: the longest suffix of `s` that does not start with whitespace. */
  function StripLeft(s: string): (r: string)
    ensures |r| <= |s| && r == s[|s| - |r|..]
    ensures AllSpace(s[..|s| - |r|])
    ensures |r| == 0 || !IsSpace(r[0])
    decreases |s|
  {
    if |s| > 0 && IsSpace(s[0]) then
      var r := StripLeft(s[1..]);
      var n := |s| - |r|;
      assert s[1..][n - 1..] == s[n..];
      assert forall k :: 1 <= k < n ==> s[..n][k] == s[1..][..n - 1][k - 1];
      r
    else s
  }

  /** `s.rstrip()`: the longest prefix of `s` that does not end with whitespace. */
  function StripRight(s: string): (r: string)
    ensures |r| <= |s| && r == s[..|r|]
    ensures AllSpace(s[|r|..])
    ensures |r| == 0 || !IsSpace(r[|r| - 1])
    decreases |s|
  {
    if |s| > 0 && IsSpace(s[|s| - 1]) then StripRight(s[..|s| - 1]) else s
  }

  /** `s.strip()`: `s` without its leading and trailing whitespace. */
  function Strip(s: string): (r: string)
    ensures Trimmed(r)
    ensures exists a :: IsCoreOf(s, a, r)
  {
    var left := StripLeft(s);
    var r := StripRight(left);
    var a := |s| - |left|;
    assert left == s[a..];
    assert s[a..a + |r|] == r;
    assert s[a + |r|..] == left[|r|..];
    assert AllSpace(s[..a]) && AllSpace(s[a + |r|..]);
    assert |r| > 0 ==> r[0] == left[0];
    assert IsCoreOf(s, a, r);
    r
  }

  /** `r` sits at offset `a` in `s`, has no whitespace at either end, and
      everything of `s` around it is whitespace. */
  ghost predicate IsCoreOf(s: string, a: int, r: string)
  {
    && 0 <= a <= |s| - |r|
    && s[a..a + |r|] == r
    && AllSpace(s[..a])
    && AllSpace(s[a + |r|..])
    && Trimmed(r)
  }

  /** Strip's result is the ONLY trimmed piece of `s` with whitespace borders. */
  lemma StripIsUniqueCore(s: string, a: int, r: string)
    requires IsCoreOf(s, a, r)
    ensures Strip(s) == r
  {
    var a' :| IsCoreOf(s, a', Strip(s));
    CoreUnique(s, a, r, a', Strip(s));
  }

  lemma CoreUnique(s: string, a: int, r: string, c: int, t: string)
    requires IsCoreOf(s, a, r) && IsCoreOf(s, c, t)
    ensures r == t
  {
    assert forall k :: 0 <= k < a ==> s[..a][k] == s[k];
    assert forall k :: 0 <= k < c ==> s[..c][k] == s[k];
    assert forall k :: a + |r| <= k < |s| ==> s[a + |r|..][k - a - |r|] == s[k];
    assert forall k :: c + |t| <= k < |s| ==> s[c + |t|..][k - c - |t|] == s[k];
    assert |r| > 0 ==> r[0] == s[a] && r[|r| - 1] == s[a + |r| - 1];
    assert |t| > 0 ==> t[0] == s[c] && t[|t| - 1] == s[c + |t| - 1];
    // the first non-space character fixes the start, the last one the end
    assert |r| > 0 <==> |t| > 0;
    assert |r| > 0 ==> a == c && |r| == |t|;
  }

  lemma StripIdempotent(s: string)
    ensures Strip(Strip(s)) == Strip(s)
  {
  }

  /** Stripping text that is whitespace only leaves the empty string. */
  lemma StripAllSpace(s: string)
    requires AllSpace(s)
    ensures Strip(s) == ""
  {
  }

  /** `s.split(sep)`: the pieces between occurrences of `sep`, empty ones included. */
  function Split(s: string, sep: char): (r: seq<string>)
    ensures |r| >= 1
    ensures forall k :: 0 <= k < |r| ==> sep !in r[k]
    decreases |s|
  {
    if |s| == 0 then [""]
    else
      var rest := Split(s[1..], sep);
      if s[0] == sep then [""] + rest
      else [[s[0]] + rest[0]] + rest[1..]
  }

  /** One more piece than there are separators. */
  lemma {:induction false} SplitCount(s: string, sep: char)
    ensures |Split(s, sep)| == multiset(s)[sep] + 1
    decreases |s|
  {
    if |s| > 0 {
      SplitCount(s[1..], sep);
      assert s == [s[0]] + s[1..];
      assert multiset(s) == multiset([s[0]]) + multiset(s[1..]);
    }
  }

  /** `sep.join(parts)`. */
  function Join(parts: seq<string>, sep: char): string
    requires |parts| >= 1
    decreases |parts|
  {
    if |parts| == 1 then parts[0] else parts[0] + [sep] + Join(parts[1..], sep)
  }

  /** Joining the pieces of a split gives back the text. */
  lemma {:induction false} JoinSplit(s: string, sep: char)
    ensures Join(Split(s, sep), sep) == s
    decreases |s|
  {
    if |s| > 0 {
      var rest := Split(s[1..], sep);
      var parts := Split(s, sep);
      JoinSplit(s[1..], sep);
      assert Join(rest, sep) == s[1..];
      if s[0] == sep {
        assert parts == [""] + rest;
        assert parts[1..] == rest;
        assert Join(parts, sep) == [sep] + s[1..];
      } else if |rest| == 1 {
        assert parts == [[s[0]] + rest[0]];
        assert Join(parts, sep) == [s[0]] + s[1..];
      } else {
        assert parts == [[s[0]] + rest[0]] + rest[1..];
        assert parts[1..] == rest[1..];
        assert Join(rest, sep) == rest[0] + [sep] + Join(rest[1..], sep);
        assert Join(parts, sep) == [s[0]] + rest[0] + [sep] + Join(rest[1..], sep);
      }
      assert s == [s[0]] + s[1..];
    }
  }

  /** Splitting a piece free of the separator in front of a separator. */
  lemma {:induction false} SplitPrefix(x: string, sep: char, y: string)
    requires sep !in x
    ensures Split(x + [sep] + y, sep) == [x] + Split(y, sep)
    decreases |x|
  {
    var s := x + [sep] + y;
    if |x| == 0 {
      assert s[1..] == y;
    } else {
      assert s[1..] == x[1..] + [sep] + y;
      SplitPrefix(x[1..], sep, y);
      assert [x[0]] + x[1..] == x;
    }
  }

  lemma {:induction false} SplitWhole(x: string, sep: char)
    requires sep !in x
    ensures Split(x, sep) == [x]
    decreases |x|
  {
    if |x| > 0 {
      SplitWhole(x[1..], sep);
      assert [x[0]] + x[1..] == x;
    }
  }

  lemma {:induction false} SplitJoin(parts: seq<string>, sep: char)
    requires |parts| >= 1
    requires forall k :: 0 <= k < |parts| ==> sep !in parts[k]
    ensures Split(Join(parts, sep), sep) == parts
    decreases |parts|
  {
    if |parts| == 1 {
      SplitWhole(parts[0], sep);
    } else {
      SplitJoin(parts[1..], sep);
      SplitPrefix(parts[0], sep, Join(parts[1..], sep));
      assert [parts[0]] + parts[1..] == parts;
    }
  }

  /** `target` is a prefix of `s`. */
  predicate StartsWith(s: string, target: string)
  {
    |target| <= |s| && s[..|target|] == target
  }

  /** Python's `target in line`: `target` occurs in `line` as a contiguous
      substring. The empty string occurs in every line. */
  predicate Contains(line: string, target: string)
    decreases |line|
  {
    StartsWith(line, target) || (|line| > 0 && Contains(line[1..], target))
  }

  /** Contains as "some suffix starts with the target". */
  lemma {:induction false} ContainsAt(line: string, target: string)
    ensures Contains(line, target) <==> exists k | 0 <= k <= |line| :: StartsWith(line[k..], target)
    decreases |line|
  {
    assert line[0..] == line;
    if |line| > 0 {
      ContainsAt(line[1..], target);
      if Contains(line[1..], target) {
        var k :| 0 <= k <= |line[1..]| && StartsWith(line[1..][k..], target);
        assert line[1..][k..] == line[k + 1..];
      }
      if exists k | 0 <= k <= |line| :: StartsWith(line[k..], target) {
        var k :| 0 <= k <= |line| && StartsWith(line[k..], target);
        if k > 0 {
          assert line[1..][k - 1..] == line[k..];
        }
      }
    }
  }

  /** A line shorter than the target cannot contain it. */
  lemma {:induction false} ShortLineLacks(line: string, target: string)
    requires |line| < |target|
    ensures !Contains(line, target)
    decreases |line|
  {
    if |line| > 0 {
      ShortLineLacks(line[1..], target);
    }
  }
}

/**
 * The string primitives the parsers rely on: Python's character categories
 * (as used by `str.isspace` and by the `\d`, `\w`, `\s` escapes of `re`),
 * `in` on strings, `str.replace` and `str.strip`.
 */
module Text {
  import opened Wrappers

  predicate IsDigit(c: char) { '0' <= c <= '9' }

  /** Exactly the characters for which Python's `str.isspace()` holds (and hence `\s`). */
  predicate IsSpace(c: char)
  {
    ('\t' <= c <= '\r') || ('\U{1C}' <= c <= '\U{1F}') || c == ' ' || c == '\U{85}' || c == '\U{A0}'
    || c == '\U{1680}' || ('\U{2000}' <= c <= '\U{200A}') || c == '\U{2028}' || c == '\U{2029}'
    || c == '\U{202F}' || c == '\U{205F}' || c == '\U{3000}'
  }

  /** `\w`: ASCII letters and digits, the underscore, and the Latin letters of U+00AA..U+024F. */
  predicate IsWordChar(c: char)
  {
    ('a' <= c <= 'z') || ('A' <= c <= 'Z') || IsDigit(c) || c == '_'
    || c == '\U{AA}' || c == '\U{B5}' || c == '\U{BA}'
    || ('\U{C0}' <= c <= '\U{24F}' && c != '\U{D7}' && c != '\U{F7}')
  }

  predicate AllDigits(s: string) { forall k :: 0 <= k < |s| ==> IsDigit(s[k]) }

  predicate AllSpace(s: string) { forall k :: 0 <= k < |s| ==> IsSpace(s[k]) }

  /** `w` occurs in `s` starting at index `i`. */
  predicate OccursAt(s: string, i: int, w: string)
  {
    0 <= i && i + |w| <= |s| && s[i..i + |w|] == w
  }

  /** Python's `w in s`. */
  predicate Contains(s: string, w: string)
  {
    exists i :: 0 <= i <= |s| && OccursAt(s, i, w)
  }

  /** Occurrences in `s[1..]` are the occurrences in `s` after its first character, shifted by one. */
  lemma OccursShift(s: string, w: string)
    requires s != []
    ensures forall j :: 1 <= j ==> (OccursAt(s, j, w) <==> OccursAt(s[1..], j - 1, w))
  {
    forall j | 1 <= j
      ensures OccursAt(s, j, w) <==> OccursAt(s[1..], j - 1, w)
    {
      if j + |w| <= |s| {
        assert s[j..j + |w|] == s[1..][j - 1..j - 1 + |w|];
      }
    }
  }

  /** The index of the first occurrence of `w` in `s` (Python's `s.find(w)`, with None for -1). */
  function FirstIndex(s: string, w: string): (r: Option<nat>)
    requires w != []
    ensures r.Some? ==> OccursAt(s, r.value, w) && forall j :: 0 <= j < r.value ==> !OccursAt(s, j, w)
    ensures r.None? <==> !Contains(s, w)
    decreases |s|
  {
    if |s| < |w| then None
    else if s[..|w|] == w then Some(0)
    else
      OccursShift(s, w);
      match FirstIndex(s[1..], w)
      case None => None
      case Some(k) => Some(k + 1)
  }

  /**
   * Python's `s.replace(a, b)`: the text before the first occurrence of `a` is
   * kept, the occurrence becomes `b`, and the scan resumes after it, so the
   * replaced occurrences never overlap.
   */
  function Replace(s: string, a: string, b: string): (r: string)
    requires a != []
    ensures !Contains(s, a) ==> r == s
    decreases |s|
  {
    match FirstIndex(s, a)
    case None => s
    case Some(k) => s[..k] + b + Replace(s[k + |a|..], a, b)
  }

  /** One step of `Replace`: the first occurrence of `a`, at `k`, becomes `b`. */
  lemma ReplaceStep(s: string, a: string, b: string, k: nat)
    requires a != [] && FirstIndex(s, a) == Some(k)
    ensures Replace(s, a, b) == s[..k] + b + Replace(s[k + |a|..], a, b)
  {
  }

  /** A string without `a` is left unchanged by replacing `a`. */
  lemma ReplaceAbsent(s: string, a: string, b: string)
    requires a != [] && !Contains(s, a)
    ensures Replace(s, a, b) == s
  {
  }

  /** An occurrence inside a slice is an occurrence in the whole string. */
  lemma OccursInSlice(s: string, lo: nat, hi: nat, c: string, j: int)
    requires lo <= hi <= |s| && OccursAt(s[lo..hi], j, c)
    ensures OccursAt(s, lo + j, c)
  {
    forall i | 0 <= i < |c|
      ensures s[lo + j..lo + j + |c|][i] == c[i]
    {
      assert s[lo..hi][j..j + |c|][i] == s[lo + j + i];
    }
  }

  /** `x` and `y` agree on their common length. */
  predicate Compatible(x: string, y: string)
  {
    var n := if |x| < |y| then |x| else |y|;
    x[..n] == y[..n]
  }

  /**
   * No occurrence of `c` can straddle or start inside an inserted `b`: no proper
   * suffix of `c` agrees with the start of `b`, and no suffix of `b` agrees with
   * the start of `c`.
   */
  predicate Clean(c: string, b: string)
  {
    (forall m :: 0 < m < |c| ==> !Compatible(c[m..], b))
    && (forall m :: 0 <= m < |b| ==> !Compatible(b[m..], c))
  }

  /** A window of `p + b + t` that ends after `p` and starts before `t` is not `c`, when `c` is clean with respect to `b`. */
  lemma NoStraddle(p: string, b: string, t: string, c: string, j: nat)
    requires c != [] && Clean(c, b)
    requires j < |p| + |b| && |p| < j + |c| && j + |c| <= |p| + |b| + |t|
    ensures (p + b + t)[j..j + |c|] != c
  {
    var r := p + b + t;
    var w := r[j..j + |c|];
    var k := |p|;
    if j < k {
      var m := k - j;
      var n := if |c| - m < |b| then |c| - m else |b|;
      forall i | 0 <= i < n
        ensures w[m..][..n][i] == b[..n][i]
      {
        assert w[m + i] == r[k + i];
      }
      assert w[m..][..n] == b[..n];
      assert !Compatible(c[m..], b);
    } else {
      var m := j - k;
      var n := if |b| - m < |c| then |b| - m else |c|;
      forall i | 0 <= i < n
        ensures b[m..][..n][i] == w[..n][i]
      {
        assert w[i] == r[j + i];
      }
      assert b[m..][..n] == w[..n];
      assert !Compatible(b[m..], c);
    }
  }

  /** Joining two strings without `c` around a clean `b` yields no `c`. */
  lemma JoinClean(p: string, b: string, t: string, c: string)
    requires c != [] && Clean(c, b) && !Contains(p, c) && !Contains(t, c)
    ensures !Contains(p + b + t, c)
  {
    var r := p + b + t;
    forall j | 0 <= j <= |r|
      ensures !OccursAt(r, j, c)
    {
      if j + |c| > |r| {
      } else if j + |c| <= |p| {
        assert !OccursAt(p, j, c);
        assert r[j..j + |c|] == p[j..j + |c|];
      } else if j < |p| + |b| {
        NoStraddle(p, b, t, c, j);
      } else {
        var q := j - |p| - |b|;
        assert !OccursAt(t, q, c);
        assert r[j..j + |c|] == t[q..q + |c|];
      }
    }
  }

  /**
   * After replacing `a` by `b`, the string holds no `c`, when `c` is `a` itself
   * or was absent before, provided `c` is clean with respect to `b`.
   */
  lemma {:induction false} ReplaceLeavesNone(s: string, a: string, b: string, c: string)
    requires a != [] && c != [] && Clean(c, b)
    requires c == a || !Contains(s, c)
    ensures !Contains(Replace(s, a, b), c)
    decreases |s|
  {
    var first := FirstIndex(s, a);
    if first.Some? {
      var k := first.value;
      var rest := s[k + |a|..];
      var t := Replace(rest, a, b);
      ReplaceStep(s, a, b, k);
      if c != a {
        RestClean(s, k + |a|, c);
      }
      ReplaceLeavesNone(rest, a, b, c);
      if c != a {
        PrefixClean(s, k, c);
      } else {
        FirstIndexPrefix(s, a, k);
      }
      JoinClean(s[..k], b, t, c);
    }
  }

  /** A suffix of a string without `c` has no `c`. */
  lemma RestClean(s: string, lo: nat, c: string)
    requires lo <= |s| && !Contains(s, c)
    ensures !Contains(s[lo..], c)
  {
    if Contains(s[lo..], c) {
      var j :| 0 <= j <= |s[lo..]| && OccursAt(s[lo..], j, c);
      assert s[lo..] == s[lo..|s|];
      OccursInSlice(s, lo, |s|, c, j);
    }
  }

  /** A prefix of a string without `c` has no `c`. */
  lemma PrefixClean(s: string, k: nat, c: string)
    requires k <= |s| && !Contains(s, c)
    ensures !Contains(s[..k], c)
  {
    if Contains(s[..k], c) {
      var j :| 0 <= j <= k && OccursAt(s[..k], j, c);
      assert s[..k] == s[0..k];
      OccursInSlice(s, 0, k, c, j);
    }
  }

  /** The text before the first occurrence of `a` holds no `a`. */
  lemma FirstIndexPrefix(s: string, a: string, k: nat)
    requires a != [] && FirstIndex(s, a) == Some(k)
    ensures !Contains(s[..k], a)
  {
    if Contains(s[..k], a) {
      var j :| 0 <= j <= k && OccursAt(s[..k], j, a);
      assert s[..k] == s[0..k];
      OccursInSlice(s, 0, k, a, j);
    }
  }

  /** A one-character needle occurs exactly when the character is in the string. */
  lemma ContainsChar(s: string, c: char)
    ensures Contains(s, [c]) <==> c in s
  {
    if c in s {
      var k :| 0 <= k < |s| && s[k] == c;
      assert OccursAt(s, k, [c]);
    }
    if Contains(s, [c]) {
      var i :| 0 <= i <= |s| && OccursAt(s, i, [c]);
      assert s[i..i + 1][0] == s[i];
    }
  }

  /** The first occurrence of a one-character needle is its first appearance, and it cuts `s` back into its two sides. */
  lemma FirstCharIs(p: string, c: char, x: string, s: string)
    requires c !in p && s == p + [c] + x
    ensures FirstIndex(s, [c]) == Some(|p|)
    ensures s[..|p|] == p && s[|p| + 1..] == x
  {
    assert OccursAt(s, |p|, [c]);
    forall j | 0 <= j < |p|
      ensures !OccursAt(s, j, [c])
    {
      assert s[j..j + 1][0] == p[j];
    }
  }

  /** Without the character, a one-character needle is not found. */
  lemma FirstCharAbsent(s: string, c: char)
    requires c !in s
    ensures FirstIndex(s, [c]).None?
  {
    ContainsChar(s, c);
  }

  /** Every character of the result of a replacement comes from the subject or from the replacement. */
  lemma {:induction false} ReplaceChars(s: string, a: string, b: string)
    requires a != []
    ensures forall c :: c in Replace(s, a, b) ==> c in s || c in b
    decreases |s|
  {
    var first := FirstIndex(s, a);
    if first.Some? {
      var k := first.value;
      var rest := s[k + |a|..];
      var t := Replace(rest, a, b);
      ReplaceChars(rest, a, b);
      ReplaceStep(s, a, b, k);
      forall c | c in s[..k] + b + t
        ensures c in s || c in b
      {
        if c in s[..k] {
          var i :| 0 <= i < k && s[..k][i] == c;
          assert s[i] == c;
        } else if c in t && c in rest {
          var i :| 0 <= i < |rest| && rest[i] == c;
          assert s[k + |a| + i] == c;
        }
      }
    }
  }

  /** Replacing a single character that occurs once, between `x` and `y`. */
  lemma ReplaceOnce(x: string, c: char, y: string, b: string)
    requires c !in x && c !in y
    ensures Replace(x + [c] + y, [c], b) == x + b + y
  {
    var s := x + [c] + y;
    assert OccursAt(s, |x|, [c]);
    forall j | 0 <= j < |x|
      ensures !OccursAt(s, j, [c])
    {
      assert s[j] == x[j];
    }
    assert FirstIndex(s, [c]) == Some(|x|);
    assert s[..|x|] == x;
    assert s[|x| + 1..] == y;
    ContainsChar(y, c);
    ReplaceAbsent(y, [c], b);
  }

  /** A string that neither starts nor ends with whitespace is its own strip. */
  lemma StripUnpadded(s: string)
    requires s == [] || (!IsSpace(s[0]) && !IsSpace(s[|s| - 1]))
    ensures Strip(s) == s
  {
    assert LeadingSpaces(s) == 0;
    assert s[0..] == s;
  }

  /** Number of leading whitespace characters. */
  function LeadingSpaces(s: string): (n: nat)
    ensures n <= |s| && AllSpace(s[..n]) && (n < |s| ==> !IsSpace(s[n]))
    decreases |s|
  {
    if s != [] && IsSpace(s[0]) then
      var n := 1 + LeadingSpaces(s[1..]);
      assert s[..n] == [s[0]] + s[1..][..n - 1];
      n
    else 0
  }

  /** Number of trailing whitespace characters. */
  function TrailingSpaces(s: string): (n: nat)
    ensures n <= |s| && (forall k :: |s| - n <= k < |s| ==> IsSpace(s[k])) && (n < |s| ==> !IsSpace(s[|s| - n - 1]))
    decreases |s|
  {
    if s != [] && IsSpace(s[|s| - 1]) then 1 + TrailingSpaces(s[..|s| - 1]) else 0
  }

  /**
   * Python's `s.strip()`: the result is the part of `s` left after removing the
   * leading and trailing whitespace, and neither starts nor ends with whitespace.
   */
  function Strip(s: string): (r: string)
    ensures |r| <= |s|
    ensures r == [] || (!IsSpace(r[0]) && !IsSpace(r[|r| - 1]))
    ensures var i := LeadingSpaces(s);
      i + |r| <= |s| && s[i..i + |r|] == r && AllSpace(s[..i]) && AllSpace(s[i + |r|..])
  {
    var i := LeadingSpaces(s);
    var t := s[i..];
    StripParts(s, i, t, TrailingSpaces(t));
    t[..|t| - TrailingSpaces(t)]
  }

  /** The pieces `Strip` cuts `s` into: leading whitespace, the kept middle, trailing whitespace. */
  lemma StripParts(s: string, i: nat, t: string, j: nat)
    requires i == LeadingSpaces(s) && t == s[i..] && j == TrailingSpaces(t)
    ensures var r := t[..|t| - j];
      i + |r| <= |s| && s[i..i + |r|] == r && AllSpace(s[..i]) && AllSpace(s[i + |r|..])
      && (r == [] || (!IsSpace(r[0]) && !IsSpace(r[|r| - 1])))
  {
    var r := t[..|t| - j];
    assert s[i..i + |r|] == r;
    var tail := t[|t| - j..];
    assert s[i + |r|..] == tail;
    forall k | 0 <= k < |tail|
      ensures IsSpace(tail[k])
    {
      assert tail[k] == t[|t| - j + k];
    }
    if r != [] {
      assert r[0] == s[i];
      assert r[|r| - 1] == t[|t| - j - 1];
    }
  }

  /** A leading whitespace character is removed by `strip`. */
  lemma StripLeadingSpace(c: char, x: string)
    requires IsSpace(c)
    ensures Strip([c] + x) == Strip(x)
  {
    var s := [c] + x;
    assert s[1..] == x;
    assert LeadingSpaces(s) == 1 + LeadingSpaces(x);
    assert s[LeadingSpaces(s)..] == x[LeadingSpaces(x)..];
  }
}

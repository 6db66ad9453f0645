/**
 * String operations of Python's `str` that the modelled code relies on:
 * `startswith`, `in` (substring), `count`, `strip` and an ASCII `lower`.
 */
module PyText {

  /** `s.startswith(p)` */
  predicate StartsWith(s: string, p: string) {
    |p| <= |s| && s[..|p|] == p
  }

  /** `sub` occurs in `s` at position `i`. */
  predicate OccursAt(s: string, sub: string, i: int) {
    0 <= i && i + |sub| <= |s| && s[i..i + |sub|] == sub
  }

  /** `sub in s` */
  predicate Contains(s: string, sub: string) {
    exists i | 0 <= i <= |s| - |sub| :: OccursAt(s, sub, i)
  }

  /**
   * The characters for which Python's `str.isspace` holds: the ASCII white
   * space and separators, and the Unicode spaces and line separators.
   */
  predicate IsSpace(c: char) {
    || c == ' ' || ('\t' <= c <= '\r') || ('\U{1C}' <= c <= '\U{1F}') || c == '\U{85}' || c == '\U{A0}'
    || c == '\U{1680}' || ('\U{2000}' <= c <= '\U{200A}') || c == '\U{2028}' || c == '\U{2029}'
    || c == '\U{202F}' || c == '\U{205F}' || c == '\U{3000}'
  }

  predicate AllSpace(s: string) {
    forall k | 0 <= k < |s| :: IsSpace(s[k])
  }

  /** `s.lstrip()` */
  function LStrip(s: string): (r: string)
    ensures |r| <= |s|
  {
    if s != [] && IsSpace(s[0]) then LStrip(s[1..]) else s
  }

  /** `lstrip` removes exactly the white space at the front: what is left is a suffix that does not start with any. */
  lemma {:induction false} LStripSpec(s: string)
    ensures var r := LStrip(s);
      && r == s[|s| - |r|..]
      && (r == [] || !IsSpace(r[0]))
      && AllSpace(s[..|s| - |r|])
  {
    if s != [] && IsSpace(s[0]) {
      var t := s[1..];
      LStripSpec(t);
      var r := LStrip(t);
      assert t[|t| - |r|..] == s[|s| - |r|..];
      var front := s[..|s| - |r|];
      assert front == [s[0]] + t[..|t| - |r|];
    }
  }

  /** `s.rstrip()` */
  function RStrip(s: string): (r: string)
    ensures |r| <= |s|
  {
    if s != [] && IsSpace(s[|s| - 1]) then RStrip(s[..|s| - 1]) else s
  }

  /** `rstrip` removes exactly the white space at the end: what is left is a prefix that does not end with any. */
  lemma {:induction false} RStripSpec(s: string)
    ensures var r := RStrip(s);
      && r == s[..|r|]
      && (r == [] || !IsSpace(r[|r| - 1]))
      && AllSpace(s[|r|..])
  {
    if s != [] && IsSpace(s[|s| - 1]) {
      var t := s[..|s| - 1];
      RStripSpec(t);
      var r := RStrip(t);
      assert t[..|r|] == s[..|r|];
      var back := s[|r|..];
      assert back == t[|r|..] + [s[|s| - 1]];
    }
  }

  /** `s.strip()`: what is left once the white space on both ends is removed. */
  function Strip(s: string): (r: string)
    ensures |r| <= |s|
    ensures r == [] || (!IsSpace(r[0]) && !IsSpace(r[|r| - 1]))
  {
    var a := LStrip(s);
    var r := RStrip(a);
    LStripSpec(s);
    RStripSpec(a);
    assert r == [] || r[0] == a[0];
    r
  }

  /** `s.strip() == ''` holds exactly for the all-white-space strings. */
  lemma {:induction false} StripEmptyIffAllSpace(s: string)
    ensures Strip(s) == [] <==> AllSpace(s)
  {
    if AllSpace(s) {
      AllSpaceLStrip(s);
    } else {
      var a := LStrip(s);
      LStripSpec(s);
      RStripSpec(a);
      assert a != [] by {
        assert s[..|s|] == s;
      }
      assert a[0] == a[0..][0];
    }
  }

  lemma {:induction false} AllSpaceLStrip(s: string)
    requires AllSpace(s)
    ensures LStrip(s) == []
  {
    if s != [] {
      AllSpaceLStrip(s[1..]);
    }
  }

  /** ASCII `c.lower()`. */
  function LowerChar(c: char): char {
    if 'A' <= c <= 'Z' then (c as int + 32) as char else c
  }

  /** `s.lower()` restricted to ASCII letters. */
  function Lower(s: string): (r: string)
    ensures |r| == |s| && forall k | 0 <= k < |s| :: r[k] == LowerChar(s[k])
  {
    seq(|s|, k requires 0 <= k < |s| => LowerChar(s[k]))
  }

  /** `s.count(sub)`: non-overlapping occurrences, scanned from the left. */
  function Count(s: string, sub: string): nat
    requires sub != []
    decreases |s|
  {
    if |s| < |sub| then 0
    else if s[..|sub|] == sub then 1 + Count(s[|sub|..], sub)
    else Count(s[1..], sub)
  }

  /** A prefix that holds no occurrence of the first character of `sub` adds nothing to the count. */
  lemma {:induction false} CountSkipsPrefix(pre: string, t: string, sub: string)
    requires sub != []
    requires forall k | 0 <= k < |pre| :: pre[k] != sub[0]
    ensures Count(pre + t, sub) == Count(t, sub)
  {
    if pre == [] {
      assert pre + t == t;
    } else {
      var s := pre + t;
      assert s[0] == pre[0] != sub[0];
      if |s| >= |sub| {
        assert s[..|sub|][0] == s[0];
        assert s[..|sub|] != sub;
      }
      assert s[1..] == pre[1..] + t;
      CountSkipsPrefix(pre[1..], t, sub);
      if |s| < |sub| {
        assert |t| < |sub|;
      }
    }
  }

  /** A string without the first character of `sub` holds no occurrence of it. */
  lemma CountWithout(s: string, sub: string)
    requires sub != []
    requires forall k | 0 <= k < |s| :: s[k] != sub[0]
    ensures Count(s, sub) == 0
  {
    CountSkipsPrefix(s, [], sub);
    assert s + [] == s;
  }
}

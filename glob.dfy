/**
 * Shell-style file name patterns as `fnmatch.fnmatch` reads them on a POSIX
 * system: `*` stands for any run of characters (slashes and line breaks
 * included), `?` for any one character, and every other character for
 * itself.
 */
module Glob {

  /** `'*' in pattern or '?' in pattern` */
  predicate IsWildcard(pattern: string) {
    '*' in pattern || '?' in pattern
  }

  /** `fnmatch(name, pattern)` */
  predicate Matches(name: string, pattern: string)
    decreases |pattern| + |name|
  {
    if pattern == [] then name == []
    else if pattern[0] == '*' then Matches(name, pattern[1..]) || (name != [] && Matches(name[1..], pattern))
    else if pattern[0] == '?' then name != [] && Matches(name[1..], pattern[1..])
    else name != [] && name[0] == pattern[0] && Matches(name[1..], pattern[1..])
  }

  /** A pattern without wildcards matches exactly the name it spells. */
  lemma {:induction false} LiteralMatchesItself(name: string, pattern: string)
    requires !IsWildcard(pattern)
    ensures Matches(name, pattern) <==> name == pattern
  {
    if pattern != [] && name != [] {
      assert !IsWildcard(pattern[1..]) by {
        assert forall c | c in pattern[1..] :: c in pattern;
      }
      LiteralMatchesItself(name[1..], pattern[1..]);
      assert name == [name[0]] + name[1..] && pattern == [pattern[0]] + pattern[1..];
    }
  }

  /** `*` on its own matches every name. */
  lemma {:induction false} StarMatchesAll(name: string)
    ensures Matches(name, "*")
  {
    assert "*"[1..] == [];
    if name != [] {
      StarMatchesAll(name[1..]);
    }
  }

  /** A name matching `p` followed by a name matching `q` matches `p + q`. */
  lemma {:induction false} MatchesConcat(a: string, p: string, b: string, q: string)
    requires Matches(a, p) && Matches(b, q)
    ensures Matches(a + b, p + q)
    decreases |p| + |a|
  {
    if p == [] {
      assert a == [] && a + b == b && p + q == q;
    } else if p[0] == '*' {
      assert (p + q)[0] == '*' && (p + q)[1..] == p[1..] + q;
      if Matches(a, p[1..]) {
        MatchesConcat(a, p[1..], b, q);
      } else {
        MatchesConcat(a[1..], p, b, q);
        assert (a + b)[1..] == a[1..] + b;
      }
    } else {
      MatchesConcat(a[1..], p[1..], b, q);
      assert (a + b)[0] == a[0] && (a + b)[1..] == a[1..] + b;
      assert (p + q)[0] == p[0] && (p + q)[1..] == p[1..] + q;
    }
  }

  /** `*` followed by a literal matches exactly the names that end with that literal, such as `*.csv`. */
  lemma StarSuffix(name: string, suffix: string)
    requires !IsWildcard(suffix)
    ensures Matches(name, "*" + suffix) <==> |suffix| <= |name| && name[|name| - |suffix|..] == suffix
  {
    if |suffix| <= |name| && name[|name| - |suffix|..] == suffix {
      var front := name[..|name| - |suffix|];
      StarMatchesAll(front);
      LiteralMatchesItself(suffix, suffix);
      MatchesConcat(front, "*", suffix, suffix);
      assert front + suffix == name;
    }
    if Matches(name, "*" + suffix) {
      StarSuffixMatched(name, suffix);
    }
  }

  /** The names `*` followed by a literal accepts end with that literal. */
  lemma {:induction false} StarSuffixMatched(name: string, suffix: string)
    requires !IsWildcard(suffix) && Matches(name, "*" + suffix)
    ensures |suffix| <= |name| && name[|name| - |suffix|..] == suffix
    decreases |name|
  {
    var p := "*" + suffix;
    assert p[0] == '*' && p[1..] == suffix;
    if Matches(name, suffix) {
      LiteralMatchesItself(name, suffix);
    } else {
      StarSuffixMatched(name[1..], suffix);
      assert name[1..][|name| - 1 - |suffix|..] == name[|name| - |suffix|..];
    }
  }
}

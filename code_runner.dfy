/**
 * Running the code of a chat response: the code block is cut out of the
 * response text, the output file of an earlier run is deleted, the code is
 * run, and the output file it wrote is read back.
 */
module CodeRunner {
  import opened Wrappers
  import opened FileSystem
  import PyText

  // ---------------------------------------------------------------------------
  // Code fences and the lazy regular-expression search
  // ---------------------------------------------------------------------------

  /** The regular expression `open(.*?)close` with `re.DOTALL`: an opening line, the code, a closing line. */
  datatype Fence = Fence(open: string, close: string)

  /** The fence whose opening line is three backticks followed by `tag`. */
  function FenceOf(tag: string): (f: Fence)
    ensures |f.open| == |tag| + 4 && f.close == "\n```"
  {
    Fence("```" + tag + "\n", "\n```")
  }

  /** The tags of `CODE_REGEXPS`, in the order they are tried. */
  predicate IsTag(tag: string) {
    tag == "python" || tag == " python" || tag == ""
  }

  /** `CODE_REGEXPS`: ```` ```python ````, ```` ``` python ```` and a bare ```` ``` ````. */
  const CodeRegexps: seq<Fence> := [FenceOf("python"), FenceOf(" python"), FenceOf("")]

  /** An opening line starts with three backticks, which a closing line ends with, and neither has another. */
  lemma FenceShape(f: Fence)
    requires f in CodeRegexps
    ensures |f.open| >= 4 && f.close == "\n```"
    ensures && f.open[0] == '`' && f.open[1] == '`' && f.open[2] == '`'
      && (forall k | 3 <= k < |f.open| :: f.open[k] != '`')
      && f.close[0] == '\n' && f.close[1] == '`' && f.close[2] == '`' && f.close[3] == '`'
  {
  }

  /** `sub` occurs in `s` at position `i`, character by character. */
  predicate Occurs(s: string, sub: string, i: nat)
    decreases |sub|
  {
    if sub == [] then i <= |s| else i < |s| && s[i] == sub[0] && Occurs(s, sub[1..], i + 1)
  }

  /** `Occurs` is the occurrence of `sub` at `i` as a slice of `s`. */
  lemma {:induction false} OccursSpec(s: string, sub: string, i: nat)
    ensures Occurs(s, sub, i) <==> PyText.OccursAt(s, sub, i)
    decreases |sub|
  {
    if sub != [] {
      OccursSpec(s, sub[1..], i + 1);
      if i + |sub| <= |s| {
        var w := s[i..i + |sub|];
        assert w[0] == s[i] && w[1..] == s[i + 1..i + |sub|];
        if w == sub {
          assert s[i] == sub[0] && s[i + 1..i + |sub|] == sub[1..];
        }
        if s[i] == sub[0] && s[i + 1..i + |sub|] == sub[1..] {
          assert w == [w[0]] + w[1..] && sub == [sub[0]] + sub[1..];
        }
      }
    }
  }

  /** `sub` does not occur at `k` when `s[k + i]` differs from `sub[i]`. */
  lemma {:induction false} NotOccurs(s: string, sub: string, k: nat, i: nat)
    requires i < |sub| && k + i < |s| && s[k + i] != sub[i]
    ensures !Occurs(s, sub, k)
    decreases i
  {
    if i > 0 && s[k] == sub[0] {
      assert sub[1..][i - 1] == sub[i];
      NotOccurs(s, sub[1..], k + 1, i - 1);
    }
  }

  /** The first position at or after `from` where `sub` occurs in `s`. */
  function FirstOccurrence(s: string, sub: string, from: nat): (k: Option<nat>)
    decreases |s| - from
    ensures k.Some? ==> from <= k.value && k.value + |sub| <= |s|
  {
    if from + |sub| > |s| then None
    else if Occurs(s, sub, from) then Some(from)
    else FirstOccurrence(s, sub, from + 1)
  }

  /** `FirstOccurrence` finds an occurrence with none before it, or there is none at all. */
  lemma {:induction false} FirstOccurrenceSpec(s: string, sub: string, from: nat)
    ensures var k := FirstOccurrence(s, sub, from);
      && (k.Some? ==> Occurs(s, sub, k.value))
      && (k.Some? ==> forall j | from <= j < k.value :: !Occurs(s, sub, j))
      && (k.None? ==> forall j | from <= j :: !Occurs(s, sub, j))
    decreases |s| - from
  {
    if from + |sub| > |s| {
      forall j | from <= j
        ensures !Occurs(s, sub, j)
      {
        OccursSpec(s, sub, j);
      }
    } else if !Occurs(s, sub, from) {
      FirstOccurrenceSpec(s, sub, from + 1);
    }
  }

  /** The first occurrence of `sub` from `from` is at `k` when it occurs at `k` and nowhere before. */
  lemma FirstOccurrenceIs(s: string, sub: string, from: nat, k: nat)
    requires from <= k && Occurs(s, sub, k)
    requires forall j | from <= j < k :: !Occurs(s, sub, j)
    ensures FirstOccurrence(s, sub, from) == Some(k)
  {
    FirstOccurrenceSpec(s, sub, from);
    var r := FirstOccurrence(s, sub, from);
    assert r.Some?;
    assert !(r.value < k) && !(k < r.value);
  }

  /**
   * `re.findall(open + "(.*?)" + close, s[p..], re.DOTALL)`: scanning from the
   * left, each opening line is paired with the first closing line after it,
   * and the search goes on after that closing line.
   */
  function FindAll(s: string, f: Fence, p: nat): (r: seq<string>)
    requires f.open != []
    decreases |s| - p
  {
    if p + |f.open| > |s| then []
    else if Occurs(s, f.open, p) then
      match FirstOccurrence(s, f.close, p + |f.open|)
      case Some(k) => [s[p + |f.open|..k]] + FindAll(s, f, k + |f.close|)
      case None => FindAll(s, f, p + 1)
    else FindAll(s, f, p + 1)
  }

  /**
   * `m` is what the group captures for a match starting at `q`: the opening
   * line at `q`, then `m`, then the closing line, with no closing line
   * starting earlier inside `m`.
   */
  ghost predicate LazyMatchAt(s: string, f: Fence, m: string, q: nat) {
    && q + |f.open| + |m| + |f.close| <= |s|
    && Occurs(s, f.open, q)
    && Occurs(s, f.close, q + |f.open| + |m|)
    && s[q + |f.open|..q + |f.open| + |m|] == m
    && forall j | q + |f.open| <= j < q + |f.open| + |m| :: !Occurs(s, f.close, j)
  }

  /** The code up to the first closing line after an opening line at `p` is what a match at `p` captures. */
  lemma LazyFirst(s: string, f: Fence, p: nat, k: nat)
    requires Occurs(s, f.open, p) && FirstOccurrence(s, f.close, p + |f.open|) == Some(k)
    ensures LazyMatchAt(s, f, s[p + |f.open|..k], p)
  {
    FirstOccurrenceSpec(s, f.close, p + |f.open|);
  }

  /** The first match of a search from an opening line at `p` is captured by a match at `p`. */
  lemma LazyHead(s: string, f: Fence, p: nat, k: nat)
    requires f.open != [] && Occurs(s, f.open, p) && FirstOccurrence(s, f.close, p + |f.open|) == Some(k)
    ensures exists q: nat :: p <= q && LazyMatchAt(s, f, FindAll(s, f, p)[0], q)
  {
    FindAllAt(s, f, p, k);
    LazyFirst(s, f, p, k);
    assert FindAll(s, f, p)[0] == s[p + |f.open|..k];
    assert LazyMatchAt(s, f, FindAll(s, f, p)[0], p);
  }

  /** A match starting at `p2` or later starts at `p <= p2` or later. */
  lemma LazyLater(s: string, f: Fence, m: string, p: nat, p2: nat)
    requires p <= p2 && exists q: nat :: p2 <= q && LazyMatchAt(s, f, m, q)
    ensures exists q: nat :: p <= q && LazyMatchAt(s, f, m, q)
  {
    var q: nat :| p2 <= q && LazyMatchAt(s, f, m, q);
    assert p <= q;
  }

  /** Every string the search returns is the shortest code between an opening and a closing line of `s`. */
  lemma {:induction false} FindAllSound(s: string, f: Fence, p: nat, i: nat)
    requires f.open != [] && i < |FindAll(s, f, p)|
    ensures exists q: nat :: p <= q && LazyMatchAt(s, f, FindAll(s, f, p)[i], q)
    decreases |s| - p
  {
    var r := FindAll(s, f, p);
    if Occurs(s, f.open, p) && FirstOccurrence(s, f.close, p + |f.open|).Some? {
      var k := FirstOccurrence(s, f.close, p + |f.open|).value;
      var rest := FindAll(s, f, k + |f.close|);
      assert r == [s[p + |f.open|..k]] + rest;
      if i == 0 {
        LazyHead(s, f, p, k);
      } else {
        FindAllSound(s, f, k + |f.close|, i - 1);
        assert r[i] == rest[i - 1];
        LazyLater(s, f, rest[i - 1], p, k + |f.close|);
      }
    } else {
      FindAllSound(s, f, p + 1, i);
      LazyLater(s, f, r[i], p, p + 1);
    }
  }

  /** Positions where the opening line does not occur are passed over. */
  lemma {:induction false} SkipNoOpen(s: string, f: Fence, p: nat, q: nat)
    requires f.open != [] && p <= q
    requires forall k | p <= k < q :: !Occurs(s, f.open, k)
    ensures FindAll(s, f, p) == FindAll(s, f, q)
    decreases q - p
  {
    if p < q && p + |f.open| <= |s| {
      SkipNoOpen(s, f, p + 1, q);
    }
  }

  /** An opening line at `p` with its first closing line at `k` gives one match, and the search goes on after it. */
  lemma FindAllAt(s: string, f: Fence, p: nat, k: nat)
    requires f.open != [] && Occurs(s, f.open, p) && FirstOccurrence(s, f.close, p + |f.open|) == Some(k)
    ensures FindAll(s, f, p) == [s[p + |f.open|..k]] + FindAll(s, f, k + |f.close|)
  {
  }

  /** The positions `lo <= k < hi` of `s` hold no backtick. */
  predicate NoTick(s: string, lo: int, hi: int)
    decreases hi - lo
  {
    0 <= lo <= hi <= |s| && (lo == hi || (s[lo] != '`' && NoTick(s, lo + 1, hi)))
  }

  /** `NoTick` holds exactly when every position of the range holds something other than a backtick. */
  lemma {:induction false} NoTickSpec(s: string, lo: int, hi: int)
    requires 0 <= lo <= hi <= |s|
    ensures NoTick(s, lo, hi) <==> (forall k | lo <= k < hi :: s[k] != '`')
    decreases hi - lo
  {
    if lo < hi {
      NoTickSpec(s, lo + 1, hi);
    }
  }

  /** Where there is no backtick, no fence of `CODE_REGEXPS` opens. */
  lemma NoTickNoOpen(s: string, f: Fence, p: nat, q: nat)
    requires f in CodeRegexps && NoTick(s, p, q)
    ensures forall k | p <= k < q :: !Occurs(s, f.open, k)
  {
    FenceShape(f);
    NoTickSpec(s, p, q);
    forall k | p <= k < q
      ensures !Occurs(s, f.open, k)
    {
      NotOccurs(s, f.open, k, 0);
    }
  }

  /** Where there is no backtick after `p`, no closing line starts at `p - 1` or later. */
  lemma NoTickNoClose(s: string, f: Fence, p: nat, q: nat)
    requires f in CodeRegexps && 0 < p && NoTick(s, p, q)
    ensures forall j | p - 1 <= j < q - 1 :: !Occurs(s, f.close, j)
  {
    FenceShape(f);
    NoTickSpec(s, p, q);
    forall j | p - 1 <= j < q - 1
      ensures !Occurs(s, f.close, j)
    {
      NotOccurs(s, f.close, j, 1);
    }
  }

  /** Past the last backtick of `s` the search finds nothing. */
  lemma NoTickNoMatch(s: string, f: Fence, p: nat)
    requires f in CodeRegexps && NoTick(s, p, |s|)
    ensures FindAll(s, f, p) == []
  {
    NoTickNoOpen(s, f, p, |s|);
    SkipNoOpen(s, f, p, |s|);
  }

  /**
   * From the start `c` of the last three backticks of `s`, no fence of
   * `CODE_REGEXPS` finds a match: an opening line there has no closing line
   * after it.
   */
  lemma TailNoMatch(s: string, f: Fence, c: nat)
    requires f in CodeRegexps && c + 3 <= |s| && NoTick(s, c + 3, |s|)
    ensures FindAll(s, f, c) == []
  {
    FenceShape(f);
    FirstOccurrenceSpec(s, f.close, c + |f.open|);
    NoTickNoClose(s, f, c + 3, |s|);
    forall j | c + |f.open| <= j
      ensures !Occurs(s, f.close, j)
    {
      if j >= |s| - 1 {
        OccursSpec(s, f.close, j);
      }
    }
    assert FindAll(s, f, c) == FindAll(s, f, c + 1);
    if c + 3 < |s| {
      assert s[c + 3] != '`';
      NotOccurs(s, f.open, c + 1, 2);
      NotOccurs(s, f.open, c + 2, 1);
    } else {
      OccursSpec(s, f.open, c + 1);
      OccursSpec(s, f.open, c + 2);
    }
    NoTickNoOpen(s, f, c + 3, |s|);
    SkipNoOpen(s, f, c + 1, |s|);
  }

  /**
   * The shape of a response with one code block: no backtick before `q`, three
   * at `q`, none from `q + 3` to `c`, a line break at `c - 1`, three backticks
   * at `c` and none after them.
   */
  predicate OneBlock(s: string, q: nat, c: nat) {
    && q + 4 <= c && c + 3 <= |s|
    && NoTick(s, 0, q) && NoTick(s, q + 3, c) && NoTick(s, c + 3, |s|)
    && s[q] == '`' && s[q + 1] == '`' && s[q + 2] == '`'
    && s[c - 1] == '\n' && s[c] == '`' && s[c + 1] == '`' && s[c + 2] == '`'
  }

  /** A fence that does not open at the block's backticks finds nothing in a response with one code block. */
  lemma OneBlockMiss(s: string, f: Fence, q: nat, c: nat)
    requires f in CodeRegexps && OneBlock(s, q, c) && s[q + 3] != f.open[3]
    ensures FindAll(s, f, 0) == []
  {
    FenceShape(f);
    NoTickNoOpen(s, f, 0, q);
    NotOccurs(s, f.open, q, 3);
    NotOccurs(s, f.open, q + 1, 2);
    NotOccurs(s, f.open, q + 2, 1);
    NoTickNoOpen(s, f, q + 3, c);
    SkipNoOpen(s, f, 0, c);
    TailNoMatch(s, f, c);
  }

  /** A line break and three backticks at `j` make a closing line. */
  lemma CloseAt(s: string, j: nat)
    requires j + 4 <= |s| && s[j] == '\n' && s[j + 1] == '`' && s[j + 2] == '`' && s[j + 3] == '`'
    ensures Occurs(s, "\n```", j)
  {
    assert s[j..j + 4] == "\n```";
    OccursSpec(s, "\n```", j);
  }

  /** From the block's opening line, a fence that opens there finds exactly the block's code. */
  lemma OneBlockHitFrom(s: string, f: Fence, q: nat, c: nat)
    requires f in CodeRegexps && OneBlock(s, q, c)
    requires Occurs(s, f.open, q) && q + |f.open| <= c - 1
    ensures FindAll(s, f, q) == [s[q + |f.open|..c - 1]]
  {
    FenceShape(f);
    NoTickNoClose(s, f, q + 3, c);
    CloseAt(s, c - 1);
    FirstOccurrenceIs(s, f.close, q + |f.open|, c - 1);
    FindAllAt(s, f, q, c - 1);
    NoTickNoMatch(s, f, c + 3);
  }

  /** A fence that opens at the block's backticks finds exactly the block's code. */
  lemma OneBlockHit(s: string, f: Fence, q: nat, c: nat)
    requires f in CodeRegexps && OneBlock(s, q, c)
    requires Occurs(s, f.open, q) && q + |f.open| <= c - 1
    ensures FindAll(s, f, 0) == [s[q + |f.open|..c - 1]]
  {
    FenceShape(f);
    NoTickNoOpen(s, f, 0, q);
    SkipNoOpen(s, f, 0, q);
    OneBlockHitFrom(s, f, q, c);
  }

  // ---------------------------------------------------------------------------
  // extract_code
  // ---------------------------------------------------------------------------

  /** The exceptions of a code run. */
  datatype CodeRunError =
    | FailedExtractingCode(numBlockEdges: nat)
    | FailedLoadingOutput
    | RemoveFailed(error: OsError)
    | RunFailed(reason: string)

  /** The first of `fences` that matches exactly once gives the code, stripped. */
  function FirstSingle(response: string, fences: seq<Fence>, n: nat): (r: Result<string, CodeRunError>)
    requires forall f | f in fences :: f.open != []
  {
    if fences == [] then Failure(FailedExtractingCode(n))
    else
      var matches := FindAll(response, fences[0], 0);
      if |matches| == 1 then Success(PyText.Strip(matches[0])) else FirstSingle(response, fences[1..], n)
  }

  /** `extract_code`: the code of the response, or `FailedExtractingCode` with the number of backtick runs. */
  function Extracted(response: string): (r: Result<string, CodeRunError>) {
    var n := PyText.Count(response, "```");
    if n != 2 then Failure(FailedExtractingCode(n)) else FirstSingle(response, CodeRegexps, n)
  }

  /** `extract_code`, trying the patterns of `CODE_REGEXPS` one after the other. */
  method ExtractCode(response: string) returns (r: Result<string, CodeRunError>)
    ensures r == Extracted(response)
  {
    var n := PyText.Count(response, "```");
    if n == 2 {
      for i := 0 to |CodeRegexps|
        invariant FirstSingle(response, CodeRegexps[i..], n) == Extracted(response)
      {
        var matches := FindAll(response, CodeRegexps[i], 0);
        if |matches| == 1 {
          return Success(PyText.Strip(matches[0]));
        }
        assert CodeRegexps[i..][1..] == CodeRegexps[i + 1..];
      }
    }
    r := Failure(FailedExtractingCode(n));
  }

  /** `FirstSingle` gives the first fence with one match, and fails with `n` when there is none. */
  lemma {:induction false} FirstSingleSpec(response: string, fences: seq<Fence>, n: nat)
    requires forall f | f in fences :: f.open != []
    ensures FirstSingle(response, fences, n).Success? <==> exists i | 0 <= i < |fences| :: |FindAll(response, fences[i], 0)| == 1
    ensures FirstSingle(response, fences, n).Failure? ==> FirstSingle(response, fences, n).error == FailedExtractingCode(n)
    ensures FirstSingle(response, fences, n).Success? ==>
      exists i | 0 <= i < |fences| ::
        && |FindAll(response, fences[i], 0)| == 1
        && (forall j | 0 <= j < i :: |FindAll(response, fences[j], 0)| != 1)
        && FirstSingle(response, fences, n).value == PyText.Strip(FindAll(response, fences[i], 0)[0])
  {
    if fences != [] {
      var r := FirstSingle(response, fences, n);
      if |FindAll(response, fences[0], 0)| == 1 {
        assert |FindAll(response, fences[0], 0)| == 1;
      } else {
        var tail := fences[1..];
        FirstSingleSpec(response, tail, n);
        assert forall i | 0 <= i < |tail| :: tail[i] == fences[i + 1];
        if r.Success? {
          var i :| 0 <= i < |tail| && |FindAll(response, tail[i], 0)| == 1
            && (forall j | 0 <= j < i :: |FindAll(response, tail[j], 0)| != 1)
            && r.value == PyText.Strip(FindAll(response, tail[i], 0)[0]);
          assert |FindAll(response, fences[i + 1], 0)| == 1;
          assert forall j | 0 <= j < i + 1 :: |FindAll(response, fences[j], 0)| != 1 by {
            forall j | 0 <= j < i + 1
              ensures |FindAll(response, fences[j], 0)| != 1
            {
              if j > 0 {
                assert fences[j] == tail[j - 1];
              }
            }
          }
        } else {
          forall i | 0 <= i < |fences|
            ensures |FindAll(response, fences[i], 0)| != 1
          {
            if i > 0 {
              assert fences[i] == tail[i - 1];
            }
          }
        }
      }
    }
  }

  /**
   * Extraction succeeds exactly when the response holds two runs of three
   * backticks and one of the patterns matches once; the code is then the first
   * such pattern's match, stripped; otherwise `FailedExtractingCode` carries
   * the number of runs.
   */
  lemma ExtractedSpec(response: string)
    ensures Extracted(response).Success? <==>
      PyText.Count(response, "```") == 2 && exists i | 0 <= i < |CodeRegexps| :: |FindAll(response, CodeRegexps[i], 0)| == 1
    ensures Extracted(response).Failure? ==> Extracted(response).error == FailedExtractingCode(PyText.Count(response, "```"))
    ensures Extracted(response).Success? ==>
      exists i | 0 <= i < |CodeRegexps| ::
        && |FindAll(response, CodeRegexps[i], 0)| == 1
        && (forall j | 0 <= j < i :: |FindAll(response, CodeRegexps[j], 0)| != 1)
        && Extracted(response).value == PyText.Strip(FindAll(response, CodeRegexps[i], 0)[0])
  {
    FirstSingleSpec(response, CodeRegexps, PyText.Count(response, "```"));
  }

  /** `x` holds no backtick. */
  predicate TickFree(x: string) {
    forall k | 0 <= k < |x| :: x[k] != '`'
  }

  /** Text without backticks around two runs of three backticks holds exactly two of them. */
  lemma CountTwo(pre: string, mid: string, post: string)
    requires TickFree(pre) && TickFree(mid) && TickFree(post)
    ensures PyText.Count(pre + "```" + mid + "```" + post, "```") == 2
  {
    var t := "```";
    var tail := t + post;
    var rest := t + (mid + tail);
    assert pre + t + mid + t + post == pre + rest;
    PyText.CountSkipsPrefix(pre, rest, t);
    assert rest[..3] == t && rest[3..] == mid + tail;
    PyText.CountSkipsPrefix(mid, tail, t);
    assert tail[..3] == t && tail[3..] == post;
    PyText.CountWithout(post, t);
  }

  /** The characters of `a + b + c + d + e`, part by part. */
  lemma FiveParts(a: string, b: string, c: string, d: string, e: string)
    ensures var s := a + b + c + d + e;
      var i, j, k, l := |a|, |a| + |b|, |a| + |b| + |c|, |a| + |b| + |c| + |d|;
      && |s| == l + |e|
      && (forall x | 0 <= x < i :: s[x] == a[x])
      && (forall x | i <= x < j :: s[x] == b[x - i])
      && (forall x | j <= x < k :: s[x] == c[x - j])
      && (forall x | k <= x < l :: s[x] == d[x - k])
      && (forall x | l <= x < |s| :: s[x] == e[x - l])
      && s[i..j] == b && s[j..k] == c
  {
    var s := a + b + c + d + e;
    assert s == a + (b + (c + (d + e)));
  }

  /**
   * A code block of fence `f` holding `code`, between a text before and a text
   * after it, none of the three with a backtick, has the shape of `OneBlock`.
   */
  lemma BlockShape(pre: string, f: Fence, code: string, post: string)
    requires f in CodeRegexps && TickFree(pre) && TickFree(code) && TickFree(post)
    ensures var s := pre + f.open + code + f.close + post;
      var q := |pre|;
      var c := q + |f.open| + |code| + 1;
      && OneBlock(s, q, c)
      && Occurs(s, f.open, q)
      && s[q + 3] == f.open[3]
      && s[q + |f.open|..c - 1] == code
  {
    var s := pre + f.open + code + f.close + post;
    var q := |pre|;
    var o := |f.open|;
    var c := q + o + |code| + 1;
    FenceShape(f);
    FiveParts(pre, f.open, code, f.close, post);
    OccursSpec(s, f.open, q);
    NoTickSpec(s, 0, q);
    NoTickSpec(s, q + 3, c);
    NoTickSpec(s, c + 3, |s|);
    forall x | q + 3 <= x < c
      ensures s[x] != '`'
    {
      if x < q + o {
        assert s[x] == f.open[x - q];
      } else if x < c - 1 {
        assert s[x] == code[x - q - o];
      } else {
        assert s[x] == f.close[0];
      }
    }
    assert forall x | c + 3 <= x < |s| :: s[x] == post[x - c - 3];
    assert s[c - 1] == f.close[0] && s[c] == f.close[1] && s[c + 1] == f.close[2] && s[c + 2] == f.close[3];
    assert s[q] == f.open[0] && s[q + 1] == f.open[1] && s[q + 2] == f.open[2] && s[q + 3] == f.open[3];
  }

  /** `FirstSingle` settles on fence `i` when it matches once and no earlier fence does. */
  lemma {:induction false} FirstSingleAt(response: string, fences: seq<Fence>, n: nat, i: nat)
    requires forall f | f in fences :: f.open != []
    requires i < |fences| && |FindAll(response, fences[i], 0)| == 1
    requires forall j | 0 <= j < i :: |FindAll(response, fences[j], 0)| != 1
    ensures FirstSingle(response, fences, n) == Success(PyText.Strip(FindAll(response, fences[i], 0)[0]))
  {
    if i > 0 {
      var tail := fences[1..];
      assert tail[i - 1] == fences[i];
      assert forall j | 0 <= j < i - 1 :: tail[j] == fences[j + 1];
      FirstSingleAt(response, tail, n, i - 1);
    }
  }

  /** The fences of `CODE_REGEXPS` differ in the character after the backticks. */
  lemma CodeRegexpsDiffer()
    ensures |CodeRegexps| == 3
    ensures forall f | f in CodeRegexps :: f.open != []
    ensures forall i, j | 0 <= j < i < 3 :: CodeRegexps[j].open[3] != CodeRegexps[i].open[3]
  {
    assert CodeRegexps[0].open[3] == 'p' && CodeRegexps[1].open[3] == ' ' && CodeRegexps[2].open[3] == '\n';
  }

  /**
   * In a response with two runs of three backticks, making one code block
   * opened by fence `i`, extraction gives that block's code.
   */
  lemma ExtractFromBlock(s: string, q: nat, c: nat, i: nat)
    requires i < |CodeRegexps| && OneBlock(s, q, c) && PyText.Count(s, "```") == 2
    requires Occurs(s, CodeRegexps[i].open, q) && s[q + 3] == CodeRegexps[i].open[3]
    requires q + |CodeRegexps[i].open| <= c - 1
    ensures Extracted(s) == Success(PyText.Strip(s[q + |CodeRegexps[i].open|..c - 1]))
  {
    CodeRegexpsDiffer();
    OneBlockHit(s, CodeRegexps[i], q, c);
    forall j | 0 <= j < i
      ensures |FindAll(s, CodeRegexps[j], 0)| != 1
    {
      OneBlockMiss(s, CodeRegexps[j], q, c);
    }
    FirstSingleAt(s, CodeRegexps, 2, i);
  }

  /** A response made of `pre`, a code block tagged `tag` holding `code`, and `post`. */
  function Response(pre: string, tag: string, code: string, post: string): (s: string)
    ensures |s| == |pre| + |tag| + |code| + 8 + |post|
  {
    pre + FenceOf(tag).open + code + FenceOf(tag).close + post
  }

  /** Joining texts without backticks gives a text without backticks. */
  lemma TickFreeConcat(a: string, b: string)
    requires TickFree(a) && TickFree(b)
    ensures TickFree(a + b)
  {
    assert forall k | |a| <= k < |a| + |b| :: (a + b)[k] == b[k - |a|];
  }

  /** The fence of a tag of `CODE_REGEXPS`, and where it stands among them. */
  lemma TagFence(tag: string) returns (i: nat)
    requires IsTag(tag)
    ensures i < |CodeRegexps| && CodeRegexps[i] == FenceOf(tag)
    ensures TickFree(tag + "\n")
  {
    i := if tag == "python" then 0 else if tag == " python" then 1 else 2;
  }

  /** A response with one code block and no other backtick holds two runs of three backticks. */
  lemma ResponseCount(pre: string, tag: string, code: string, post: string)
    requires IsTag(tag) && TickFree(pre) && TickFree(code) && TickFree(post)
    ensures PyText.Count(Response(pre, tag, code, post), "```") == 2
  {
    var _ := TagFence(tag);
    TickFreeConcat(tag + "\n", code);
    TickFreeConcat(tag + "\n" + code, "\n");
    var mid := tag + "\n" + code + "\n";
    assert Response(pre, tag, code, post) == pre + "```" + mid + "```" + post;
    CountTwo(pre, mid, post);
  }

  /**
   * Round trip: a response whose only backticks are those of one code block,
   * tagged `python`, ` python` or nothing, gives back the block's code,
   * stripped.
   */
  lemma ExtractRoundTrip(pre: string, tag: string, code: string, post: string)
    requires IsTag(tag) && TickFree(pre) && TickFree(code) && TickFree(post)
    ensures Extracted(Response(pre, tag, code, post)) == Success(PyText.Strip(code))
  {
    var f := FenceOf(tag);
    var i := TagFence(tag);
    var s := pre + f.open + code + f.close + post;
    var c := |pre| + |f.open| + |code| + 1;
    assert Response(pre, tag, code, post) == s;
    ResponseCount(pre, tag, code, post);
    BlockShape(pre, f, code, post);
    ExtractFromBlock(s, |pre|, c, i);
    assert s[|pre| + |CodeRegexps[i].open|..c - 1] == code;
  }

  // ---------------------------------------------------------------------------
  // The runner: deleting, running and reading
  // ---------------------------------------------------------------------------

  /** `CodeRunner(response, output_file, script_file)` */
  datatype Runner = Runner(response: string, outputFile: Option<string>, scriptFile: Option<string>)

  /** `CodeAndOutput(code, output)` */
  datatype CodeAndOutput = CodeAndOutput(code: string, output: Option<string>)

  /**
   * `run_code_from_file(code, script_file)`, which is not part of this model:
   * from the code, the script file and the files on disk, the files after the
   * run and the exception the run raised, if any.
   */
  type Program = (string, Option<string>, map<string, string>) -> (map<string, string>, Option<string>)

  /** `read_output_file`: nothing without an output file, its text when it exists, `FailedLoadingOutput` otherwise. */
  function OutputRead(outputFile: Option<string>, files: map<string, string>): (r: Result<Option<string>, CodeRunError>)
    ensures outputFile.None? ==> r == Success(None)
    ensures outputFile.Some? ==> (r.Success? <==> outputFile.value in files)
    ensures outputFile.Some? && r.Success? ==> r.value == Some(files[outputFile.value])
    ensures r.Failure? ==> r.error == FailedLoadingOutput
  {
    match outputFile
    case None => Success(None)
    case Some(p) => if p in files then Success(Some(files[p])) else Failure(FailedLoadingOutput)
  }

  /** `read_output_file` */
  method ReadOutputFile(runner: Runner, disk: Disk) returns (r: Result<Option<string>, CodeRunError>)
    ensures r == OutputRead(runner.outputFile, disk.files)
  {
    if runner.outputFile.None? {
      return Success(None);
    }
    var read := disk.Read(runner.outputFile.value);
    if read.Success? {
      r := Success(Some(read.value));
    } else {
      r := Failure(FailedLoadingOutput);
    }
  }

  /**
   * `delete_output_file` as written: `os.remove(self.output_file)`, with a
   * missing file tolerated; without an output file `os.remove(None)` raises
   * `TypeError`.
   */
  function OutputDeletedAsWritten(outputFile: Option<string>, files: map<string, string>): (r: Result<map<string, string>, CodeRunError>)
    ensures outputFile.None? <==> r == Failure(RemoveFailed(TypeError))
    ensures outputFile.Some? ==> r == Success(files - {outputFile.value})
  {
    match outputFile
    case None => Failure(RemoveFailed(TypeError))
    case Some(p) => Success(files - {p})
  }

  /** `delete_output_file` with the intended behaviour: without an output file there is nothing to delete. */
  function OutputDeleted(outputFile: Option<string>, files: map<string, string>): (r: map<string, string>)
    ensures outputFile.None? ==> r == files
    ensures outputFile.Some? ==> outputFile.value !in r && Shrunk(r, files)
    ensures outputFile.Some? ==> forall p | p in files && p != outputFile.value :: p in r
  {
    match outputFile
    case None => files
    case Some(p) => files - {p}
  }

  /** `delete_output_file`, the intended version. */
  method DeleteOutputFile(runner: Runner, disk: Disk)
    modifies disk
    ensures disk.files == OutputDeleted(runner.outputFile, old(disk.files))
  {
    if runner.outputFile.Some? {
      var removed := disk.Remove(runner.outputFile.value);
      // `FileNotFoundError` is passed over
    }
  }

  /** What is left after the code ran on `files`: the outcome and the files. */
  type Outcome = (Result<CodeAndOutput, CodeRunError>, map<string, string>)

  /** The run and the read that follow the deletion. */
  function RunAndRead(runner: Runner, code: string, files: map<string, string>, run: Program): (o: Outcome)
    ensures o.1 == run(code, runner.scriptFile, files).0
  {
    var (after, raised) := run(code, runner.scriptFile, files);
    if raised.Some? then (Failure(RunFailed(raised.value)), after)
    else match OutputRead(runner.outputFile, after)
      case Failure(e) => (Failure(e), after)
      case Success(output) => (Success(CodeAndOutput(code, output)), after)
  }

  /** `run_code` as written: an absent output file makes the deletion raise before the code runs. */
  function RanCodeAsWritten(runner: Runner, files: map<string, string>, run: Program): (o: Outcome) {
    match Extracted(runner.response)
    case Failure(e) => (Failure(e), files)
    case Success(code) =>
      match OutputDeletedAsWritten(runner.outputFile, files)
      case Failure(e) => (Failure(e), files)
      case Success(cleared) => RunAndRead(runner, code, cleared, run)
  }

  /** `run_code` with the intended deletion: extract, delete the old output file, run, read. */
  function RanCode(runner: Runner, files: map<string, string>, run: Program): (o: Outcome) {
    match Extracted(runner.response)
    case Failure(e) => (Failure(e), files)
    case Success(code) => RunAndRead(runner, code, OutputDeleted(runner.outputFile, files), run)
  }

  /** `run_code` */
  method RunCode(runner: Runner, disk: Disk, run: Program) returns (r: Result<CodeAndOutput, CodeRunError>)
    modifies disk
    ensures (r, disk.files) == RanCode(runner, old(disk.files), run)
  {
    var code := ExtractCode(runner.response);
    if code.Failure? {
      return Failure(code.error);
    }
    DeleteOutputFile(runner, disk);
    var (after, raised) := run(code.value, runner.scriptFile, disk.files);
    disk.files := after;
    if raised.Some? {
      return Failure(RunFailed(raised.value));
    }
    var output := ReadOutputFile(runner, disk);
    if output.Failure? {
      return Failure(output.error);
    }
    r := Success(CodeAndOutput(code.value, output.value));
  }

  /**
   * A code run fails without touching the disk when no code can be extracted;
   * when it succeeds, its code is the extracted code and its output is the
   * output file as the code left it (nothing without an output file).
   */
  lemma RanCodeSpec(runner: Runner, files: map<string, string>, run: Program)
    ensures Extracted(runner.response).Failure? ==>
      RanCode(runner, files, run) == (Failure(Extracted(runner.response).error), files)
    ensures RanCode(runner, files, run).0.Success? ==>
      && Extracted(runner.response).Success?
      && RanCode(runner, files, run).0.value.code == Extracted(runner.response).value
      && (runner.outputFile.None? ==> RanCode(runner, files, run).0.value.output.None?)
      && (runner.outputFile.Some? ==>
            && runner.outputFile.value in RanCode(runner, files, run).1
            && RanCode(runner, files, run).0.value.output == Some(RanCode(runner, files, run).1[runner.outputFile.value]))
  {
  }

  /**
   * An output file left over from an earlier run is never read back: when the
   * code, run on the files without it, does not write it again, the run fails
   * with `FailedLoadingOutput`.
   */
  lemma StaleOutputNotRead(runner: Runner, files: map<string, string>, run: Program)
    requires Extracted(runner.response).Success? && runner.outputFile.Some?
    requires var code := Extracted(runner.response).value;
      var (after, raised) := run(code, runner.scriptFile, files - {runner.outputFile.value});
      raised.None? && runner.outputFile.value !in after
    ensures RanCode(runner, files, run).0 == Failure(FailedLoadingOutput)
  {
  }

  /** As written, a runner without an output file never succeeds, whatever its response and its code do. */
  lemma NoOutputFileFailsAsWritten(runner: Runner, files: map<string, string>, run: Program)
    requires runner.outputFile.None? && Extracted(runner.response).Success?
    ensures RanCodeAsWritten(runner, files, run) == (Failure(RemoveFailed(TypeError)), files)
  {
  }

  /**
   * With the intended deletion, a runner without an output file gives the
   * extracted code and no output whenever its code runs without an exception.
   */
  lemma NoOutputFileRuns(runner: Runner, files: map<string, string>, run: Program)
    requires runner.outputFile.None? && Extracted(runner.response).Success?
    requires run(Extracted(runner.response).value, runner.scriptFile, files).1.None?
    ensures RanCode(runner, files, run).0 == Success(CodeAndOutput(Extracted(runner.response).value, None))
  {
  }

  /** With an output file, the intended and the as-written runs agree. */
  lemma AsWrittenAgreesWithOutputFile(runner: Runner, files: map<string, string>, run: Program)
    requires runner.outputFile.Some?
    ensures RanCodeAsWritten(runner, files, run) == RanCode(runner, files, run)
  {
  }
}

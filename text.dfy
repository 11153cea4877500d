/** String helpers the nodes rely on, written out because Python's `str`
    methods are not available: ASCII lower-casing (`str.lower`), whitespace
    stripping (`str.strip`), substring containment (`sub in s`), keyword
    search (`any(k in s for k in keywords)`) and `sep.join(parts)`. */
module Text {

  // ---------------------------------------------------------------------------
  // Lower-casing

  /** `c.lower()` restricted to ASCII: 'A'..'Z' become 'a'..'z', every other
      character is kept. */
  function LowerChar(c: char): char
  {
    if 'A' <= c <= 'Z' then (c as int + 32) as char else c
  }

  /** `s.lower()`, character by character. */
  function Lower(s: string): (r: string)
    ensures |r| == |s|
    ensures forall i :: 0 <= i < |s| ==> r[i] == LowerChar(s[i])
  {
    if s == [] then [] else [LowerChar(s[0])] + Lower(s[1..])
  }

  /** Lower-casing works piece by piece. */
  lemma LowerConcat(a: string, b: string)
    ensures Lower(a + b) == Lower(a) + Lower(b)
  {
    forall k | 0 <= k < |a + b| ensures Lower(a + b)[k] == (Lower(a) + Lower(b))[k] {
      if k >= |a| { assert (a + b)[k] == b[k - |a|]; }
    }
  }

  // ---------------------------------------------------------------------------
  // Whitespace stripping

  /** The characters `str.strip()` removes that are ASCII: space, \t, \n,
      \v, \f, \r and the four separators \x1c..\x1f. */
  predicate IsSpace(c: char)
  {
    c == ' ' || '\t' <= c <= '\r' || '\U{1c}' <= c <= '\U{1f}'
  }

  predicate AllSpace(s: string)
  {
    forall i :: 0 <= i < |s| ==> IsSpace(s[i])
  }

  /** Index of the first non-whitespace character at or after `from`
      (or `|s|` when there is none). */
  function SkipSpace(s: string, from: nat): (i: nat)
    requires from <= |s|
    ensures from <= i <= |s|
    ensures AllSpace(s[from..i])
    ensures i < |s| ==> !IsSpace(s[i])
    decreases |s| - from
  {
    if from < |s| && IsSpace(s[from]) then SkipSpace(s, from + 1) else from
  }

  /** The end of `s[lo..hi]` once trailing whitespace is dropped. */
  function SkipSpaceBack(s: string, lo: nat, hi: nat): (j: nat)
    requires lo <= hi <= |s|
    ensures lo <= j <= hi
    ensures AllSpace(s[j..hi])
    ensures lo < j ==> !IsSpace(s[j - 1])
    decreases hi
  {
    if lo < hi && IsSpace(s[hi - 1]) then
      var j := SkipSpaceBack(s, lo, hi - 1);
      assert s[j..hi] == s[j..hi - 1] + [s[hi - 1]];
      j
    else hi
  }

  /** `s.strip()`: what is left starts and ends with a non-space. */
  function Strip(s: string): (r: string)
    ensures |r| <= |s|
    ensures r == [] || (!IsSpace(r[0]) && !IsSpace(r[|r| - 1]))
  {
    var i := SkipSpace(s, 0);
    s[i..SkipSpaceBack(s, i, |s|)]
  }

  // ---------------------------------------------------------------------------
  // Substring containment

  /** `sub` occurs in `s` starting at index `i`. */
  ghost predicate OccursAt(s: string, sub: string, i: int)
  {
    0 <= i && i + |sub| <= |s| && s[i..i + |sub|] == sub
  }

  /** `sub[k..]` matches `s` from index `i + k` on. */
  function MatchFrom(s: string, sub: string, i: nat, k: nat): bool
    requires i + |sub| <= |s|
    decreases |sub| - k
  {
    k >= |sub| || (s[i + k] == sub[k] && MatchFrom(s, sub, i, k + 1))
  }

  /** Python's `sub in s`, searching from index `from` on. */
  function ContainsFrom(s: string, sub: string, from: nat): (r: bool)
    ensures r ==> from + |sub| <= |s|
    decreases |s| - from
  {
    if from + |sub| > |s| then false
    else if MatchFrom(s, sub, from, 0) then true
    else ContainsFrom(s, sub, from + 1)
  }

  /** Python's `sub in s` for strings. */
  function Contains(s: string, sub: string): (r: bool)
    ensures r ==> |sub| <= |s|
    ensures sub == [] ==> r
  {
    ContainsFrom(s, sub, 0)
  }

  /** `any(k in s for k in keywords[from..])`. */
  function ContainsAnyFrom(s: string, keywords: seq<string>, from: nat): bool
    decreases |keywords| - from
  {
    from < |keywords| && (Contains(s, keywords[from]) || ContainsAnyFrom(s, keywords, from + 1))
  }

  /** `any(k in s for k in keywords)`. */
  function ContainsAny(s: string, keywords: seq<string>): bool
  {
    ContainsAnyFrom(s, keywords, 0)
  }

  // ---------------------------------------------------------------------------
  // Joining

  /** `sep.join(parts)`. */
  function Join(sep: string, parts: seq<string>): string
  {
    if parts == [] then ""
    else if |parts| == 1 then parts[0]
    else parts[0] + sep + Join(sep, parts[1..])
  }

  // ---------------------------------------------------------------------------
  // What the helpers mean

  /** `MatchFrom` compares `sub[k..]` with `s` one character at a time. */
  lemma {:induction false} MatchFromIff(s: string, sub: string, i: nat, k: nat)
    requires i + |sub| <= |s|
    ensures MatchFrom(s, sub, i, k) <==> forall j :: k <= j < |sub| ==> s[i + j] == sub[j]
    decreases |sub| - k
  {
    if k < |sub| {
      MatchFromIff(s, sub, i, k + 1);
    }
  }

  /** `ContainsFrom` finds exactly the occurrences at or after `from`. */
  lemma {:induction false} ContainsFromIff(s: string, sub: string, from: nat)
    ensures ContainsFrom(s, sub, from) <==> exists i :: from <= i && OccursAt(s, sub, i)
    decreases |s| - from
  {
    if from + |sub| <= |s| {
      MatchFromIff(s, sub, from, 0);
      if OccursAt(s, sub, from) {
        forall j | 0 <= j < |sub| ensures s[from + j] == sub[j] {
          assert s[from..from + |sub|][j] == s[from + j];
        }
      }
      ContainsFromIff(s, sub, from + 1);
    }
  }

  /** Python's `sub in s` holds exactly when `sub` occurs at some index of `s`. */
  lemma ContainsIff(s: string, sub: string)
    ensures Contains(s, sub) <==> exists i :: OccursAt(s, sub, i)
  {
    ContainsFromIff(s, sub, 0);
  }

  /** An occurrence survives putting text before and after. */
  lemma ContainsWithin(pre: string, s: string, post: string, sub: string)
    requires Contains(s, sub)
    ensures Contains(pre + s + post, sub)
  {
    ContainsIff(s, sub);
    var i :| OccursAt(s, sub, i);
    var t := pre + s + post;
    assert t[|pre| + i..|pre| + i + |sub|] == s[i..i + |sub|];
    assert OccursAt(t, sub, |pre| + i);
    ContainsIff(t, sub);
  }

  /** Every string contains itself. */
  lemma ContainsSelf(s: string)
    ensures Contains(s, s)
  {
    assert OccursAt(s, s, 0);
    ContainsIff(s, s);
  }

  /** An occurrence survives putting text after. */
  lemma ContainsAppend(s: string, post: string, sub: string)
    requires Contains(s, sub)
    ensures Contains(s + post, sub)
  {
    ContainsIff(s, sub);
    var i :| OccursAt(s, sub, i);
    assert (s + post)[i..i + |sub|] == s[i..i + |sub|];
    assert OccursAt(s + post, sub, i);
    ContainsIff(s + post, sub);
  }

  /** An occurrence survives putting text before. */
  lemma ContainsPrepend(pre: string, s: string, sub: string)
    requires Contains(s, sub)
    ensures Contains(pre + s, sub)
  {
    ContainsIff(s, sub);
    var i :| OccursAt(s, sub, i);
    assert (pre + s)[|pre| + i..|pre| + i + |sub|] == s[i..i + |sub|];
    assert OccursAt(pre + s, sub, |pre| + i);
    ContainsIff(pre + s, sub);
  }

  /** A string missing one of the characters of `sub` does not contain it. */
  lemma AbsentChar(s: string, sub: string, k: nat)
    requires k < |sub| && sub[k] !in s
    ensures !Contains(s, sub)
  {
    ContainsIff(s, sub);
  }

  /** `any(...)` is true exactly when some keyword occurs. */
  lemma {:induction false} ContainsAnyFromIff(s: string, keywords: seq<string>, from: nat)
    ensures ContainsAnyFrom(s, keywords, from) <==>
            exists k :: from <= k < |keywords| && Contains(s, keywords[k])
    decreases |keywords| - from
  {
    if from < |keywords| {
      ContainsAnyFromIff(s, keywords, from + 1);
    }
  }

  lemma ContainsAnyIff(s: string, keywords: seq<string>)
    ensures ContainsAny(s, keywords) <==> exists k :: 0 <= k < |keywords| && Contains(s, keywords[k])
  {
    ContainsAnyFromIff(s, keywords, 0);
  }

  /** Lower-casing leaves a string without capitals as it is. */
  lemma LowerWithoutCapitals(s: string)
    requires forall c :: c in s ==> !('A' <= c <= 'Z')
    ensures Lower(s) == s
  {
    assert forall i :: 0 <= i < |s| ==> s[i] in s;
  }

  /** `SkipSpace` stops at the first non-whitespace character, wherever it is. */
  lemma {:induction false} SkipSpaceAt(s: string, from: nat, i: nat)
    requires from <= i <= |s| && AllSpace(s[from..i])
    requires i < |s| ==> !IsSpace(s[i])
    ensures SkipSpace(s, from) == i
    decreases i - from
  {
    if from < i {
      assert s[from..i][0] == s[from];
      assert s[from + 1..i] == s[from..i][1..];
      SkipSpaceAt(s, from + 1, i);
    }
  }

  /** `SkipSpaceBack` stops after the last non-whitespace character. */
  lemma {:induction false} SkipSpaceBackAt(s: string, lo: nat, hi: nat, j: nat)
    requires lo <= j <= hi <= |s| && AllSpace(s[j..hi])
    requires lo < j ==> !IsSpace(s[j - 1])
    ensures SkipSpaceBack(s, lo, hi) == j
    decreases hi - j
  {
    if j < hi {
      assert s[j..hi][hi - 1 - j] == s[hi - 1];
      assert s[j..hi - 1] == s[j..hi][..hi - 1 - j];
      SkipSpaceBackAt(s, lo, hi - 1, j);
    }
  }

  /** `strip` removes exactly the whitespace padding around a core that
      starts and ends with a non-space character. */
  lemma StripPadded(pre: string, core: string, post: string)
    requires AllSpace(pre) && AllSpace(post)
    requires core == [] || (!IsSpace(core[0]) && !IsSpace(core[|core| - 1]))
    ensures Strip(pre + core + post) == core
  {
    var s := pre + core + post;
    if core == [] {
      assert s[0..|s|] == pre + post;
      SkipSpaceAt(s, 0, |s|);
    } else {
      assert s[0..|pre|] == pre;
      SkipSpaceAt(s, 0, |pre|);
      assert s[|pre| + |core|..|s|] == post;
      SkipSpaceBackAt(s, |pre|, |s|, |pre| + |core|);
      assert s[|pre|..|pre| + |core|] == core;
    }
  }

  /** A blank string strips to nothing. */
  lemma StripBlank(s: string)
    ensures AllSpace(s) ==> Strip(s) == []
  {
    if AllSpace(s) {
      StripPadded(s, [], []);
      assert s + [] + [] == s;
    }
  }

  /** Stripping twice is stripping once. */
  lemma StripIdempotent(s: string)
    ensures Strip(Strip(s)) == Strip(s)
  {
    StripPadded([], Strip(s), []);
    assert [] + Strip(s) + [] == Strip(s);
  }

  /** Whitespace followed by whitespace is whitespace. */
  lemma AllSpaceConcat(a: string, b: string)
    requires AllSpace(a) && AllSpace(b)
    ensures AllSpace(a + b)
  {
    forall k | 0 <= k < |a + b| ensures IsSpace((a + b)[k]) {
      if k >= |a| { assert (a + b)[k] == b[k - |a|]; }
    }
  }

  /** Cutting `s` at `i` and `j` and moving the outer pieces into the
      padding gives back the same text. */
  lemma Regroup(pre: string, s: string, post: string, i: nat, j: nat)
    requires i <= j <= |s|
    ensures pre + s + post == (pre + s[0..i]) + s[i..j] + (s[j..|s|] + post)
  {
    assert s == s[0..i] + s[i..j] + s[j..|s|];
  }

  /** Extra whitespace around a string does not change what `strip` keeps. */
  lemma StripIgnoresPadding(pre: string, s: string, post: string)
    requires AllSpace(pre) && AllSpace(post)
    ensures Strip(pre + s + post) == Strip(s)
  {
    var i := SkipSpace(s, 0);
    var j := SkipSpaceBack(s, i, |s|);
    assert Strip(s) == s[i..j];
    AllSpaceConcat(pre, s[0..i]);
    AllSpaceConcat(s[j..|s|], post);
    Regroup(pre, s, post, i, j);
    StripPadded(pre + s[0..i], s[i..j], s[j..|s|] + post);
  }

  /** Every part appears verbatim in the joined string. */
  lemma {:induction false} JoinHasPart(sep: string, parts: seq<string>, k: nat)
    requires k < |parts|
    ensures Contains(Join(sep, parts), parts[k])
  {
    if |parts| == 1 || k == 0 {
      var j := Join(sep, parts);
      if |parts| == 1 {
        assert j == [] + parts[0] + [];
      } else {
        assert j == [] + parts[0] + (sep + Join(sep, parts[1..]));
      }
      ContainsIff(parts[0], parts[0]);
      assert OccursAt(parts[0], parts[0], 0);
      ContainsWithin([], parts[0], if |parts| == 1 then [] else sep + Join(sep, parts[1..]), parts[0]);
    } else {
      JoinHasPart(sep, parts[1..], k - 1);
      ContainsWithin(parts[0] + sep, Join(sep, parts[1..]), [], parts[k]);
      assert Join(sep, parts) == parts[0] + sep + Join(sep, parts[1..]) + [];
    }
  }
}

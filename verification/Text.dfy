/**
 The part of the string library that the transcript scanner relies on: first occurrence,
 prefix test and white-space trimming, with the lemmas that place a marker inside a text.
 */
module Text {
  import opened Common

  /** Index of the first occurrence of `p` in `s`. */
  function Find(s: string, p: string): (r: Option<nat>)
    ensures r.Some? ==> r.value + |p| <= |s| && StartsWith(s[r.value..], p)
  {
    if p <= s then Some(0)
    else if s == "" then None
    else
      match Find(s[1..], p)
      case Some(i) => Some(i + 1)
      case None => None
  }

  predicate StartsWith(s: string, p: string)
    ensures StartsWith(s, p) ==> |p| <= |s|
  {
    p <= s
  }

  predicate Contains(s: string, p: string) {
    Find(s, p).Some?
  }

  /** What is found is the first occurrence: nothing starts before it, and nothing at all if none is found. */
  lemma {:induction false} NoneBefore(s: string, p: string, j: nat)
    requires j <= |s| && (Find(s, p).Some? ==> j < Find(s, p).value)
    ensures !(p <= s[j..])
  {
    if j == 0 {
      assert s[0..] == s;
    } else {
      NoneBefore(s[1..], p, j - 1);
      assert s[j..] == s[1..][j - 1..];
    }
  }

  /** A first occurrence is determined by being an occurrence with none before it. */
  lemma {:induction false} FindIsFirst(s: string, p: string, i: nat)
    requires i <= |s| && p <= s[i..]
    requires forall j: nat :: j < i ==> !(p <= s[j..])
    ensures Find(s, p) == Some(i)
  {
    if i == 0 {
      assert s[0..] == s;
    } else {
      assert s[0..] == s;
      forall j: nat | j < i - 1
        ensures !(p <= s[1..][j..])
      {
        assert s[1..][j..] == s[j + 1..];
      }
      assert s[1..][i - 1..] == s[i..];
      FindIsFirst(s[1..], p, i - 1);
    }
  }

  lemma FindNotBefore(s: string, p: string, c: nat)
    requires Find(s, p).Some? && c <= |s|
    requires forall j: nat :: j < c ==> !(p <= s[j..])
    ensures c <= Find(s, p).value
  {
    assert p <= s[Find(s, p).value..];
  }

  /** A text in which no occurrence starts anywhere does not contain the pattern. */
  lemma HasNone(s: string, p: string)
    requires forall j: nat :: j <= |s| ==> !(p <= s[j..])
    ensures !Contains(s, p)
  {
  }

  /** The first character of a marker does not come back inside it, so it cannot overlap itself. */
  predicate Sharp(p: string) {
    |p| > 0 && forall k :: 0 < k < |p| ==> p[k] != p[0]
  }

  lemma PrefixChar(s: string, p: string, i: nat, k: nat)
    requires i <= |s| && p <= s[i..] && k < |p|
    ensures i + k < |s| && s[i + k] == p[k]
  {
    assert s[i..][k] == p[k];
  }

  /** `q` laid over `p` at offset `d` disagrees with it on some character that both cover. */
  predicate Mismatch(p: string, q: string, d: nat) {
    exists x: nat :: d + x < |p| && x < |q| && p[d + x] != q[x]
  }

  /** No occurrence of `q` can start inside an occurrence of `p`. */
  predicate Apart(p: string, q: string) {
    forall d: nat :: d < |p| ==> Mismatch(p, q, d)
  }

  lemma MismatchRulesOut(s: string, p: string, q: string, i: nat, d: nat)
    requires i + d <= |s| && p <= s[i..] && Mismatch(p, q, d)
    ensures !(q <= s[i + d..])
  {
    var x: nat :| d + x < |p| && x < |q| && p[d + x] != q[x];
    PrefixChar(s, p, i, d + x);
    CharRulesOut(s, q, i + d, x);
  }

  /** One differing character rules an occurrence out. */
  lemma CharRulesOut(s: string, p: string, i: nat, k: nat)
    requires i + k < |s| && k < |p| && s[i + k] != p[k]
    ensures !(p <= s[i..])
  {
    assert s[i..][k] == s[i + k];
  }

  /** An occurrence inside a piece of a text is an occurrence in the text, and the other way round. */
  lemma OccurrenceInSlice(s: string, p: string, i: nat, j: nat, k: nat)
    requires i + k <= j <= |s|
    ensures p <= s[i..j][k..] <==> p <= s[i + k..] && i + k + |p| <= j
  {
    assert s[i + k..] == s[i..j][k..] + s[j..];
  }

  /** The same read backwards: where `q` stands, no overlapping occurrence of `p` can have started. */
  lemma MismatchRulesOutBefore(s: string, p: string, q: string, i: nat, d: nat)
    requires i + d <= |s| && q <= s[i + d..] && Mismatch(p, q, d)
    ensures !(p <= s[i..])
  {
    var x: nat :| d + x < |p| && x < |q| && p[d + x] != q[x];
    PrefixChar(s, q, i + d, x);
    CharRulesOut(s, p, i, d + x);
  }

  /** Text in which no occurrence starts can be skipped by a search. */
  lemma FindSkips(pre: string, s: string, p: string)
    requires forall j: nat :: j < |pre| ==> !(p <= (pre + s)[j..])
    ensures Find(pre + s, p) == match Find(s, p) case None => None case Some(i) => Some(|pre| + i)
  {
    hide Find;
    var t := pre + s;
    var n := |pre| + if Find(s, p).Some? then Find(s, p).value else |s| + 1;
    forall j: nat | j < n && j <= |t|
      ensures !(p <= t[j..])
    {
      if |pre| <= j {
        NoneBefore(s, p, j - |pre|);
        assert t[j..] == s[j - |pre|..];
      }
    }
    if Find(s, p).Some? {
      assert t[n..] == s[n - |pre|..];
      FindIsFirst(t, p, n);
    } else {
      HasNone(t, p);
    }
  }

  /** No occurrence of a marker straddles the end of the text before it. */
  lemma FindMarker(pre: string, p: string, rest: string)
    requires Sharp(p) && !Contains(pre, p)
    ensures Find(pre + (p + rest), p) == Some(|pre|)
  {
    var s := pre + (p + rest);
    assert s[|pre|..] == p + rest;
    forall j: nat | j < |pre|
      ensures !(p <= s[j..])
    {
      if j + |p| <= |pre| {
        NoneBefore(pre, p, j);
        OccurrenceInSlice(s, p, 0, |pre|, j);
        assert s[0..|pre|] == pre;
      } else {
        CharRulesOut(s, p, j, |pre| - j);
      }
    }
    FindIsFirst(s, p, |pre|);
  }

  /** A piece of a text without the marker has no marker either. */
  lemma SliceHasNone(s: string, p: string, i: nat, j: nat)
    requires i <= j <= |s| && !Contains(s, p)
    ensures !Contains(s[i..j], p)
  {
    forall k: nat | k <= j - i
      ensures !(p <= s[i..j][k..])
    {
      NoneBefore(s, p, i + k);
      OccurrenceInSlice(s, p, i, j, k);
    }
    HasNone(s[i..j], p);
  }

  /** The text before the first occurrence holds no occurrence. */
  lemma BeforeFirstHasNone(s: string, p: string)
    requires Find(s, p).Some? && |p| > 0
    ensures !Contains(s[..Find(s, p).value], p)
  {
    var n := Find(s, p).value;
    assert s[0..n] == s[..n];
    forall k: nat | k <= n
      ensures !(p <= s[..n][k..])
    {
      if k < n {
        NoneBefore(s, p, k);
      }
      OccurrenceInSlice(s, p, 0, n, k);
    }
    HasNone(s[..n], p);
  }

  lemma Drop(a: string, b: string)
    ensures (a + b)[|a|..] == b && (a + b)[..|a|] == a
  {
  }

  /** White space as `char::is_whitespace` has it: the Unicode property White_Space. */
  predicate IsSpace(c: char) {
    '\t' <= c <= '\r' || c == ' ' || c == '\U{85}' || c == '\U{A0}' || c == '\U{1680}' ||
    '\U{2000}' <= c <= '\U{200A}' || c == '\U{2028}' || c == '\U{2029}' ||
    c == '\U{202F}' || c == '\U{205F}' || c == '\U{3000}'
  }

  function TrimStart(s: string): (r: string)
    ensures |r| <= |s| && r == s[|s| - |r|..]
    ensures forall k :: 0 <= k < |s| - |r| ==> IsSpace(s[k])
    ensures r == "" || !IsSpace(r[0])
  {
    if s != "" && IsSpace(s[0]) then TrimStart(s[1..]) else s
  }

  function TrimEnd(s: string): (r: string)
    ensures |r| <= |s| && r == s[..|r|]
    ensures forall k :: |r| <= k < |s| ==> IsSpace(s[k])
    ensures r == "" || !IsSpace(r[|r| - 1])
  {
    if s != "" && IsSpace(s[|s| - 1]) then TrimEnd(s[..|s| - 1]) else s
  }

  function Trim(s: string): (r: string) {
    TrimEnd(TrimStart(s))
  }

  predicate Trimmed(s: string) {
    s == "" || (!IsSpace(s[0]) && !IsSpace(s[|s| - 1]))
  }

  /** Trimming cuts a slice out of the text and leaves trimmed text alone. */
  lemma TrimIsSlice(s: string) returns (i: nat, j: nat)
    ensures i <= j <= |s| && Trim(s) == s[i..j] && Trimmed(Trim(s))
    ensures forall k :: 0 <= k < i || j <= k < |s| ==> IsSpace(s[k])
  {
    hide IsSpace, TrimStart, TrimEnd;
    var t := TrimStart(s);
    var r := Trim(s);
    i := |s| - |t|;
    j := i + |r|;
    assert r == s[i..j];
  }

  lemma TrimKeepsTrimmed(s: string)
    requires Trimmed(s)
    ensures Trim(s) == s
  {
  }

  lemma TrimHasNone(s: string, p: string)
    requires !Contains(s, p)
    ensures !Contains(Trim(s), p)
  {
    var i, j := TrimIsSlice(s);
    SliceHasNone(s, p, i, j);
  }
}

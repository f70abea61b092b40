/**
 * Character classes and the small string operations the source takes from
 * Python: `str.strip()`, `str.split()`, `str.startswith()` and the regular
 * expression fragment `\s*(\S*)\s*$` that both line grammars end with.
 */
module Text {
  import opened Errors

  /** Python's whitespace: what `str.isspace()`, `str.strip()`, `str.split()` and `\s` accept. */
  predicate IsSpace(c: char) {
    || ('\t' <= c <= '\r')
    || ('\U{1C}' <= c <= ' ')
    || c == '\U{85}' || c == '\U{A0}' || c == '\U{1680}'
    || ('\U{2000}' <= c <= '\U{200A}')
    || c == '\U{2028}' || c == '\U{2029}' || c == '\U{202F}' || c == '\U{205F}' || c == '\U{3000}'
  }

  predicate AllSpace(s: string) {
    forall i :: 0 <= i < |s| ==> IsSpace(s[i])
  }

  predicate NoSpace(s: string) {
    forall i :: 0 <= i < |s| ==> !IsSpace(s[i])
  }

  predicate StartsWith(s: string, prefix: string) {
    |prefix| <= |s| && s[..|prefix|] == prefix
  }

  /** `x` does not start with `p` because they differ at position `i`. */
  lemma {:induction false} CharDiffers(x: string, p: string, i: nat)
    requires i < |x| && i < |p| && x[i] != p[i]
    ensures !StartsWith(x, p)
  {
    if |p| <= |x| {
      assert x[..|p|][i] == x[i];
    }
  }

  /** The length of the longest all-whitespace prefix of `s`. */
  function LeadingSpaces(s: string): (n: nat)
    ensures n <= |s|
    ensures AllSpace(s[..n])
    ensures n < |s| ==> !IsSpace(s[n])
  {
    if s == [] || !IsSpace(s[0]) then 0
    else
      var m := LeadingSpaces(s[1..]);
      assert s[..m + 1] == [s[0]] + s[1..][..m];
      AllSpaceConcat([s[0]], s[1..][..m]);
      assert m + 1 < |s| ==> s[m + 1] == s[1..][m];
      m + 1
  }

  /** The length of the longest whitespace-free prefix of `s`. */
  function TokenLength(s: string): (n: nat)
    ensures n <= |s|
    ensures NoSpace(s[..n])
    ensures n < |s| ==> IsSpace(s[n])
  {
    if s == [] || IsSpace(s[0]) then 0
    else
      var m := TokenLength(s[1..]);
      assert s[..m + 1] == [s[0]] + s[1..][..m];
      NoSpaceConcat([s[0]], s[1..][..m]);
      assert m + 1 < |s| ==> s[m + 1] == s[1..][m];
      m + 1
  }

  /** The length of the longest all-whitespace suffix of `s`. */
  function TrailingSpaces(s: string): (n: nat)
    ensures n <= |s|
    ensures AllSpace(s[|s| - n..])
    ensures n < |s| ==> !IsSpace(s[|s| - n - 1])
  {
    if s == [] || !IsSpace(s[|s| - 1]) then 0
    else
      var init := s[..|s| - 1];
      var m := TrailingSpaces(init);
      assert s[|s| - (m + 1)..] == init[|init| - m..] + [s[|s| - 1]];
      AllSpaceConcat(init[|init| - m..], [s[|s| - 1]]);
      assert m + 1 < |s| ==> s[|s| - (m + 1) - 1] == init[|init| - m - 1];
      m + 1
  }

  /** `s.strip()`: `s` with surrounding whitespace removed. */
  function Strip(s: string): (r: string)
    ensures r == [] || (!IsSpace(r[0]) && !IsSpace(r[|r| - 1]))
    ensures r == [] ==> AllSpace(s)
    ensures StrippedAt(s, LeadingSpaces(s), r)
  {
    var i := LeadingSpaces(s);
    var t := s[i..];
    var r := t[..|t| - TrailingSpaces(t)];
    StripShape(s, i, t, r);
    r
  }

  /** `r` sits in `s` at `i` with nothing but whitespace around it. */
  predicate StrippedAt(s: string, i: nat, r: string) {
    i + |r| <= |s| && s[i..i + |r|] == r && AllSpace(s[..i]) && AllSpace(s[i + |r|..])
  }

  lemma {:induction false} StripShape(s: string, i: nat, t: string, r: string)
    requires i == LeadingSpaces(s) && t == s[i..] && r == t[..|t| - TrailingSpaces(t)]
    ensures r == [] || (!IsSpace(r[0]) && !IsSpace(r[|r| - 1]))
    ensures r == [] ==> AllSpace(s)
    ensures StrippedAt(s, i, r)
  {
    var j := TrailingSpaces(t);
    assert s[i..i + |r|] == r;
    assert s[i + |r|..] == t[|t| - j..];
    if r != [] {
      assert r[0] == s[i];
      assert r[|r| - 1] == t[|t| - j - 1];
    } else {
      assert t == t[|t| - j..];
      assert s == s[..i] + t;
      AllSpaceConcat(s[..i], t);
    }
  }

  lemma {:induction false} AllSpaceConcat(a: string, b: string)
    requires AllSpace(a) && AllSpace(b)
    ensures AllSpace(a + b)
  {
    forall k | 0 <= k < |a + b| ensures IsSpace((a + b)[k]) {
      if k < |a| { assert (a + b)[k] == a[k]; } else { assert (a + b)[k] == b[k - |a|]; }
    }
  }

  lemma {:induction false} NoSpaceConcat(a: string, b: string)
    requires NoSpace(a) && NoSpace(b)
    ensures NoSpace(a + b)
  {
    forall k | 0 <= k < |a + b| ensures !IsSpace((a + b)[k]) {
      if k < |a| { assert (a + b)[k] == a[k]; } else { assert (a + b)[k] == b[k - |a|]; }
    }
  }

  /** A string that neither starts nor ends with whitespace is its own `strip()`. */
  lemma {:induction false} StripUnchanged(s: string)
    requires s != [] && !IsSpace(s[0]) && !IsSpace(s[|s| - 1])
    ensures Strip(s) == s
  {
    assert LeadingSpaces(s) == 0;
    assert s[0..] == s;
    assert TrailingSpaces(s) == 0;
  }

  /** `s.split()`: the maximal whitespace-free runs of `s`, in order. */
  function Fields(s: string): (fields: seq<string>)
    ensures forall i :: 0 <= i < |fields| ==> fields[i] != [] && NoSpace(fields[i])
    decreases |s|
  {
    var w := LeadingSpaces(s);
    if w == |s| then []
    else
      var rest := s[w..];
      var n := TokenLength(rest);
      [rest[..n]] + Fields(rest[n..])
  }

  /**
   * The anchored pattern `\s*(\S*)\s*$` applied to `s`, as Python's greedy
   * matcher applies it: the group is the whitespace-free run after the leading
   * whitespace, and the match fails if anything but whitespace follows it.
   */
  function MatchToken(s: string): (r: Option<string>)
    ensures r.Some? ==> NoSpace(r.value) && |r.value| <= |s|
  {
    var w := LeadingSpaces(s);
    var rest := s[w..];
    var n := TokenLength(rest);
    var tail := rest[n..];
    if LeadingSpaces(tail) == |tail| then Some(rest[..n]) else None
  }

  /** A successful match splits `s` into whitespace, the token and whitespace. */
  lemma {:induction false} MatchTokenSound(s: string)
    requires MatchToken(s).Some?
    ensures var t := MatchToken(s).value; var i := LeadingSpaces(s);
      s == s[..i] + t + s[i + |t|..] && AllSpace(s[..i]) && AllSpace(s[i + |t|..])
  {
    var i := LeadingSpaces(s);
    var n := TokenLength(s[i..]);
    var t := MatchToken(s).value;
    assert t == s[i..i + n] && LeadingSpaces(s[i + n..]) == |s[i + n..]| by {
      SliceOfSuffix(s, i, n);
    }
    AllLeadingSpaces(s[i + n..]);
    ThreeParts(s, i, i + n);
  }

  lemma {:induction false} SliceOfSuffix<T>(s: seq<T>, i: nat, n: nat)
    requires i + n <= |s|
    ensures s[i..][..n] == s[i..i + n] && s[i..][n..] == s[i + n..]
  {
  }

  lemma {:induction false} ThreeParts<T>(s: seq<T>, i: nat, j: nat)
    requires i <= j <= |s|
    ensures s == s[..i] + s[i..j] + s[j..]
  {
  }

  /** A string whose whitespace prefix is all of it is all whitespace. */
  lemma {:induction false} AllLeadingSpaces(s: string)
    requires LeadingSpaces(s) == |s|
    ensures AllSpace(s)
  {
    assert s[..|s|] == s;
  }

  /** Every whitespace / token / whitespace string matches, with that token. */
  lemma {:induction false} MatchTokenComplete(w1: string, t: string, w2: string)
    requires AllSpace(w1) && NoSpace(t) && AllSpace(w2)
    ensures MatchToken(w1 + t + w2) == Some(t)
  {
    var s := w1 + t + w2;
    var w := LeadingSpaces(s);
    if t == [] {
      assert AllSpace(s);
      assert w == |s|;
    } else {
      assert s[|w1|] == t[0];
      assert w == |w1|;
      var rest := s[w..];
      assert rest == t + w2;
      var n := TokenLength(rest);
      if w2 != [] {
        assert rest[|t|] == w2[0];
      }
      assert n == |t|;
      assert rest[n..] == w2;
    }
  }
}

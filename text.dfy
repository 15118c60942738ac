/** Whitespace trimming of an edit buffer, as Rust's `str::trim` does it:
    strip every leading and every trailing whitespace character. */
module Text {

  /** The code points carrying the Unicode White_Space property: the
      characters Rust's `char::is_whitespace` accepts. */
  predicate IsWhitespace(c: char)
  {
    c == ' ' || ('\t' <= c <= '\r') || c == '\U{85}' || c == '\U{A0}' ||
    c == '\U{1680}' || ('\U{2000}' <= c <= '\U{200A}') ||
    c == '\U{2028}' || c == '\U{2029}' || c == '\U{202F}' || c == '\U{205F}' ||
    c == '\U{3000}'
  }

  predicate AllWhitespace(s: string)
  {
    forall k :: 0 <= k < |s| ==> IsWhitespace(s[k])
  }

  /** Neither starts nor ends with whitespace (the empty string qualifies). */
  predicate Trimmed(s: string)
  {
    s == [] || (!IsWhitespace(s[0]) && !IsWhitespace(s[|s| - 1]))
  }

  /** How many whitespace characters `s` starts with: every character
      before that count is whitespace, the one at it (if any) is not. */
  function LeadingWhitespace(s: string): (n: nat)
    ensures n <= |s|
    ensures forall k :: 0 <= k < n ==> IsWhitespace(s[k])
    ensures n == |s| || !IsWhitespace(s[n])
    decreases |s|
  {
    if s != [] && IsWhitespace(s[0]) then 1 + LeadingWhitespace(s[1..]) else 0
  }

  /** How long `s` is without its trailing whitespace: every character from
      that length on is whitespace, the one just before it (if any) is not. */
  function LengthWithoutTrailing(s: string): (n: nat)
    ensures n <= |s|
    ensures forall k :: n <= k < |s| ==> IsWhitespace(s[k])
    ensures n == 0 || !IsWhitespace(s[n - 1])
    decreases |s|
  {
    if s != [] && IsWhitespace(s[|s| - 1]) then LengthWithoutTrailing(s[..|s| - 1]) else |s|
  }

  /** Rust's `str::trim`: drop the leading whitespace, then the trailing
      whitespace of what is left. */
  function Trim(s: string): (r: string)
    ensures Trimmed(r)
    ensures |r| <= |s|
    ensures r == [] <==> AllWhitespace(s)
  {
    var i := LeadingWhitespace(s);
    var t := s[i..];
    var j := LengthWithoutTrailing(t);
    TrimmedEnds(s, i, t, j);
    TrimmedEmpty(s, i, t, j);
    t[..j]
  }

  lemma TrimmedEnds(s: string, i: nat, t: string, j: nat)
    requires i == LeadingWhitespace(s) && t == s[i..] && j == LengthWithoutTrailing(t)
    ensures Trimmed(t[..j])
  {
    if j > 0 {
      assert t[..j][0] == t[0] == s[i];
      assert t[..j][j - 1] == t[j - 1];
    }
  }

  lemma TrimmedEmpty(s: string, i: nat, t: string, j: nat)
    requires i == LeadingWhitespace(s) && t == s[i..] && j == LengthWithoutTrailing(t)
    ensures j == 0 <==> AllWhitespace(s)
  {
    if t != [] {
      assert t[0] == s[i];
    }
  }

  /** Every string is its trimmed form padded on both sides with whitespace. */
  lemma TrimSplits(s: string) returns (lead: string, trail: string)
    ensures s == lead + Trim(s) + trail
    ensures AllWhitespace(lead) && AllWhitespace(trail)
  {
    var i := LeadingWhitespace(s);
    var t := s[i..];
    var j := LengthWithoutTrailing(t);
    lead, trail := s[..i], t[j..];
    assert Trim(s) == t[..j];
    SplitTwice(s, i, j);
  }

  lemma SplitTwice(s: string, i: nat, j: nat)
    requires i <= |s| && j <= |s| - i
    ensures s == s[..i] + s[i..][..j] + s[i..][j..]
  {
    var t := s[i..];
    assert t == t[..j] + t[j..];
    assert s == s[..i] + t;
  }

  /** Trimming removes exactly the whitespace padding and nothing else:
      together with TrimSplits this characterises Trim uniquely. */
  lemma TrimUnpads(lead: string, t: string, trail: string)
    requires AllWhitespace(lead) && AllWhitespace(trail) && Trimmed(t)
    ensures Trim(lead + t + trail) == t
  {
    var s := lead + t + trail;
    if t == [] {
      assert s == lead + trail;
      forall k | 0 <= k < |s| ensures IsWhitespace(s[k]) {
        if k < |lead| { assert s[k] == lead[k]; } else { assert s[k] == trail[k - |lead|]; }
      }
    } else {
      var u := t + trail;
      assert s == lead + u;
      assert u[0] == t[0];
      LeadingSkips(lead, u);
      assert s[|lead|..] == u;
      TrailingSkips(t, trail);
      assert u[..|t|] == t;
    }
  }

  lemma {:induction false} LeadingSkips(lead: string, u: string)
    requires AllWhitespace(lead)
    requires u == [] || !IsWhitespace(u[0])
    ensures LeadingWhitespace(lead + u) == |lead|
    decreases |lead|
  {
    if lead != [] {
      assert (lead + u)[0] == lead[0];
      assert (lead + u)[1..] == lead[1..] + u;
      LeadingSkips(lead[1..], u);
    }
  }

  lemma {:induction false} TrailingSkips(u: string, trail: string)
    requires AllWhitespace(trail)
    requires u == [] || !IsWhitespace(u[|u| - 1])
    ensures LengthWithoutTrailing(u + trail) == |u|
    decreases |trail|
  {
    if trail != [] {
      var trail' := trail[..|trail| - 1];
      assert (u + trail)[|u + trail| - 1] == trail[|trail| - 1];
      assert (u + trail)[..|u + trail| - 1] == u + trail';
      TrailingSkips(u, trail');
    }
  }

  /** Trimming twice is trimming once. */
  lemma TrimIdempotent(s: string)
    ensures Trim(Trim(s)) == Trim(s)
  {
    assert [] + Trim(s) + [] == Trim(s);
    TrimUnpads([], Trim(s), []);
  }
}

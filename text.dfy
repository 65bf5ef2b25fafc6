/**
 * The string operations both gates lean on, stated as JavaScript defines them:
 * String.prototype.trim, toLowerCase (ASCII letters only, see README),
 * a global single-character replace, and the browser's decoding of the five
 * character references the pages emit.
 */
module Text {

  /** JavaScript's WhiteSpace and LineTerminator characters: exactly what `trim` removes. */
  predicate IsWhitespace(c: char) {
    || c == '\t' || c == '\n' || c == '\U{B}' || c == '\U{C}' || c == '\r' || c == ' '
    || c == '\U{A0}' || c == '\U{1680}' || ('\U{2000}' <= c <= '\U{200A}')
    || c == '\U{2028}' || c == '\U{2029}' || c == '\U{202F}' || c == '\U{205F}'
    || c == '\U{3000}' || c == '\U{FEFF}'
  }

  predicate AllWhitespace(s: string) {
    forall i :: 0 <= i < |s| ==> IsWhitespace(s[i])
  }

  /** The index of the first character `trimStart` keeps, scanning forward from `i`. */
  function FirstKept(s: string, i: nat): (j: nat)
    requires i <= |s|
    ensures i <= j <= |s|
    decreases |s| - i
  {
    if i < |s| && IsWhitespace(s[i]) then FirstKept(s, i + 1) else i
  }

  /** The scan skips only whitespace and stops at the end or at a non-whitespace character. */
  lemma {:induction false} FirstKeptShape(s: string, i: nat)
    requires i <= |s|
    ensures forall k :: i <= k < FirstKept(s, i) ==> IsWhitespace(s[k])
    ensures FirstKept(s, i) == |s| || !IsWhitespace(s[FirstKept(s, i)])
    decreases |s| - i
  {
    if i < |s| && IsWhitespace(s[i]) {
      FirstKeptShape(s, i + 1);
    }
  }

  /** The end (exclusive) of what `trimEnd` keeps, scanning backward from `j`. */
  function EndKept(s: string, j: nat): (k: nat)
    requires j <= |s|
    ensures k <= j
  {
    if j > 0 && IsWhitespace(s[j - 1]) then EndKept(s, j - 1) else j
  }

  /** The backward scan skips only whitespace and stops at the start or after a non-whitespace character. */
  lemma {:induction false} EndKeptShape(s: string, j: nat)
    requires j <= |s|
    ensures forall k :: EndKept(s, j) <= k < j ==> IsWhitespace(s[k])
    ensures EndKept(s, j) == 0 || !IsWhitespace(s[EndKept(s, j) - 1])
  {
    if j > 0 && IsWhitespace(s[j - 1]) {
      EndKeptShape(s, j - 1);
    }
  }

  /** `s.trimStart()`. */
  function TrimStart(s: string): (r: string)
    ensures |r| <= |s|
  {
    s[FirstKept(s, 0)..]
  }

  /** `s.trimEnd()`. */
  function TrimEnd(s: string): (r: string)
    ensures |r| <= |s|
  {
    s[..EndKept(s, |s|)]
  }

  /** `s.trim()`. */
  function Trim(s: string): (r: string)
    ensures |r| <= |s|
  {
    TrimEnd(TrimStart(s))
  }

  /** Whitespace followed by whitespace is whitespace. */
  lemma AllWhitespaceConcat(x: string, y: string)
    requires AllWhitespace(x) && AllWhitespace(y)
    ensures AllWhitespace(x + y)
  {
    forall k | 0 <= k < |x + y| ensures IsWhitespace((x + y)[k]) {
      if k >= |x| {
        assert (x + y)[k] == y[k - |x|];
      }
    }
  }

  /**
   * `trim` splits its input into leading whitespace, the result and trailing
   * whitespace; the result is "" or starts and ends with a non-whitespace character.
   */
  lemma TrimSplit(s: string)
    ensures Trim(s) == [] || (!IsWhitespace(Trim(s)[0]) && !IsWhitespace(Trim(s)[|Trim(s)| - 1]))
    ensures FirstKept(s, 0) + |Trim(s)| <= |s|
    ensures s == s[..FirstKept(s, 0)] + Trim(s) + s[FirstKept(s, 0) + |Trim(s)|..]
    ensures AllWhitespace(s[..FirstKept(s, 0)]) && AllWhitespace(s[FirstKept(s, 0) + |Trim(s)|..])
  {
    TrimEnds(s);
    TrimDecompose(s);
  }

  lemma TrimEnds(s: string)
    ensures Trim(s) == [] || (!IsWhitespace(Trim(s)[0]) && !IsWhitespace(Trim(s)[|Trim(s)| - 1]))
  {
    var a := FirstKept(s, 0);
    var t := s[a..];
    var e := EndKept(t, |t|);
    LeadingWhitespace(s);
    TrailingWhitespace(t);
    if e > 0 {
      assert Trim(s)[0] == t[0];
      assert Trim(s)[e - 1] == t[e - 1];
    }
  }

  lemma TrimDecompose(s: string)
    ensures FirstKept(s, 0) + |Trim(s)| <= |s|
    ensures s == s[..FirstKept(s, 0)] + Trim(s) + s[FirstKept(s, 0) + |Trim(s)|..]
    ensures AllWhitespace(s[..FirstKept(s, 0)]) && AllWhitespace(s[FirstKept(s, 0) + |Trim(s)|..])
  {
    var a := FirstKept(s, 0);
    var t := s[a..];
    var e := EndKept(t, |t|);
    assert Trim(s) == t[..e];
    LeadingWhitespace(s);
    TrailingWhitespace(t);
    SliceRegroup(s, a, e);
  }

  /** Cutting `s` at `a` and its tail at `e` gives back `s`. */
  lemma SliceRegroup(s: string, a: nat, e: nat)
    requires a + e <= |s|
    ensures s[a + e..] == s[a..][e..]
    ensures s == s[..a] + s[a..][..e] + s[a + e..]
  {
    var t := s[a..];
    assert s == s[..a] + t;
    assert t == t[..e] + t[e..];
  }

  /** What `trimStart` drops is whitespace, and what it keeps starts with non-whitespace. */
  lemma LeadingWhitespace(s: string)
    ensures AllWhitespace(s[..FirstKept(s, 0)])
    ensures FirstKept(s, 0) == |s| || !IsWhitespace(s[FirstKept(s, 0)])
  {
    FirstKeptShape(s, 0);
    var lead := s[..FirstKept(s, 0)];
    forall k | 0 <= k < |lead| ensures IsWhitespace(lead[k]) {
      assert lead[k] == s[k];
    }
  }

  /** What `trimEnd` drops is whitespace, and what it keeps ends with non-whitespace. */
  lemma TrailingWhitespace(t: string)
    ensures AllWhitespace(t[EndKept(t, |t|)..])
    ensures EndKept(t, |t|) == 0 || !IsWhitespace(t[EndKept(t, |t|) - 1])
  {
    EndKeptShape(t, |t|);
    var e := EndKept(t, |t|);
    var trail := t[e..];
    forall k | 0 <= k < |trail| ensures IsWhitespace(trail[k]) {
      assert trail[k] == t[e + k];
    }
  }

  /** `trim` yields "" exactly for all-whitespace input. */
  lemma TrimShape(s: string)
    ensures Trim(s) == [] || (!IsWhitespace(Trim(s)[0]) && !IsWhitespace(Trim(s)[|Trim(s)| - 1]))
    ensures AllWhitespace(s) <==> Trim(s) == []
  {
    TrimSplit(s);
    var a, r := FirstKept(s, 0), Trim(s);
    var lead, trail := s[..a], s[a + |r|..];
    if r != [] {
      assert s[a] == r[0];
    } else {
      assert s == lead + trail;
      AllWhitespaceConcat(lead, trail);
    }
  }

  /**
   * Whatever sits between all-whitespace padding and starts and ends with a
   * non-whitespace character (or is empty) is exactly what `trim` returns.
   */
  lemma TrimUnique(s: string, p: string, m: string, q: string)
    requires s == p + m + q && AllWhitespace(p) && AllWhitespace(q)
    requires m == [] || (!IsWhitespace(m[0]) && !IsWhitespace(m[|m| - 1]))
    ensures Trim(s) == m
  {
    var a := FirstKept(s, 0);
    FirstKeptShape(s, 0);
    assert forall k :: 0 <= k < |p| ==> s[k] == p[k];
    if m == [] {
      assert forall k :: |p| <= k < |s| ==> s[k] == q[k - |p|];
      assert a == |s|;
      assert TrimStart(s) == [];
    } else {
      assert s[|p|] == m[0];
      assert a == |p|;
      var t := s[a..];
      assert t == m + q;
      var e := EndKept(t, |t|);
      EndKeptShape(t, |t|);
      assert forall k :: |m| <= k < |t| ==> t[k] == q[k - |m|];
      assert t[|m| - 1] == m[|m| - 1];
      assert e == |m|;
      assert t[..e] == m;
    }
  }

  /** Trimming twice is trimming once. */
  lemma TrimIdempotent(s: string)
    ensures Trim(Trim(s)) == Trim(s)
  {
    TrimShape(s);
    var r := Trim(s);
    assert r == [] + r + [];
    TrimUnique(r, [], r, []);
  }

  /** Whitespace around a value never changes what `trim` yields. */
  lemma TrimPadded(a: string, t: string, b: string)
    requires AllWhitespace(a) && AllWhitespace(b)
    ensures Trim(a + t + b) == Trim(t)
  {
    TrimSplit(t);
    var m := Trim(t);
    var i := FirstKept(t, 0);
    var lead, trail := t[..i], t[i + |m|..];
    AllWhitespaceConcat(a, lead);
    AllWhitespaceConcat(trail, b);
    Regroup(a, lead, m, trail, b);
    TrimUnique(a + t + b, a + lead, m, trail + b);
  }

  lemma Regroup(a: string, l: string, m: string, r: string, b: string)
    ensures a + (l + m + r) + b == (a + l) + m + (r + b)
  {
  }

  /** toLowerCase on one character (ASCII letters). */
  function LowerChar(c: char): char {
    if 'A' <= c <= 'Z' then (c as int + 32) as char else c
  }

  predicate HasNoUpper(s: string) {
    forall i :: 0 <= i < |s| ==> !('A' <= s[i] <= 'Z')
  }

  /** `s.toLowerCase()`, character by character. */
  function Lower(s: string): (r: string)
    ensures |r| == |s|
  {
    if s == [] then [] else [LowerChar(s[0])] + Lower(s[1..])
  }

  /** `toLowerCase` maps each character on its own and leaves no upper-case letter. */
  lemma {:induction false} LowerShape(s: string)
    ensures forall i :: 0 <= i < |s| ==> Lower(s)[i] == LowerChar(s[i])
    ensures HasNoUpper(Lower(s))
  {
    if s != [] {
      LowerShape(s[1..]);
    }
  }

  /** A string with no upper-case letters is its own lower case. */
  lemma {:induction false} LowerOfLower(s: string)
    requires HasNoUpper(s)
    ensures Lower(s) == s
  {
    if s != [] {
      LowerOfLower(s[1..]);
    }
  }

  /** Lower-case ASCII letters, digits and `_` only (checked character by character). */
  predicate IsPlainWord(w: string) {
    w == [] || ((('a' <= w[0] <= 'z') || ('0' <= w[0] <= '9') || w[0] == '_') && IsPlainWord(w[1..]))
  }

  lemma {:induction false} PlainWordChars(w: string)
    requires IsPlainWord(w)
    ensures forall i :: 0 <= i < |w| ==> ('a' <= w[i] <= 'z') || ('0' <= w[i] <= '9') || w[i] == '_'
  {
    if w != [] {
      PlainWordChars(w[1..]);
      assert forall i :: 1 <= i < |w| ==> w[i] == w[1..][i - 1];
    }
  }

  lemma PlainWordShape(w: string)
    requires IsPlainWord(w)
    ensures HasNoUpper(w)
    ensures w == [] || (!IsWhitespace(w[0]) && !IsWhitespace(w[|w| - 1]))
  {
    PlainWordChars(w);
  }

  /** A plain word is unchanged by `trim().toLowerCase()`. */
  lemma CanonicalWord(w: string)
    requires w != [] && IsPlainWord(w)
    ensures Lower(Trim(w)) == w
  {
    PlainWordShape(w);
    assert w == [] + w + [];
    TrimUnique(w, [], w, []);
    LowerOfLower(w);
  }

  /** Lower-casing never turns whitespace into non-whitespace or back, so it commutes with `trim`. */
  lemma TrimLower(s: string)
    ensures Trim(Lower(s)) == Lower(Trim(s))
  {
    TrimSplit(s);
    var a := FirstKept(s, 0);
    var m := Trim(s);
    var lead, trail := s[..a], s[a + |m|..];
    LowerAppend(lead, m);
    LowerAppend(lead + m, trail);
    LowerKeepsWhitespace(lead);
    LowerKeepsWhitespace(trail);
    LowerKeepsEnds(m);
    TrimUnique(Lower(s), Lower(lead), Lower(m), Lower(trail));
  }

  lemma LowerKeepsWhitespace(x: string)
    requires AllWhitespace(x)
    ensures AllWhitespace(Lower(x))
  {
    LowerShape(x);
  }

  lemma LowerKeepsEnds(m: string)
    requires m == [] || (!IsWhitespace(m[0]) && !IsWhitespace(m[|m| - 1]))
    ensures Lower(m) == [] || (!IsWhitespace(Lower(m)[0]) && !IsWhitespace(Lower(m)[|m| - 1]))
  {
    LowerShape(m);
  }

  /** Lower-casing distributes over concatenation. */
  lemma {:induction false} LowerAppend(a: string, b: string)
    ensures Lower(a + b) == Lower(a) + Lower(b)
  {
    if a != [] {
      assert (a + b)[0] == a[0];
      assert (a + b)[1..] == a[1..] + b;
      LowerAppend(a[1..], b);
    } else {
      assert a + b == b;
    }
  }

  /** `s.replace(/c/g, rep)` for a single-character pattern. */
  function ReplaceAll(s: string, c: char, rep: string): string {
    if s == [] then [] else (if s[0] == c then rep else [s[0]]) + ReplaceAll(s[1..], c, rep)
  }

  /**
   * Replacing leaves a string without `c` alone, removes every `c` when the
   * replacement has none, and introduces no character from outside `s` and `rep`.
   */
  lemma {:induction false} ReplaceAllFacts(s: string, c: char, rep: string)
    ensures c !in s ==> ReplaceAll(s, c, rep) == s
    ensures c !in rep ==> c !in ReplaceAll(s, c, rep)
    ensures forall d :: d in ReplaceAll(s, c, rep) ==> d in s || d in rep
  {
    if s != [] {
      ReplaceAllFacts(s[1..], c, rep);
      assert s == [s[0]] + s[1..];
    }
  }

  /** Replacing distributes over concatenation. */
  lemma {:induction false} ReplaceAllAppend(a: string, b: string, c: char, rep: string)
    ensures ReplaceAll(a + b, c, rep) == ReplaceAll(a, c, rep) + ReplaceAll(b, c, rep)
  {
    if a != [] {
      var head := if a[0] == c then rep else [a[0]];
      assert (a + b)[0] == a[0];
      assert (a + b)[1..] == a[1..] + b;
      ReplaceAllAppend(a[1..], b, c, rep);
      calc {
        ReplaceAll(a + b, c, rep);
        head + ReplaceAll(a[1..] + b, c, rep);
        head + (ReplaceAll(a[1..], c, rep) + ReplaceAll(b, c, rep));
        (head + ReplaceAll(a[1..], c, rep)) + ReplaceAll(b, c, rep);
      }
    } else {
      assert a + b == b;
    }
  }

  predicate StartsWith(t: string, p: string) {
    |p| <= |t| && t[..|p|] == p
  }

  /**
   * How a browser reads back the five character references the pages write
   * (`&amp;`, `&lt;`, `&gt;`, `&quot;`, `&#39;`); every other character stands for itself.
   */
  function DecodeEntities(t: string): string
    decreases |t|
  {
    if t == [] then []
    else if StartsWith(t, "&amp;") then "&" + DecodeEntities(t[5..])
    else if StartsWith(t, "&lt;") then "<" + DecodeEntities(t[4..])
    else if StartsWith(t, "&gt;") then ">" + DecodeEntities(t[4..])
    else if StartsWith(t, "&quot;") then "\"" + DecodeEntities(t[6..])
    else if StartsWith(t, "&#39;") then "'" + DecodeEntities(t[5..])
    else [t[0]] + DecodeEntities(t[1..])
  }
}

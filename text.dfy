/**
 * The two string operations the login handler and the CORS check apply:
 * `String.prototype.toUpperCase` restricted to ASCII letters, and
 * `String.prototype.trim` over the whitespace set of ECMAScript
 * (WhiteSpace and LineTerminator code points).
 */
module Text {

  import opened Wrappers

  /** A string-or-absent value that JavaScript treats as true: present and non-empty. */
  predicate Truthy(v: Option<string>) {
    v.Some? && v.value != ""
  }

  /** ECMAScript WhiteSpace and LineTerminator: the characters `trim` removes. */
  predicate IsSpace(c: char) {
    || c == '\t' || c == '\n' || c == '\U{000B}' || c == '\U{000C}' || c == '\r'
    || c == ' ' || c == '\U{00A0}' || c == '\U{1680}'
    || ('\U{2000}' <= c <= '\U{200A}')
    || c == '\U{2028}' || c == '\U{2029}' || c == '\U{202F}' || c == '\U{205F}'
    || c == '\U{3000}' || c == '\U{FEFF}'
  }

  predicate AllSpace(s: string) {
    forall i :: 0 <= i < |s| ==> IsSpace(s[i])
  }

  /** Neither end of `s` is whitespace: `s` is what `trim` leaves. */
  predicate Trimmed(s: string) {
    s == [] || (!IsSpace(s[0]) && !IsSpace(s[|s| - 1]))
  }

  // ---------------------------------------------------------------------
  // Upper-casing
  // ---------------------------------------------------------------------

  /** `toUpperCase` on one character, for the ASCII letters `a`-`z`; every other character is kept. */
  function UpperChar(c: char): (r: char) {
    if 'a' <= c <= 'z' then (c as int - 32) as char else c
  }

  /** The character-wise upper-case form of `s`. */
  function Upper(s: string): (r: string) {
    seq(|s|, i requires 0 <= i < |s| => UpperChar(s[i]))
  }

  /** A string without ASCII lower-case letters is its own upper-case form. */
  lemma UpperOfNoLower(s: string)
    requires forall i :: 0 <= i < |s| ==> !('a' <= s[i] <= 'z')
    ensures Upper(s) == s
  {
  }

  /** Upper-casing keeps the length and works one character at a time. */
  lemma UpperAt(s: string)
    ensures |Upper(s)| == |s|
    ensures forall i :: 0 <= i < |s| ==> Upper(s)[i] == UpperChar(s[i])
  {
  }

  /** Upper-casing distributes over concatenation. */
  lemma UpperConcat(a: string, b: string)
    ensures Upper(a + b) == Upper(a) + Upper(b)
  {
    forall i | 0 <= i < |a + b| ensures Upper(a + b)[i] == (Upper(a) + Upper(b))[i] {
      if i < |a| { assert (a + b)[i] == a[i]; } else { assert (a + b)[i] == b[i - |a|]; }
    }
  }

  /** Upper-casing maps `a`-`z` onto `A`-`Z` and nothing else, letter by letter. */
  lemma UpperCharSpec(c: char)
    ensures 'a' <= c <= 'z' ==> 'A' <= UpperChar(c) <= 'Z' && UpperChar(c) as int == c as int - 32
    ensures !('a' <= c <= 'z') ==> UpperChar(c) == c
    ensures UpperChar(UpperChar(c)) == UpperChar(c)
  {
  }

  /** Upper-casing never turns whitespace into non-whitespace or back. */
  lemma UpperCharKeepsSpace(c: char)
    ensures IsSpace(UpperChar(c)) == IsSpace(c)
  {
  }

  lemma UpperIdempotent(s: string)
    ensures Upper(Upper(s)) == Upper(s)
  {
    UpperAt(s);
    UpperAt(Upper(s));
    forall i | 0 <= i < |s| ensures Upper(Upper(s))[i] == Upper(s)[i] {
      UpperCharSpec(s[i]);
    }
  }

  // ---------------------------------------------------------------------
  // Trimming
  // ---------------------------------------------------------------------

  /** `s` without its leading whitespace. */
  function TrimStart(s: string): (r: string) {
    if |s| > 0 && IsSpace(s[0]) then TrimStart(s[1..]) else s
  }

  /** `s` without its trailing whitespace. */
  function TrimEnd(s: string): (r: string) {
    if |s| > 0 && IsSpace(s[|s| - 1]) then TrimEnd(s[..|s| - 1]) else s
  }

  /** JavaScript's `trim`: leading and trailing whitespace removed. */
  function Trim(s: string): (r: string) {
    TrimEnd(TrimStart(s))
  }

  /** `TrimStart` drops a whitespace prefix and stops at the first other character. */
  lemma {:induction false} TrimStartShape(s: string)
    ensures |TrimStart(s)| <= |s| && TrimStart(s) == s[|s| - |TrimStart(s)|..]
    ensures AllSpace(s[..|s| - |TrimStart(s)|])
    ensures TrimStart(s) != [] ==> !IsSpace(TrimStart(s)[0])
  {
    if |s| > 0 && IsSpace(s[0]) {
      TrimStartShape(s[1..]);
      var r := TrimStart(s[1..]);
      assert s[1..][..|s| - 1 - |r|] == s[1..|s| - |r|];
      assert s[1..][|s| - 1 - |r|..] == s[|s| - |r|..];
      var pre := s[..|s| - |r|];
      forall i | 0 <= i < |pre| ensures IsSpace(pre[i]) {
        if i > 0 {
          assert pre[i] == s[1..|s| - |r|][i - 1];
        }
      }
    }
  }

  /** `TrimEnd` drops a whitespace suffix and stops at the last other character. */
  lemma {:induction false} TrimEndShape(s: string)
    ensures |TrimEnd(s)| <= |s| && TrimEnd(s) == s[..|TrimEnd(s)|]
    ensures AllSpace(s[|TrimEnd(s)|..])
    ensures TrimEnd(s) != [] ==> !IsSpace(TrimEnd(s)[|TrimEnd(s)| - 1])
  {
    if |s| > 0 && IsSpace(s[|s| - 1]) {
      TrimEndShape(s[..|s| - 1]);
      var r := TrimEnd(s[..|s| - 1]);
      assert s[..|s| - 1][..|r|] == s[..|r|];
      assert s[..|s| - 1][|r|..] == s[|r|..|s| - 1];
      var post := s[|r|..];
      forall i | 0 <= i < |post| ensures IsSpace(post[i]) {
        if |r| + i < |s| - 1 {
          assert post[i] == s[|r|..|s| - 1][i];
        }
      }
    }
  }

  lemma SplitAt(x: string, k: nat)
    requires k <= |x|
    ensures x == x[..k] + x[k..]
  {
  }

  lemma {:induction false} TrimStartSplit(x: string) returns (lead: string)
    ensures x == lead + TrimStart(x) && AllSpace(lead)
    ensures TrimStart(x) != [] ==> !IsSpace(TrimStart(x)[0])
  {
    TrimStartShape(x);
    lead := x[..|x| - |TrimStart(x)|];
    SplitAt(x, |x| - |TrimStart(x)|);
  }

  lemma {:induction false} TrimEndSplit(x: string) returns (trail: string)
    ensures x == TrimEnd(x) + trail && AllSpace(trail)
    ensures TrimEnd(x) != [] ==> !IsSpace(TrimEnd(x)[|TrimEnd(x)| - 1]) && TrimEnd(x)[0] == x[0]
  {
    TrimEndShape(x);
    trail := x[|TrimEnd(x)|..];
    SplitAt(x, |TrimEnd(x)|);
  }

  /** Every string is its trimmed form with whitespace on either side. */
  lemma {:induction false} TrimSplit(x: string) returns (lead: string, trail: string)
    ensures x == lead + Trim(x) + trail
    ensures AllSpace(lead) && AllSpace(trail)
    ensures Trimmed(Trim(x))
  {
    lead := TrimStartSplit(x);
    trail := TrimEndSplit(TrimStart(x));
  }

  /** What `trim` returns has neither leading nor trailing whitespace and is no longer than its input. */
  lemma TrimShape(s: string)
    ensures |Trim(s)| <= |s| && Trimmed(Trim(s))
  {
    var lead, trail := TrimSplit(s);
  }

  lemma {:induction false} TrimStartOfSpaces(a: string, w: string)
    requires AllSpace(a)
    requires w == [] || !IsSpace(w[0])
    ensures TrimStart(a + w) == w
  {
    if a != [] {
      assert (a + w)[1..] == a[1..] + w;
      TrimStartOfSpaces(a[1..], w);
    } else {
      assert a + w == w;
    }
  }

  lemma {:induction false} TrimEndOfSpaces(w: string, b: string)
    requires AllSpace(b)
    requires w == [] || !IsSpace(w[|w| - 1])
    ensures TrimEnd(w + b) == w
  {
    if b != [] {
      assert (w + b)[..|w + b| - 1] == w + b[..|b| - 1];
      TrimEndOfSpaces(w, b[..|b| - 1]);
    } else {
      assert w + b == w;
    }
  }

  /** Trimming removes exactly the whitespace padding around a trimmed core. */
  lemma {:induction false} TrimPadded(a: string, w: string, b: string)
    requires AllSpace(a) && AllSpace(b)
    requires Trimmed(w)
    ensures Trim(a + w + b) == w
  {
    if w == [] {
      AllSpaceConcat(a, b);
      assert a + w + b == (a + b) + [];
      TrimStartOfSpaces(a + b, []);
      assert TrimEnd([]) == [];
    } else {
      assert a + w + b == a + (w + b);
      TrimStartOfSpaces(a, w + b);
      TrimEndOfSpaces(w, b);
    }
  }

  lemma AllSpaceConcat(p: string, q: string)
    requires AllSpace(p) && AllSpace(q)
    ensures AllSpace(p + q)
  {
    forall i | 0 <= i < |p + q| ensures IsSpace((p + q)[i]) {
      if i < |p| { assert (p + q)[i] == p[i]; } else { assert (p + q)[i] == q[i - |p|]; }
    }
  }

  lemma Regroup(a: string, p: string, q: string, r: string, b: string)
    ensures a + (p + q + r) + b == (a + p) + q + (r + b)
  {
  }

  /** Whitespace around any string is invisible to `Trim`. */
  lemma {:induction false} TrimIgnoresPadding(a: string, x: string, b: string)
    requires AllSpace(a) && AllSpace(b)
    ensures Trim(a + x + b) == Trim(x)
  {
    var lead, trail := TrimSplit(x);
    AllSpaceConcat(a, lead);
    AllSpaceConcat(trail, b);
    Regroup(a, lead, Trim(x), trail, b);
    TrimPadded(a + lead, Trim(x), trail + b);
  }

  /** A trimmed string is a fixed point of `Trim`, so trimming twice is trimming once. */
  lemma {:induction false} TrimIdempotent(s: string)
    ensures Trim(Trim(s)) == Trim(s)
  {
    var t := Trim(s);
    TrimShape(s);
    assert TrimStart(t) == t;
    assert TrimEnd(t) == t;
  }

  lemma {:induction false} UpperTrimStart(s: string)
    ensures Upper(TrimStart(s)) == TrimStart(Upper(s))
  {
    if |s| > 0 {
      UpperCharKeepsSpace(s[0]);
      UpperAt(s);
      if IsSpace(s[0]) {
        assert Upper(s)[1..] == Upper(s[1..]);
        UpperTrimStart(s[1..]);
      }
    }
  }

  lemma {:induction false} UpperTrimEnd(s: string)
    ensures Upper(TrimEnd(s)) == TrimEnd(Upper(s))
  {
    var u := Upper(s);
    if |s| > 0 {
      var n := |s| - 1;
      UpperCharKeepsSpace(s[n]);
      if IsSpace(s[n]) {
        UpperAt(s);
        assert IsSpace(u[n]);
        assert TrimEnd(u) == TrimEnd(u[..n]);
        assert s == s[..n] + [s[n]];
        UpperConcat(s[..n], [s[n]]);
        assert u[..n] == Upper(s[..n]);
        UpperTrimEnd(s[..n]);
      } else {
        UpperAt(s);
        assert !IsSpace(u[n]);
        assert TrimEnd(u) == u;
      }
    }
  }

  /** On the ASCII case mapping, upper-casing and trimming commute. */
  lemma UpperTrimCommute(s: string)
    ensures Upper(Trim(s)) == Trim(Upper(s))
  {
    UpperTrimStart(s);
    UpperTrimEnd(TrimStart(s));
  }
}

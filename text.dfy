/** String operations the component relies on: `String.prototype.trim` on the
    submitted city (src/WeatherApp.jsx:13) and `String.prototype.toLowerCase`
    on the primary condition keyword (src/WeatherApp.jsx:31). */
module Text {

  /** The characters ECMAScript's `trim` strips: WhiteSpace (TAB, VT, FF,
      ZWNBSP and every Unicode "Zs" space) and LineTerminator (LF, CR, LS, PS). */
  predicate IsWhitespace(c: char) {
    c == '\t' || c == '\U{000B}' || c == '\U{000C}' || c == '\U{FEFF}' ||
    c == ' ' || c == '\U{00A0}' || c == '\U{1680}' ||
    ('\U{2000}' <= c <= '\U{200A}') ||
    c == '\U{202F}' || c == '\U{205F}' || c == '\U{3000}' ||
    c == '\n' || c == '\r' || c == '\U{2028}' || c == '\U{2029}'
  }

  predicate AllWhitespace(s: string) {
    forall i :: 0 <= i < |s| ==> IsWhitespace(s[i])
  }

  /** Drops the leading whitespace: the result is a suffix of `s` that does
      not start with whitespace, and what was dropped is all whitespace. */
  function TrimStart(s: string): (r: string)
    ensures |r| <= |s| && r == s[|s| - |r|..]
    ensures forall i :: 0 <= i < |s| - |r| ==> IsWhitespace(s[i])
    ensures r != [] ==> !IsWhitespace(r[0])
  {
    if |s| > 0 && IsWhitespace(s[0]) then TrimStart(s[1..]) else s
  }

  /** Drops the trailing whitespace: the result is a prefix of `s` that does
      not end with whitespace, and what was dropped is all whitespace. */
  function TrimEnd(s: string): (r: string)
    ensures |r| <= |s| && r == s[..|r|]
    ensures forall i :: |r| <= i < |s| ==> IsWhitespace(s[i])
    ensures r != [] ==> !IsWhitespace(r[|r| - 1])
  {
    if |s| > 0 && IsWhitespace(s[|s| - 1]) then TrimEnd(s[..|s| - 1]) else s
  }

  /** `s.trim()`: whitespace removed from both ends. The result neither
      begins nor ends with whitespace; TrimIsInfix and TrimInfixExists place
      it in `s`. */
  function Trim(s: string): (r: string)
    ensures |r| <= |s|
    ensures r != [] ==> !IsWhitespace(r[0]) && !IsWhitespace(r[|r| - 1])
  {
    var t := TrimStart(s);
    var r := TrimEnd(t);
    assert r != [] ==> r[0] == t[0];
    r
  }

  /** On ASCII the whitespace set is the usual six: TAB, LF, VT, FF, CR and
      space; every other character it holds lies beyond ASCII. */
  lemma AsciiWhitespace(c: char)
    requires c < '\U{0080}'
    ensures IsWhitespace(c) <==> c in "\t\n\U{000B}\U{000C}\r "
  {
  }

  /** TrimStart stops at the first character that is not whitespace. */
  lemma {:induction false} TrimStartAt(s: string, lo: nat)
    requires lo <= |s| && AllWhitespace(s[..lo])
    requires lo < |s| ==> !IsWhitespace(s[lo])
    ensures TrimStart(s) == s[lo..]
  {
    if lo > 0 {
      assert IsWhitespace(s[..lo][0]);
      assert s[1..][..lo - 1] == s[1..lo];
      TrimStartAt(s[1..], lo - 1);
      assert s[1..][lo - 1..] == s[lo..];
    }
  }

  /** TrimEnd stops at the last character that is not whitespace. */
  lemma {:induction false} TrimEndAt(s: string, hi: nat)
    requires hi <= |s| && AllWhitespace(s[hi..])
    requires hi > 0 ==> !IsWhitespace(s[hi - 1])
    ensures TrimEnd(s) == s[..hi]
  {
    if hi < |s| {
      assert IsWhitespace(s[hi..][|s| - 1 - hi]);
      var t := s[..|s| - 1];
      assert t[hi..] == s[hi..|s| - 1];
      TrimEndAt(t, hi);
      assert t[..hi] == s[..hi];
    } else {
      assert s[..hi] == s;
    }
  }

  /** Whitespace on both sides of a cut point is whitespace throughout. */
  lemma WhitespaceJoin(s: string, k: nat)
    requires k <= |s| && AllWhitespace(s[..k]) && AllWhitespace(s[k..])
    ensures AllWhitespace(s)
  {
    forall i | 0 <= i < |s| ensures IsWhitespace(s[i]) {
      if i < k { assert s[i] == s[..k][i]; } else { assert s[i] == s[k..][i - k]; }
    }
  }

  lemma TrimOfBlank(s: string)
    requires AllWhitespace(s)
    ensures Trim(s) == []
  {
    assert s[..|s|] == s;
    TrimStartAt(s, |s|);
  }

  lemma TrimEndOfInfix(s: string, lo: nat, hi: nat)
    requires lo < hi <= |s| && AllWhitespace(s[hi..]) && !IsWhitespace(s[hi - 1])
    ensures TrimEnd(s[lo..]) == s[lo..hi]
  {
    var t := s[lo..];
    assert t[hi - lo..] == s[hi..];
    assert t[hi - lo - 1] == s[hi - 1];
    TrimEndAt(t, hi - lo);
    assert t[..hi - lo] == s[lo..hi];
  }

  /** `s[lo..hi]` has only whitespace around it and none at its ends. */
  predicate IsTrimCut(s: string, lo: nat, hi: nat) {
    lo <= hi <= |s| &&
    AllWhitespace(s[..lo]) && AllWhitespace(s[hi..]) &&
    (lo < hi ==> !IsWhitespace(s[lo]) && !IsWhitespace(s[hi - 1]))
  }

  /** Trim is the unique infix `s[lo..hi]` whose surroundings are whitespace
      and whose ends are not: an independent definition of `trim`. */
  lemma TrimIsInfix(s: string, lo: nat, hi: nat)
    requires IsTrimCut(s, lo, hi)
    ensures Trim(s) == s[lo..hi]
  {
    if lo < hi {
      TrimStartAt(s, lo);
      TrimEndOfInfix(s, lo, hi);
    } else {
      WhitespaceJoin(s, lo);
      TrimOfBlank(s);
    }
  }

  /** Dropping leading whitespace and then trailing whitespace leaves an
      infix with whitespace around it and none at its ends. */
  lemma CutOfParts(s: string, t: string, r: string, lo: nat)
    requires lo <= |s| && t == s[lo..] && forall i :: 0 <= i < lo ==> IsWhitespace(s[i])
    requires |r| <= |t| && r == t[..|r|] && forall i :: |r| <= i < |t| ==> IsWhitespace(t[i])
    requires r != [] ==> !IsWhitespace(r[0]) && !IsWhitespace(r[|r| - 1])
    ensures IsTrimCut(s, lo, lo + |r|) && r == s[lo..lo + |r|]
  {
    var hi := lo + |r|;
    assert s[lo..][..|r|] == s[lo..hi];
    forall i | 0 <= i < lo ensures IsWhitespace(s[..lo][i]) {
      assert s[..lo][i] == s[i];
    }
    forall j | 0 <= j < |s| - hi ensures IsWhitespace(s[hi..][j]) {
      assert s[hi..][j] == t[|r| + j];
    }
  }

  /** Every input has the infix TrimIsInfix describes: it starts where
      TrimStart stopped and is as long as the trimmed string. */
  lemma TrimInfixExists(s: string)
    ensures exists lo: nat, hi: nat :: IsTrimCut(s, lo, hi) && Trim(s) == s[lo..hi]
  {
    var t := TrimStart(s);
    var r := TrimEnd(t);
    var lo: nat := |s| - |t|;
    CutOfParts(s, t, r, lo);
    assert IsTrimCut(s, lo, lo + |r|) && Trim(s) == s[lo..lo + |r|];
  }

  /** The guard `if (!city) return;` fires exactly for blank input. */
  lemma TrimEmptyIffBlank(s: string)
    ensures Trim(s) == [] <==> AllWhitespace(s)
  {
    if AllWhitespace(s) {
      TrimOfBlank(s);
    }
  }

  /** Trimming twice changes nothing more. */
  lemma TrimIdempotent(s: string)
    ensures Trim(Trim(s)) == Trim(s)
  {
    var t := Trim(s);
    assert t[..0] == [] && t[|t|..] == [];
    if t != [] {
      var u := TrimStart(s);
      assert t == u[..|t|];
      assert t[0] == u[0];
    }
    TrimIsInfix(t, 0, |t|);
    assert t[0..|t|] == t;
  }

  lemma {:induction false} TrimStartPadded(pre: string, s: string)
    requires AllWhitespace(pre)
    ensures TrimStart(pre + s) == TrimStart(s)
  {
    if pre != [] {
      assert IsWhitespace(pre[0]);
      assert AllWhitespace(pre[1..]) by {
        forall i | 0 <= i < |pre| - 1 ensures IsWhitespace(pre[1..][i]) {
          assert pre[1..][i] == pre[i + 1];
        }
      }
      assert (pre + s)[0] == pre[0];
      assert (pre + s)[1..] == pre[1..] + s;
      assert TrimStart(pre + s) == TrimStart(pre[1..] + s);
      TrimStartPadded(pre[1..], s);
    } else {
      assert pre + s == s;
    }
  }

  lemma {:induction false} TrimEndPadded(s: string, post: string)
    requires AllWhitespace(post)
    ensures TrimEnd(s + post) == TrimEnd(s)
  {
    if post != [] {
      var w := s + post;
      assert w[|w| - 1] == post[|post| - 1];
      assert w[..|w| - 1] == s + post[..|post| - 1];
      TrimEndPadded(s, post[..|post| - 1]);
    } else {
      assert s + post == s;
    }
  }

  lemma {:induction false} TrimStartAppend(s: string, post: string)
    requires TrimStart(s) != []
    ensures TrimStart(s + post) == TrimStart(s) + post
  {
    if IsWhitespace(s[0]) {
      assert (s + post)[1..] == s[1..] + post;
      TrimStartAppend(s[1..], post);
    }
  }

  /** Extra whitespace around the input does not change what is trimmed. */
  lemma TrimIgnoresPadding(pre: string, s: string, post: string)
    requires AllWhitespace(pre) && AllWhitespace(post)
    ensures Trim(pre + s + post) == Trim(s)
  {
    assert pre + s + post == pre + (s + post);
    TrimStartPadded(pre, s + post);
    if TrimStart(s) == [] {
      assert s[..|s|] == s;
      TrimStartPadded(s, post);
      TrimOfBlank(post);
    } else {
      TrimStartAppend(s, post);
      TrimEndPadded(TrimStart(s), post);
    }
  }

  predicate IsAsciiUpper(c: char) {
    'A' <= c <= 'Z'
  }

  /** toLowerCase restricted to ASCII: A-Z map to a-z, all else is kept. */
  function LowerChar(c: char): char {
    if IsAsciiUpper(c) then (c as int + 32) as char else c
  }

  predicate HasNoUpper(s: string) {
    forall i :: 0 <= i < |s| ==> !IsAsciiUpper(s[i])
  }

  /** `s.toLowerCase()`, on ASCII letters. */
  function ToLower(s: string): (r: string)
    ensures |r| == |s|
    ensures HasNoUpper(r)
  {
    if s == [] then [] else [LowerChar(s[0])] + ToLower(s[1..])
  }

  /** Lower-casing leaves every character that is not an ASCII capital
      as it was, and maps each capital to its small letter. */
  lemma {:induction false} ToLowerAt(s: string, i: nat)
    requires i < |s|
    ensures ToLower(s)[i] == (if IsAsciiUpper(s[i]) then (s[i] as int + 32) as char else s[i])
  {
    if i > 0 {
      ToLowerAt(s[1..], i - 1);
    }
  }

  /** A string with no capitals is its own lower-case form. */
  lemma {:induction false} ToLowerOfLower(s: string)
    requires HasNoUpper(s)
    ensures ToLower(s) == s
  {
    if s != [] {
      ToLowerOfLower(s[1..]);
    }
  }

  /** Lower-casing twice is lower-casing once. */
  lemma ToLowerIdempotent(s: string)
    ensures ToLower(ToLower(s)) == ToLower(s)
  {
    ToLowerOfLower(ToLower(s));
  }
}

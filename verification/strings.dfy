/** The three helpers of Go's `strings` package that the request pipeline
    uses: `Fields` (split on runs of white space), `ToUpper` (restricted to
    ASCII letters here) and `Join`. */
module Strings {

  /** Go's `unicode.IsSpace`: the six ASCII white-space characters, NEL,
      NO-BREAK SPACE, and the other characters with the Unicode White_Space
      property. `strings.Fields` splits on exactly these. */
  predicate IsSpace(c: char) {
    || c == ' ' || c == '\t' || c == '\n' || c == '\U{000B}' || c == '\U{000C}' || c == '\r'
    || c == '\U{0085}' || c == '\U{00A0}' || c == '\U{1680}'
    || ('\U{2000}' <= c <= '\U{200A}')
    || c == '\U{2028}' || c == '\U{2029}' || c == '\U{202F}' || c == '\U{205F}' || c == '\U{3000}'
  }

  /** A string made of white space only (the empty string included). */
  predicate AllSpace(s: string) {
    forall i :: 0 <= i < |s| ==> IsSpace(s[i])
  }

  /** What `Fields` can produce: a non-empty string without white space. */
  predicate IsToken(s: string) {
    |s| > 0 && forall i :: 0 <= i < |s| ==> !IsSpace(s[i])
  }

  /** The characters of `s` that are not white space, in order. */
  function NonSpace(s: string): string {
    if s == [] then []
    else (if IsSpace(s[0]) then [] else [s[0]]) + NonSpace(s[1..])
  }

  /** The tokens glued back together without separators. */
  function Concat(tokens: seq<string>): string {
    if tokens == [] then [] else tokens[0] + Concat(tokens[1..])
  }

  /** Length of the longest prefix of `s` without white space. */
  function TokenLength(s: string): (n: nat)
    ensures n <= |s|
    ensures forall i :: 0 <= i < n ==> !IsSpace(s[i])
    ensures n < |s| ==> IsSpace(s[n])
  {
    if s == [] || IsSpace(s[0]) then 0 else 1 + TokenLength(s[1..])
  }

  /** Go's `strings.Fields`: the maximal runs of non-white-space characters
      of `s`, in order. Every token is non-empty and free of white space, and
      together the tokens hold exactly the non-space characters of `s`. */
  function Fields(s: string): (tokens: seq<string>)
    ensures forall i :: 0 <= i < |tokens| ==> IsToken(tokens[i])
    ensures Concat(tokens) == NonSpace(s)
    decreases |s|
  {
    if s == [] then []
    else if IsSpace(s[0]) then Fields(s[1..])
    else
      var n := TokenLength(s);
      NonSpaceSplit(s, n);
      [s[..n]] + Fields(s[n..])
  }

  lemma {:induction false} NonSpaceAppend(a: string, b: string)
    ensures NonSpace(a + b) == NonSpace(a) + NonSpace(b)
    decreases |a|
  {
    if a == [] {
      assert a + b == b;
    } else {
      assert (a + b)[1..] == a[1..] + b;
      NonSpaceAppend(a[1..], b);
    }
  }

  lemma {:induction false} NonSpaceOfSpaceFree(t: string)
    requires forall i :: 0 <= i < |t| ==> !IsSpace(t[i])
    ensures NonSpace(t) == t
    decreases |t|
  {
    if t != [] {
      NonSpaceOfSpaceFree(t[1..]);
    }
  }

  /** Splitting after the leading token keeps the token intact. */
  lemma NonSpaceSplit(s: string, n: nat)
    requires n <= |s|
    requires forall i :: 0 <= i < n ==> !IsSpace(s[i])
    ensures NonSpace(s) == s[..n] + NonSpace(s[n..])
  {
    assert s == s[..n] + s[n..];
    NonSpaceAppend(s[..n], s[n..]);
    NonSpaceOfSpaceFree(s[..n]);
  }

  /** A string of white space only has no fields. */
  lemma {:induction false} FieldsOfAllSpace(w: string)
    requires AllSpace(w)
    ensures Fields(w) == []
    decreases |w|
  {
    if w != [] {
      FieldsOfAllSpace(w[1..]);
    }
  }

  /** Leading white space is skipped. */
  lemma {:induction false} FieldsSkipsLeadingSpace(w: string, s: string)
    requires AllSpace(w)
    ensures Fields(w + s) == Fields(s)
    decreases |w|
  {
    if w == [] {
      assert w + s == s;
    } else {
      assert (w + s)[0] == w[0];
      assert (w + s)[1..] == w[1..] + s;
      FieldsSkipsLeadingSpace(w[1..], s);
    }
  }

  /** Trailing white space (such as the newline a client sends) is ignored. */
  lemma {:induction false} FieldsIgnoresTrailingSpace(s: string, w: string)
    requires AllSpace(w)
    ensures Fields(s + w) == Fields(s)
    decreases |s|
  {
    if s == [] {
      assert s + w == w;
      FieldsOfAllSpace(w);
    } else if IsSpace(s[0]) {
      assert (s + w)[1..] == s[1..] + w;
      FieldsIgnoresTrailingSpace(s[1..], w);
    } else {
      var n := TokenLength(s);
      TokenLengthOfAppend(s, w);
      assert (s + w)[..n] == s[..n];
      assert (s + w)[n..] == s[n..] + w;
      FieldsIgnoresTrailingSpace(s[n..], w);
    }
  }

  lemma {:induction false} TokenLengthOfAppend(s: string, w: string)
    requires AllSpace(w)
    ensures TokenLength(s + w) == TokenLength(s)
    decreases |s|
  {
    if s == [] {
      assert s + w == w;
    } else if !IsSpace(s[0]) {
      assert (s + w)[1..] == s[1..] + w;
      TokenLengthOfAppend(s[1..], w);
    }
  }

  lemma {:induction false} TokenLengthOfToken(t: string, rest: string)
    requires IsToken(t)
    requires rest == [] || IsSpace(rest[0])
    ensures TokenLength(t + rest) == |t|
    decreases |t|
  {
    if |t| == 1 {
      assert (t + rest)[1..] == rest;
    } else {
      assert (t + rest)[1..] == t[1..] + rest;
      TokenLengthOfToken(t[1..], rest);
    }
  }

  /** A token followed by white space and more text: the token comes out
      first, and splitting continues after the white space. */
  lemma FieldsOfTokenThenSpace(t: string, w: string, rest: string)
    requires IsToken(t)
    requires |w| > 0 && AllSpace(w)
    ensures Fields(t + w + rest) == [t] + Fields(rest)
  {
    var s := t + w + rest;
    TokenLengthOfToken(t, w + rest);
    assert s == t + (w + rest);
    assert s[..|t|] == t;
    assert s[|t|..] == w + rest;
    FieldsSkipsLeadingSpace(w, rest);
  }

  /** A single token splits into itself. */
  lemma FieldsOfToken(t: string)
    requires IsToken(t)
    ensures Fields(t) == [t]
  {
    TokenLengthOfToken(t, []);
    assert t + [] == t;
    assert t[|t|..] == [];
  }

  /** Go's `strings.Join`: the parts in order with `sep` between each two
      neighbours. The text starts with the first part; `FieldsOfJoin` shows
      that splitting recovers the parts. */
  function Join(parts: seq<string>, sep: string): (r: string)
    ensures |parts| > 0 ==> parts[0] <= r
  {
    if parts == [] then []
    else if |parts| == 1 then parts[0]
    else parts[0] + sep + Join(parts[1..], sep)
  }

  /** Joining tokens with a space and splitting again gives the tokens
      back: `Fields` is a left inverse of `Join(_, " ")` on tokens. */
  lemma {:induction false} FieldsOfJoin(tokens: seq<string>)
    requires forall i :: 0 <= i < |tokens| ==> IsToken(tokens[i])
    ensures Fields(Join(tokens, " ")) == tokens
    decreases |tokens|
  {
    if tokens == [] {
    } else if |tokens| == 1 {
      FieldsOfToken(tokens[0]);
    } else {
      FieldsOfJoin(tokens[1..]);
      FieldsOfTokenThenSpace(tokens[0], " ", Join(tokens[1..], " "));
      assert [tokens[0]] + tokens[1..] == tokens;
    }
  }

  /** ASCII upper-casing of one character: lower-case ASCII letters become
      their upper-case counterpart, everything else is left alone. */
  function ToUpperChar(c: char): (u: char)
    ensures !('a' <= u <= 'z')
    ensures !('a' <= c <= 'z') ==> u == c
    ensures 'a' <= c <= 'z' ==> 'A' <= u <= 'Z' && u as int - 'A' as int == c as int - 'a' as int
  {
    if 'a' <= c <= 'z' then (c as int - 'a' as int + 'A' as int) as char else c
  }

  /** Go's `strings.ToUpper`, restricted to ASCII letters. */
  function ToUpper(s: string): (u: string)
    ensures |u| == |s|
    ensures forall i :: 0 <= i < |s| ==> u[i] == ToUpperChar(s[i])
  {
    seq(|s|, i requires 0 <= i < |s| => ToUpperChar(s[i]))
  }

  /** Two characters that are equal up to ASCII letter case. */
  predicate SameLetterIgnoringCase(a: char, b: char) {
    || a == b
    || ('a' <= a <= 'z' && 'A' <= b <= 'Z' && a as int - 'a' as int == b as int - 'A' as int)
    || ('A' <= a <= 'Z' && 'a' <= b <= 'z' && a as int - 'A' as int == b as int - 'a' as int)
  }

  /** Two strings that are equal up to ASCII letter case. */
  predicate EqualIgnoringCase(a: string, b: string) {
    |a| == |b| && forall i :: 0 <= i < |a| ==> SameLetterIgnoringCase(a[i], b[i])
  }

  /** Upper-casing identifies exactly the strings that differ only in ASCII
      letter case. */
  lemma ToUpperEqualIffEqualIgnoringCase(a: string, b: string)
    ensures ToUpper(a) == ToUpper(b) <==> EqualIgnoringCase(a, b)
  {
    if ToUpper(a) == ToUpper(b) {
      forall i | 0 <= i < |a|
        ensures SameLetterIgnoringCase(a[i], b[i])
      {
        assert ToUpperChar(a[i]) == ToUpper(a)[i] == ToUpper(b)[i] == ToUpperChar(b[i]);
      }
    }
    if EqualIgnoringCase(a, b) {
      forall i | 0 <= i < |a|
        ensures ToUpper(a)[i] == ToUpper(b)[i]
      {
        assert SameLetterIgnoringCase(a[i], b[i]);
      }
    }
  }

  /** A string without lower-case ASCII letters is its own upper case. */
  lemma ToUpperOfUpperCase(s: string)
    requires forall i :: 0 <= i < |s| ==> !('a' <= s[i] <= 'z')
    ensures ToUpper(s) == s
  {
  }

  /** Upper-casing is idempotent. */
  lemma ToUpperIdempotent(s: string)
    ensures ToUpper(ToUpper(s)) == ToUpper(s)
  {
  }
}

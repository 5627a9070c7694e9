/** The JavaScript string operations the validators and the error handler
    rely on: trimming, joining and capitalising. */
module JsText {

  /** The characters JavaScript's `\s` and `String.prototype.trim` remove:
      the ECMAScript WhiteSpace and LineTerminator code points. */
  predicate IsSpace(c: char)
  {
    || c == '\t' || c == '\n' || c == '\U{000B}' || c == '\U{000C}' || c == '\r'
    || c == ' ' || c == '\U{00A0}' || c == '\U{1680}'
    || ('\U{2000}' <= c <= '\U{200A}')
    || c == '\U{2028}' || c == '\U{2029}' || c == '\U{202F}' || c == '\U{205F}'
    || c == '\U{3000}' || c == '\U{FEFF}'
  }

  predicate AllSpace(s: string)
  {
    forall i :: 0 <= i < |s| ==> IsSpace(s[i])
  }

  /** Drops the leading white space. */
  function TrimStart(s: string): string
  {
    if s != [] && IsSpace(s[0]) then TrimStart(s[1..]) else s
  }

  /** Drops the trailing white space. */
  function TrimEnd(s: string): string
  {
    if s != [] && IsSpace(s[|s| - 1]) then TrimEnd(s[..|s| - 1]) else s
  }

  /** TrimStart keeps the suffix of `s` that starts at its first non-space
      character. */
  lemma {:induction false} TrimStartSpec(s: string)
    ensures |TrimStart(s)| <= |s| && TrimStart(s) == s[|s| - |TrimStart(s)|..]
    ensures AllSpace(s[..|s| - |TrimStart(s)|])
    ensures TrimStart(s) == [] || !IsSpace(TrimStart(s)[0])
  {
    if s != [] && IsSpace(s[0]) {
      TrimStartSpec(s[1..]);
      var r := TrimStart(s[1..]);
      assert s[1..][..|s| - 1 - |r|] == s[1..|s| - |r|];
      assert s[..|s| - |r|] == [s[0]] + s[1..|s| - |r|];
    }
  }

  /** TrimEnd keeps the prefix of `s` that ends at its last non-space
      character. */
  lemma {:induction false} TrimEndSpec(s: string)
    ensures |TrimEnd(s)| <= |s| && TrimEnd(s) == s[..|TrimEnd(s)|]
    ensures AllSpace(s[|TrimEnd(s)|..])
    ensures TrimEnd(s) == [] || !IsSpace(TrimEnd(s)[|TrimEnd(s)| - 1])
  {
    if s != [] && IsSpace(s[|s| - 1]) {
      TrimEndSpec(s[..|s| - 1]);
      var r := TrimEnd(s[..|s| - 1]);
      assert s[..|s| - 1][|r|..] == s[|r|..|s| - 1];
      assert s[|r|..] == s[|r|..|s| - 1] + [s[|s| - 1]];
    }
  }

  /** The trim sanitizer (and the schema's `trim: true` setter). */
  function Trim(s: string): string
  {
    TrimEnd(TrimStart(s))
  }

  predicate Trimmed(s: string)
  {
    s == [] || (!IsSpace(s[0]) && !IsSpace(s[|s| - 1]))
  }

  /** Trim keeps a contiguous slice of its input, removes only white space
      around it, and what it keeps neither starts nor ends with white space. */
  lemma TrimIsSlice(s: string)
    ensures exists i, j :: 0 <= i <= j <= |s| && Trim(s) == s[i..j]
              && AllSpace(s[..i]) && AllSpace(s[j..])
    ensures Trimmed(Trim(s))
  {
    var t := TrimStart(s);
    TrimStartSpec(s);
    TrimEndSpec(t);
    var i := |s| - |t|;
    var r := TrimEnd(t);
    var j := i + |r|;
    assert t == s[i..];
    assert r == t[..|r|] == s[i..j];
    assert AllSpace(t[|r|..]);
    assert t[|r|..] == s[j..];
    if r != [] {
      assert r[0] == t[0];
    }
  }

  /** Trimming twice is trimming once: the sanitizer's output passes through
      the schema's trim setter unchanged. */
  lemma TrimIdempotent(s: string)
    ensures Trim(Trim(s)) == Trim(s)
  {
    TrimIsSlice(s);
    TrimmedFixed(Trim(s));
  }

  lemma TrimmedFixed(s: string)
    requires Trimmed(s)
    ensures Trim(s) == s
  {
  }

  /** Trim yields the empty string exactly for all-white-space input. */
  lemma TrimEmptyIff(s: string)
    ensures Trim(s) == [] <==> AllSpace(s)
  {
    var t := TrimStart(s);
    TrimStartSpec(s);
    TrimEndSpec(t);
    assert s[..|s|] == s;
    if t != [] {
      assert s[|s| - |t|] == t[0];
    }
  }

  // Lengths. Dafny's `|s|` counts code points; JavaScript's `s.length`
  // counts UTF-16 code units, and validator.js's `isLength` counts code
  // points but skips the variation selectors U+FE0E and U+FE0F.

  /** A character outside the Basic Multilingual Plane, which JavaScript
      stores as a surrogate pair. */
  predicate IsAstral(c: char)
  {
    c > '\U{FFFF}'
  }

  predicate IsVariationSelector(c: char)
  {
    c == '\U{FE0E}' || c == '\U{FE0F}'
  }

  function AstralCount(s: string): (n: nat)
    ensures n <= |s|
    ensures n == 0 <==> forall i :: 0 <= i < |s| ==> !IsAstral(s[i])
    ensures (forall i :: 0 <= i < |s| ==> IsAstral(s[i])) ==> n == |s|
  {
    if s == [] then 0
    else
      var n := (if IsAstral(s[0]) then 1 else 0) + AstralCount(s[1..]);
      assert forall i :: 1 <= i < |s| ==> s[i] == s[1..][i - 1];
      n
  }

  function SelectorCount(s: string): (n: nat)
    ensures n <= |s|
    ensures n == 0 <==> forall i :: 0 <= i < |s| ==> !IsVariationSelector(s[i])
    ensures (forall i :: 0 <= i < |s| ==> IsVariationSelector(s[i])) ==> n == |s|
  {
    if s == [] then 0
    else
      var n := (if IsVariationSelector(s[0]) then 1 else 0) + SelectorCount(s[1..]);
      assert forall i :: 1 <= i < |s| ==> s[i] == s[1..][i - 1];
      n
  }

  /** Astral characters in joined text are those of each part added up. */
  lemma {:induction false} AstralCountAppend(a: string, b: string)
    ensures AstralCount(a + b) == AstralCount(a) + AstralCount(b)
  {
    if a != [] {
      assert (a + b)[0] == a[0] && (a + b)[1..] == a[1..] + b;
      AstralCountAppend(a[1..], b);
    } else {
      assert a + b == b;
    }
  }

  /** Variation selectors in joined text are those of each part added up. */
  lemma {:induction false} SelectorCountAppend(a: string, b: string)
    ensures SelectorCount(a + b) == SelectorCount(a) + SelectorCount(b)
  {
    if a != [] {
      assert (a + b)[0] == a[0] && (a + b)[1..] == a[1..] + b;
      SelectorCountAppend(a[1..], b);
    } else {
      assert a + b == b;
    }
  }

  /** A single character counts as one selector exactly when it is one, and
      as one astral character exactly when it is one. */
  lemma CountsOfOne(c: char)
    ensures AstralCount([c]) == if IsAstral(c) then 1 else 0
    ensures SelectorCount([c]) == if IsVariationSelector(c) then 1 else 0
  {
    assert [c][1..] == [];
  }

  /** Both lengths of joined text are the sums of the parts' lengths, so
      with `CountsOfOne` they follow character by character: "a" followed
      by U+1F600 has JavaScript length 3 and `isLength` length 2. */
  lemma LengthsAppend(a: string, b: string)
    ensures JsLength(a + b) == JsLength(a) + JsLength(b)
    ensures VisibleLength(a + b) == VisibleLength(a) + VisibleLength(b)
  {
    AstralCountAppend(a, b);
    SelectorCountAppend(a, b);
  }

  /** `s.length`: one unit per character, two for an astral one. It equals
      the number of characters exactly when none is astral. */
  function JsLength(s: string): (n: nat)
    ensures |s| <= n <= 2 * |s|
    ensures n == |s| <==> forall i :: 0 <= i < |s| ==> !IsAstral(s[i])
  {
    |s| + AstralCount(s)
  }

  /** The length `isLength` measures. It never exceeds the number of
      characters, nor JavaScript's length. */
  function VisibleLength(s: string): (n: nat)
    ensures n <= |s| <= JsLength(s)
    ensures n == |s| <==> forall i :: 0 <= i < |s| ==> !IsVariationSelector(s[i])
  {
    |s| - SelectorCount(s)
  }

  /** `parts.join(sep)`. */
  function Join(parts: seq<string>, sep: string): (r: string)
    ensures parts == [] ==> r == []
    ensures |parts| == 1 ==> r == parts[0]
  {
    if parts == [] then []
    else if |parts| == 1 then parts[0]
    else parts[0] + sep + Join(parts[1..], sep)
  }

  /** `c.toUpperCase()` for a single character, on the ASCII letters. */
  function UpperChar(c: char): (u: char)
    ensures 'a' <= c <= 'z' ==> 'A' <= u <= 'Z' && u as int == c as int - 32
    ensures !('a' <= c <= 'z') ==> u == c
  {
    if 'a' <= c <= 'z' then (c as int - 32) as char else c
  }

  /** `field.charAt(0).toUpperCase() + field.slice(1)`: only the first
      character may change, and the length is kept. */
  function Capitalize(field: string): (r: string)
    ensures |r| == |field|
    ensures field != [] ==> r[0] == UpperChar(field[0]) && r[1..] == field[1..]
  {
    if field == [] then [] else [UpperChar(field[0])] + field[1..]
  }
}

/**
 * The two string transforms the contact schemas apply: JavaScript's
 * `String.prototype.trim` (whitespace and line terminators removed from both
 * ends) and `toLowerCase` (here for the ASCII letters only).
 */
module StringRules {

  /** ECMAScript's WhiteSpace and LineTerminator code points, which `trim` removes. */
  predicate IsWhitespace(c: char) {
    var n := c as int;
    || 0x09 <= n <= 0x0D
    || n == 0x20 || n == 0xA0 || n == 0x1680
    || 0x2000 <= n <= 0x200A
    || n == 0x2028 || n == 0x2029 || n == 0x202F || n == 0x205F
    || n == 0x3000 || n == 0xFEFF
  }

  predicate AllWhitespace(s: string) {
    forall i :: 0 <= i < |s| ==> IsWhitespace(s[i])
  }

  lemma WhitespaceCons(c: char, w: string)
    requires IsWhitespace(c) && AllWhitespace(w)
    ensures AllWhitespace([c] + w)
  {
    forall k | 0 <= k < |[c] + w| ensures IsWhitespace(([c] + w)[k]) {
      if k > 0 {
        assert ([c] + w)[k] == w[k - 1];
      }
    }
  }

  lemma WhitespaceSnoc(w: string, c: char)
    requires AllWhitespace(w) && IsWhitespace(c)
    ensures AllWhitespace(w + [c])
  {
    forall k | 0 <= k < |w + [c]| ensures IsWhitespace((w + [c])[k]) {
      if k < |w| {
        assert (w + [c])[k] == w[k];
      }
    }
  }

  /** `s` without its leading whitespace: a suffix of `s` preceded only by whitespace, starting with a non-whitespace character if any. */
  function TrimStart(s: string): (r: string)
    ensures |r| <= |s| && r == s[|s| - |r|..]
    ensures AllWhitespace(s[..|s| - |r|])
    ensures r == [] || !IsWhitespace(r[0])
  {
    if |s| > 0 && IsWhitespace(s[0]) then
      var r := TrimStart(s[1..]);
      assert s[..|s| - |r|] == [s[0]] + s[1..][..|s| - 1 - |r|];
      WhitespaceCons(s[0], s[1..][..|s| - 1 - |r|]);
      r
    else
      assert s[..0] == [];
      s
  }

  /** `s` without its trailing whitespace: a prefix of `s` followed only by whitespace, ending with a non-whitespace character if any. */
  function TrimEnd(s: string): (r: string)
    ensures |r| <= |s| && r == s[..|r|]
    ensures AllWhitespace(s[|r|..])
    ensures r == [] || !IsWhitespace(r[|r| - 1])
  {
    if |s| > 0 && IsWhitespace(s[|s| - 1]) then
      var r := TrimEnd(s[..|s| - 1]);
      assert s[|r|..] == s[..|s| - 1][|r|..] + [s[|s| - 1]];
      WhitespaceSnoc(s[..|s| - 1][|r|..], s[|s| - 1]);
      r
    else
      assert s[|s|..] == [];
      s
  }

  /** JavaScript's `s.trim()`; `TrimSpec` and `TrimEnds` say what it leaves. */
  function Trim(s: string): (r: string)
    ensures |r| <= |s|
  {
    TrimEnd(TrimStart(s))
  }

  /** `r` is the slice of `s` at `i`, with only whitespace before and after it. */
  predicate TrimmedAt(s: string, r: string, i: int) {
    0 <= i <= i + |r| <= |s| && r == s[i..i + |r|] && AllWhitespace(s[..i]) && AllWhitespace(s[i + |r|..])
  }

  /** A suffix after whitespace, cut before whitespace, is a slice between whitespace. */
  lemma SliceBetweenWhitespace(s: string, t: string, r: string)
    requires |t| <= |s| && t == s[|s| - |t|..] && AllWhitespace(s[..|s| - |t|])
    requires |r| <= |t| && r == t[..|r|] && AllWhitespace(t[|r|..])
    ensures TrimmedAt(s, r, |s| - |t|)
  {
    var i := |s| - |t|;
    assert s[i..i + |r|] == t[..|r|];
    assert s[i + |r|..] == t[|r|..];
  }

  /** `Trim(s)` is the slice of `s` that is left once whitespace is cut from both ends. */
  lemma TrimSpec(s: string)
    ensures exists i :: TrimmedAt(s, Trim(s), i)
  {
    SliceBetweenWhitespace(s, TrimStart(s), Trim(s));
  }

  /** `Trim(s)` neither starts nor ends with whitespace. */
  lemma TrimEnds(s: string)
    ensures Trim(s) == [] || (!IsWhitespace(Trim(s)[0]) && !IsWhitespace(Trim(s)[|Trim(s)| - 1]))
  {
    var t := TrimStart(s);
    var r := TrimEnd(t);
    if r != [] {
      assert r == t[..|r|];
      assert r[0] == t[0];
    }
  }

  /** A string with no whitespace at either end is left alone by `trim`. */
  lemma TrimOfTrimmed(s: string)
    requires s == [] || (!IsWhitespace(s[0]) && !IsWhitespace(s[|s| - 1]))
    ensures Trim(s) == s
  {
  }

  /** Trimming twice is trimming once. */
  lemma TrimIdempotent(s: string)
    ensures Trim(Trim(s)) == Trim(s)
  {
    TrimEnds(s);
    TrimOfTrimmed(Trim(s));
  }

  predicate IsUpper(c: char) {
    'A' <= c <= 'Z'
  }

  function LowerChar(c: char): (l: char) {
    if IsUpper(c) then (c as int + 32) as char else c
  }

  /** `s.toLowerCase()` on ASCII letters. */
  function ToLower(s: string): (r: string)
    ensures |r| == |s|
  {
    seq(|s|, i requires 0 <= i < |s| => LowerChar(s[i]))
  }

  /** Lower-casing keeps the length, maps every upper-case ASCII letter to its lower-case one and keeps every other character. */
  lemma ToLowerSpec(s: string)
    ensures forall i :: 0 <= i < |s| ==> !IsUpper(ToLower(s)[i])
    ensures forall i :: 0 <= i < |s| && !IsUpper(s[i]) ==> ToLower(s)[i] == s[i]
    ensures forall i :: 0 <= i < |s| && IsUpper(s[i]) ==> ToLower(s)[i] as int == s[i] as int + 32
  {
  }

  /** Lower-casing maps a slice to the same slice of the lower-cased string, and never turns whitespace into non-whitespace or back. */
  lemma LowerSlice(s: string, i: int, j: int)
    requires 0 <= i <= j <= |s|
    ensures ToLower(s[i..j]) == ToLower(s)[i..j]
  {
  }

  lemma LowerKeepsWhitespace(c: char)
    ensures IsWhitespace(LowerChar(c)) == IsWhitespace(c)
  {
  }

  lemma {:induction false} TrimStartAfterLower(s: string)
    ensures TrimStart(ToLower(s)) == ToLower(TrimStart(s))
    decreases |s|
  {
    var ls := ToLower(s);
    if |s| > 0 {
      LowerKeepsWhitespace(s[0]);
      assert ls[0] == LowerChar(s[0]);
      if IsWhitespace(s[0]) {
        LowerSlice(s, 1, |s|);
        assert ls[1..] == ToLower(s[1..]);
        assert TrimStart(ls) == TrimStart(ls[1..]);
        assert TrimStart(s) == TrimStart(s[1..]);
        TrimStartAfterLower(s[1..]);
      } else {
        assert TrimStart(ls) == ls;
      }
    }
  }

  lemma {:induction false} TrimEndAfterLower(s: string)
    ensures TrimEnd(ToLower(s)) == ToLower(TrimEnd(s))
    decreases |s|
  {
    var ls := ToLower(s);
    if |s| > 0 {
      var n := |s| - 1;
      LowerKeepsWhitespace(s[n]);
      assert ls[n] == LowerChar(s[n]);
      if IsWhitespace(s[n]) {
        LowerSlice(s, 0, n);
        assert ls[..n] == ls[0..n] && s[..n] == s[0..n];
        assert ls[..n] == ToLower(s[..n]);
        assert TrimEnd(ls) == TrimEnd(ls[..n]);
        assert TrimEnd(s) == TrimEnd(s[..n]);
        TrimEndAfterLower(s[..n]);
      } else {
        assert TrimEnd(ls) == ls;
      }
    }
  }

  /** Lower-casing and trimming commute (no whitespace character is a letter), so the order the email schema applies them in does not matter. */
  lemma TrimLowerCommute(s: string)
    ensures Trim(ToLower(s)) == ToLower(Trim(s))
  {
    TrimStartAfterLower(s);
    TrimEndAfterLower(TrimStart(s));
  }
}

/**
 * Character and digit-string helpers the validators and the manager rely on.
 * They stand for the library's string extensions (`ToInt`, `Slice`, `Sum`,
 * `Sanitize`) and for the .NET calls the source makes (`int.Parse`,
 * `PadLeft`, `Trim`, `ToUpperInvariant`), restricted to ASCII.
 */
module Text {

  // ---------------------------------------------------------------------------
  // Digits

  /** The regex class `\d` (and `[0-9]`), read as the ASCII digits. */
  predicate IsDigit(c: char) {
    '0' <= c <= '9'
  }

  predicate AllDigits(s: string) {
    forall i :: 0 <= i < |s| ==> IsDigit(s[i])
  }

  /** `ToInt`: the distance from '0', which is the numeric value of a digit. */
  function DigitValue(c: char): (d: int)
    ensures IsDigit(c) ==> 0 <= d <= 9
  {
    c as int - '0' as int
  }

  /** The digit whose value is `d`. */
  function DigitChar(d: int): (c: char)
    requires 0 <= d <= 9
    ensures IsDigit(c) && DigitValue(c) == d
  {
    ('0' as int + d) as char
  }

  lemma DigitValueInjective(c: char, e: char)
    requires IsDigit(c) && IsDigit(e)
    ensures DigitValue(c) == DigitValue(e) <==> c == e
  {
  }

  function Pow10(n: nat): (p: nat)
    ensures p >= 1
  {
    if n == 0 then 1 else 10 * Pow10(n - 1)
  }

  /**
   * `int.Parse` of a string of decimal digits: the number it spells, most
   * significant digit first.
   */
  function NumberValue(s: string): (n: nat)
    requires AllDigits(s)
    ensures n < Pow10(|s|)
    decreases |s|
  {
    if |s| == 0 then 0 else NumberValue(s[..|s| - 1]) * 10 + DigitValue(s[|s| - 1])
  }

  /** A digit string reads as zero exactly when every digit is '0'. */
  lemma {:induction false} NumberValueZero(s: string)
    requires AllDigits(s)
    ensures NumberValue(s) == 0 <==> forall i :: 0 <= i < |s| ==> s[i] == '0'
    decreases |s|
  {
    if |s| > 0 {
      var init := s[..|s| - 1];
      NumberValueZero(init);
      assert forall i :: 0 <= i < |init| ==> init[i] == s[i];
      if forall i :: 0 <= i < |s| ==> s[i] == '0' {
        assert forall i :: 0 <= i < |init| ==> init[i] == '0';
      }
    }
  }

  /** A two-digit string reads as `10 * first + second`. */
  lemma NumberValueTwo(s: string)
    requires |s| == 2 && AllDigits(s)
    ensures NumberValue(s) == 10 * DigitValue(s[0]) + DigitValue(s[1])
  {
  }

  /** A three-digit string reads as `100 * first + 10 * second + third`. */
  lemma NumberValueThree(s: string)
    requires |s| == 3 && AllDigits(s)
    ensures NumberValue(s) == 100 * DigitValue(s[0]) + 10 * DigitValue(s[1]) + DigitValue(s[2])
  {
    NumberValueTwo(s[..2]);
    assert s[..2][0] == s[0] && s[..2][1] == s[1];
  }

  // ---------------------------------------------------------------------------
  // Weighted digit sums

  /**
   * `s.Sum(multipliers)`: the sum of `ToInt(s[i]) * multipliers[i]` over the
   * positions of the multipliers.
   */
  function WeightedSum(s: string, m: seq<int>): (sum: int)
    requires |m| <= |s|
    decreases |m|
  {
    if |m| == 0 then 0 else DigitValue(s[0]) * m[0] + WeightedSum(s[1..], m[1..])
  }

  /** Appending a digit to a digit string keeps it a digit string, with the string as its prefix. */
  lemma DigitsSnoc(s: string, c: char)
    requires AllDigits(s) && IsDigit(c)
    ensures AllDigits(s + [c]) && (s + [c])[..|s|] == s
  {
  }

  /** The weighted sum reads only the characters under the weights. */
  lemma {:induction false} WeightedSumOfPrefix(s: string, t: string, m: seq<int>)
    requires |m| <= |s| && |m| <= |t| && s[..|m|] == t[..|m|]
    ensures WeightedSum(s, m) == WeightedSum(t, m)
    decreases |m|
  {
    if |m| > 0 {
      assert s[0] == s[..|m|][0] == t[..|m|][0] == t[0];
      assert s[1..][..|m| - 1] == s[..|m|][1..] == t[..|m|][1..] == t[1..][..|m| - 1];
      WeightedSumOfPrefix(s[1..], t[1..], m[1..]);
    }
  }

  /** `n` copies of `c`. */
  function Repeat(c: char, n: nat): (r: string)
    ensures |r| == n && forall i :: 0 <= i < n ==> r[i] == c
  {
    seq(n, _ => c)
  }

  /**
   * `s.PadLeft(width, pad)`: `s` itself when it is at least `width` long,
   * otherwise `s` preceded by enough copies of `pad` to reach `width`.
   */
  function PadLeft(s: string, width: nat, pad: char): (r: string)
    ensures |s| >= width ==> r == s
    ensures |s| < width ==> |r| == width && r[width - |s|..] == s
    ensures forall i :: 0 <= i < |r| - |s| ==> r[i] == pad
  {
    if |s| >= width then s else Repeat(pad, width - |s|) + s
  }

  /** Leading zeros contribute nothing: the digits align to the right end of the weights. */
  lemma {:induction false} LeadingZerosAddNothing(zeros: string, s: string, m: seq<int>)
    requires |m| == |zeros| + |s|
    requires forall i :: 0 <= i < |zeros| ==> zeros[i] == '0'
    ensures WeightedSum(zeros + s, m) == WeightedSum(s, m[|zeros|..])
    decreases |zeros|
  {
    if zeros == [] {
      assert zeros + s == s;
    } else {
      LeadingZerosAddNothing(zeros[1..], s, m[1..]);
      assert (zeros + s)[1..] == zeros[1..] + s;
      assert m[1..][|zeros| - 1..] == m[|zeros|..];
    }
  }

  // ---------------------------------------------------------------------------
  // Whitespace, trimming, upper case

  /** `char.IsWhiteSpace`, restricted to ASCII: space, tab, LF, VT, FF, CR. */
  predicate IsWhiteSpace(c: char) {
    c == ' ' || '\t' <= c <= '\r'
  }

  /** `string.IsNullOrWhiteSpace` (a Dafny string is never null). */
  predicate IsNullOrWhiteSpace(s: string) {
    forall i :: 0 <= i < |s| ==> IsWhiteSpace(s[i])
  }

  /** No whitespace at either end. */
  predicate Trimmed(s: string) {
    s != [] ==> !IsWhiteSpace(s[0]) && !IsWhiteSpace(s[|s| - 1])
  }

  /** A string with no whitespace at its ends is nothing but whitespace only when it is empty. */
  lemma TrimmedWhiteSpace(s: string)
    requires Trimmed(s)
    ensures IsNullOrWhiteSpace(s) <==> s == []
  {
  }

  /** `s[lo..hi]` is `s` with only whitespace removed from its ends. */
  predicate Surrounded(s: string, lo: int, hi: int) {
    0 <= lo <= hi <= |s|
    && (forall i :: 0 <= i < lo ==> IsWhiteSpace(s[i]))
    && (forall i :: hi <= i < |s| ==> IsWhiteSpace(s[i]))
  }

  /** `r` is the piece `s[lo..hi]` of `s` for some bounds with only whitespace outside them. */
  ghost predicate PieceOf(r: string, s: string) {
    exists lo, hi :: Surrounded(s, lo, hi) && r == s[lo..hi]
  }

  /**
   * `Trim()`: the piece of `s` left once the whitespace at both ends is
   * removed; it has no whitespace at either end, and it is empty exactly
   * when `s` is nothing but whitespace.
   */
  function Trim(s: string): (r: string)
    ensures |r| <= |s|
    ensures Trimmed(r)
    ensures r == [] <==> IsNullOrWhiteSpace(s)
    ensures PieceOf(r, s)
    decreases |s|
  {
    if |s| > 0 && IsWhiteSpace(s[0]) then
      var r := Trim(s[1..]);
      PieceOfDropFirst(r, s);
      r
    else if |s| > 0 && IsWhiteSpace(s[|s| - 1]) then
      var r := Trim(s[..|s| - 1]);
      PieceOfDropLast(r, s);
      r
    else
      assert Surrounded(s, 0, |s|) && s == s[0..|s|];
      s
  }

  /** A piece of `s[1..]` is a piece of `s` when `s` starts with whitespace. */
  lemma PieceOfDropFirst(r: string, s: string)
    requires |s| > 0 && IsWhiteSpace(s[0]) && PieceOf(r, s[1..])
    ensures PieceOf(r, s)
    ensures IsNullOrWhiteSpace(s) <==> IsNullOrWhiteSpace(s[1..])
  {
    var lo, hi :| Surrounded(s[1..], lo, hi) && r == s[1..][lo..hi];
    forall i | 0 <= i < lo + 1 ensures IsWhiteSpace(s[i]) {
      if i > 0 { assert s[i] == s[1..][i - 1]; }
    }
    forall i | hi + 1 <= i < |s| ensures IsWhiteSpace(s[i]) {
      assert s[i] == s[1..][i - 1];
    }
    assert Surrounded(s, lo + 1, hi + 1) && r == s[lo + 1..hi + 1];
    if IsNullOrWhiteSpace(s[1..]) {
      forall i | 0 <= i < |s| ensures IsWhiteSpace(s[i]) {
        if i > 0 { assert s[i] == s[1..][i - 1]; }
      }
    }
  }

  /** A piece of `s[..|s| - 1]` is a piece of `s` when `s` ends with whitespace. */
  lemma PieceOfDropLast(r: string, s: string)
    requires |s| > 0 && IsWhiteSpace(s[|s| - 1]) && PieceOf(r, s[..|s| - 1])
    ensures PieceOf(r, s)
    ensures IsNullOrWhiteSpace(s) <==> IsNullOrWhiteSpace(s[..|s| - 1])
  {
    var init := s[..|s| - 1];
    var lo, hi :| Surrounded(init, lo, hi) && r == init[lo..hi];
    forall i | hi <= i < |s| ensures IsWhiteSpace(s[i]) {
      if i < |s| - 1 { assert s[i] == init[i]; }
    }
    assert Surrounded(s, lo, hi) && r == s[lo..hi];
    if IsNullOrWhiteSpace(init) {
      forall i | 0 <= i < |s| ensures IsWhiteSpace(s[i]) {
        if i < |s| - 1 { assert s[i] == init[i]; }
      }
    }
  }

  /**
   * The result of `Trim` is the only piece of `s` with no whitespace at
   * its ends that leaves only whitespace around it.
   */
  lemma {:induction false} TrimUnique(s: string, lo: int, hi: int)
    requires Surrounded(s, lo, hi) && Trimmed(s[lo..hi])
    ensures s[lo..hi] == Trim(s)
  {
    var r := Trim(s);
    var lo2, hi2 :| Surrounded(s, lo2, hi2) && r == s[lo2..hi2];
    if lo == hi {
      assert IsNullOrWhiteSpace(s) by {
        forall i | 0 <= i < |s| ensures IsWhiteSpace(s[i]) {
          if i >= lo { assert i >= hi; }
        }
      }
    } else if lo2 == hi2 {
      assert false;
    } else {
      SurroundedUnique(s, lo, hi, lo2, hi2);
    }
  }

  /** Two non-empty trimmed pieces with only whitespace around them are the same piece. */
  lemma SurroundedUnique(s: string, lo: int, hi: int, lo2: int, hi2: int)
    requires Surrounded(s, lo, hi) && lo < hi && Trimmed(s[lo..hi])
    requires Surrounded(s, lo2, hi2) && lo2 < hi2 && Trimmed(s[lo2..hi2])
    ensures lo == lo2 && hi == hi2
  {
    assert s[lo..hi][0] == s[lo] && s[lo2..hi2][0] == s[lo2];
    assert s[lo..hi][hi - lo - 1] == s[hi - 1] && s[lo2..hi2][hi2 - lo2 - 1] == s[hi2 - 1];
  }

  /** `char.ToUpperInvariant` on ASCII: maps 'a'..'z' to 'A'..'Z'. */
  function UpperChar(c: char): (u: char)
    ensures 'a' <= c <= 'z' ==> 'A' <= u <= 'Z' && u as int - 'A' as int == c as int - 'a' as int
    ensures !('a' <= c <= 'z') ==> u == c
    ensures IsWhiteSpace(u) <==> IsWhiteSpace(c)
  {
    if 'a' <= c <= 'z' then (c as int - 32) as char else c
  }

  /** `ToUpperInvariant` on a string, character by character. */
  function Upper(s: string): (r: string)
    ensures |r| == |s|
    ensures forall i :: 0 <= i < |s| ==> r[i] == UpperChar(s[i])
  {
    seq(|s|, i requires 0 <= i < |s| => UpperChar(s[i]))
  }

  /** Upper-casing twice is upper-casing once. */
  lemma UpperIdempotent(s: string)
    ensures Upper(Upper(s)) == Upper(s)
  {
  }

  /** Upper-casing works piece by piece. */
  lemma UpperAppend(a: string, b: string)
    ensures Upper(a + b) == Upper(a) + Upper(b)
  {
  }

  /** Digits have no case. */
  lemma UpperKeepsDigits(s: string)
    requires AllDigits(s)
    ensures Upper(s) == s
  {
  }

  /** A prefix of an upper-case string is upper case. */
  lemma UpperPrefix(s: string, n: nat)
    requires Upper(s) == s && n <= |s|
    ensures Upper(s[..n]) == s[..n]
  {
    forall i | 0 <= i < n ensures Upper(s[..n])[i] == s[..n][i] {
      assert Upper(s)[i] == s[i];
    }
  }

  /** Upper-casing keeps a string free of whitespace at its ends, and upper-cased. */
  lemma UpperKeepsEnds(s: string)
    ensures Trimmed(s) ==> Trimmed(Upper(s))
    ensures Upper(Upper(s)) == Upper(s)
  {
  }

  // ---------------------------------------------------------------------------
  // Sanitizing

  /** `Sanitize`: trimmed and upper-cased (the library's own helper is not part of this model). */
  function Sanitize(vat: string): (s: string)
    ensures |s| <= |vat|
    ensures Upper(s) == s
    ensures s == [] <==> IsNullOrWhiteSpace(vat)
    ensures Trimmed(s)
    ensures exists lo, hi :: Surrounded(vat, lo, hi) && s == Upper(vat[lo..hi])
  {
    var t := Trim(vat);
    UpperKeepsEnds(t);
    UpperOfPiece(t, vat);
    Upper(t)
  }

  /** Upper-casing a piece of `vat` gives the upper-cased slice it is. */
  lemma UpperOfPiece(t: string, vat: string)
    requires PieceOf(t, vat)
    ensures exists lo, hi :: Surrounded(vat, lo, hi) && Upper(t) == Upper(vat[lo..hi])
  {
    var lo, hi :| Surrounded(vat, lo, hi) && t == vat[lo..hi];
    assert Surrounded(vat, lo, hi) && Upper(t) == Upper(vat[lo..hi]);
  }

  /** Input with no whitespace at its ends and no lower-case letter is already sanitized. */
  lemma SanitizeKeepsCleanInput(vat: string)
    requires vat != [] && Trimmed(vat) && Upper(vat) == vat
    ensures Sanitize(vat) == vat
  {
  }

  /** Input with no whitespace at its ends is only upper-cased. */
  lemma SanitizeUpperCases(vat: string)
    requires vat != [] && Trimmed(vat)
    ensures Sanitize(vat) == Upper(vat)
  {
  }
}

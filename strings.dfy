/**
 * The pieces of Go's `strings` and `fmt` packages that the device search uses:
 * `strings.ToLower` (restricted to ASCII letters), `strings.Contains`, and the
 * `%d` formatting of an `int`.
 */
module Strings {
  import opened Wrappers

  predicate IsUpper(c: char) { 'A' <= c <= 'Z' }

  predicate IsDigit(c: char) { '0' <= c <= '9' }

  /** Lower-cases one ASCII letter; every other character is left alone. */
  function LowerChar(c: char): (r: char)
    ensures !IsUpper(r)
    ensures r == c || (IsUpper(c) && r as int == c as int + 32)
  {
    if IsUpper(c) then (c as int + 32) as char else c
  }

  /** `strings.ToLower`, character by character. */
  function ToLower(s: string): (r: string)
    ensures |r| == |s|
    ensures forall i :: 0 <= i < |s| ==> r[i] == LowerChar(s[i])
  {
    if s == [] then [] else [LowerChar(s[0])] + ToLower(s[1..])
  }

  /** Lower-casing twice is lower-casing once. */
  lemma ToLowerIdempotent(s: string)
    ensures ToLower(ToLower(s)) == ToLower(s)
  {
    var once := ToLower(s);
    forall i | 0 <= i < |s|
      ensures ToLower(once)[i] == once[i]
    {
      assert !IsUpper(once[i]);
    }
  }

  /** `substr` occurs in `s` at position `i`. */
  predicate OccursAt(s: string, substr: string, i: int)
  {
    0 <= i && i + |substr| <= |s| && s[i..i + |substr|] == substr
  }

  /** `strings.Contains(s, substr)`: some window of `s` spells `substr`. */
  function Contains(s: string, substr: string): (r: bool)
    ensures r <==> exists i :: OccursAt(s, substr, i)
    decreases |s|
  {
    if |substr| <= |s| && s[..|substr|] == substr then
      assert OccursAt(s, substr, 0);
      true
    else if s == [] then
      assert forall i :: !OccursAt(s, substr, i);
      false
    else
      var rest := Contains(s[1..], substr);
      assert forall i :: OccursAt(s[1..], substr, i) <==> OccursAt(s, substr, i + 1);
      assert !OccursAt(s, substr, 0);
      assert forall i :: OccursAt(s, substr, i) ==> i == 0 || OccursAt(s[1..], substr, i - 1);
      rest
  }

  /** Every string contains the empty string (Go's `strings.Contains(s, "")` is true). */
  lemma ContainsEmpty(s: string)
    ensures Contains(s, "")
  {
    assert OccursAt(s, "", 0);
  }

  /**
   * Lower-casing the haystack does not change whether a needle without letters
   * occurs in it: an upper-case letter never lower-cases to a non-letter.
   */
  lemma ContainsLetterFree(s: string, substr: string)
    requires forall k :: 0 <= k < |substr| ==> !('a' <= substr[k] <= 'z') && !IsUpper(substr[k])
    ensures Contains(ToLower(s), substr) <==> Contains(s, substr)
  {
    forall i
      ensures OccursAt(ToLower(s), substr, i) <==> OccursAt(s, substr, i)
    {
      if 0 <= i && i + |substr| <= |s| {
        OccursAtLetterFree(s, substr, i);
      }
    }
  }

  /** `ContainsLetterFree` at one position of the haystack. */
  lemma OccursAtLetterFree(s: string, substr: string, i: int)
    requires forall k :: 0 <= k < |substr| ==> !('a' <= substr[k] <= 'z') && !IsUpper(substr[k])
    requires 0 <= i && i + |substr| <= |s|
    ensures OccursAt(ToLower(s), substr, i) <==> OccursAt(s, substr, i)
  {
    var w, lw := s[i..i + |substr|], ToLower(s)[i..i + |substr|];
    forall k | 0 <= k < |substr|
      ensures lw[k] == substr[k] <==> w[k] == substr[k]
    {
      assert w[k] == s[i + k] && lw[k] == LowerChar(s[i + k]);
      LowerCharLetterFree(s[i + k], substr[k]);
    }
  }

  /** Only `d` itself lower-cases to a character `d` that is not a letter. */
  lemma LowerCharLetterFree(c: char, d: char)
    requires !('a' <= d <= 'z') && !IsUpper(d)
    ensures LowerChar(c) == d <==> c == d
  {
  }

  function DigitChar(d: nat): (c: char)
    requires d < 10
    ensures IsDigit(c)
  {
    "0123456789"[d]
  }

  function DigitValue(c: char): (d: nat)
    requires IsDigit(c)
    ensures d < 10 && DigitChar(d) == c
  {
    c as int - '0' as int
  }

  /** The decimal digits of `n`, most significant first, without leading zeros. */
  function NatToDecimal(n: nat): (r: string)
    ensures |r| >= 1
    ensures forall i :: 0 <= i < |r| ==> IsDigit(r[i])
    ensures r[0] == '0' ==> n == 0
    decreases n
  {
    if n < 10 then [DigitChar(n)] else NatToDecimal(n / 10) + [DigitChar(n % 10)]
  }

  /** `fmt.Sprintf("%d", n)`: a minus sign for negative numbers, then the digits of |n|. */
  function FormatInt(n: int): (r: string)
    ensures |r| >= 1
    ensures n < 0 <==> r[0] == '-'
    ensures forall i :: 0 < i < |r| ==> IsDigit(r[i])
    ensures IsDigit(r[0]) || r[0] == '-'
    ensures n >= 0 && r[0] == '0' ==> n == 0
  {
    if n < 0 then "-" + NatToDecimal(-n) else NatToDecimal(n)
  }

  /** The value of a string of decimal digits. */
  function DecimalValue(s: string): nat
    requires forall i :: 0 <= i < |s| ==> IsDigit(s[i])
  {
    if s == [] then 0 else DecimalValue(s[..|s| - 1]) * 10 + DigitValue(s[|s| - 1])
  }

  /** Reads back what `FormatInt` writes: an optional minus sign and at least one digit. */
  function ParseInt(s: string): Option<int>
  {
    if |s| >= 2 && s[0] == '-' && forall i :: 1 <= i < |s| ==> IsDigit(s[i]) then
      Some(-(DecimalValue(s[1..]) as int))
    else if |s| >= 1 && forall i :: 0 <= i < |s| ==> IsDigit(s[i]) then
      Some(DecimalValue(s) as int)
    else
      None
  }

  lemma {:induction false} DecimalOfNat(n: nat)
    ensures DecimalValue(NatToDecimal(n)) == n
    decreases n
  {
    var r := NatToDecimal(n);
    if n >= 10 {
      var front := NatToDecimal(n / 10);
      DecimalOfNat(n / 10);
      assert r == front + [DigitChar(n % 10)];
      assert r[..|r| - 1] == front;
      assert DecimalValue(r) == DecimalValue(front) * 10 + n % 10;
    }
  }

  /** `FormatInt` loses nothing: parsing its output gives the number back. */
  lemma FormatIntRoundTrip(n: int)
    ensures ParseInt(FormatInt(n)) == Some(n)
  {
    var digits := NatToDecimal(if n < 0 then -n else n);
    DecimalOfNat(if n < 0 then -n else n);
    ParseDigits(digits);
    if n < 0 {
      assert FormatInt(n) == "-" + digits;
    }
  }

  /** A non-empty string of digits parses to its value, and with a minus sign in front to the negated value. */
  lemma ParseDigits(digits: string)
    requires |digits| >= 1 && forall i :: 0 <= i < |digits| ==> IsDigit(digits[i])
    ensures ParseInt(digits) == Some(DecimalValue(digits) as int)
    ensures ParseInt("-" + digits) == Some(-(DecimalValue(digits) as int))
  {
    var signed := "-" + digits;
    assert signed[1..] == digits;
    assert forall i :: 1 <= i < |signed| ==> signed[i] == digits[i - 1];
  }

  /** Distinct numbers format to distinct strings. */
  lemma FormatIntInjective(m: int, n: int)
    requires FormatInt(m) == FormatInt(n)
    ensures m == n
  {
    FormatIntRoundTrip(m);
    FormatIntRoundTrip(n);
  }
}

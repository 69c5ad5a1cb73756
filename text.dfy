/**
 * Character classes and number text for the particle text format of
 * survivor/base_game.py: how integers are printed by an f-string and read
 * back by float(), and the character sets of the two regular expressions
 * used by decode.
 */
module Text {
  import opened Wrappers

  /** `\w`, restricted to ASCII. */
  predicate IsWordChar(c: char)
  {
    ('a' <= c <= 'z') || ('A' <= c <= 'Z') || ('0' <= c <= '9') || c == '_'
  }

  /** `\s`: the ASCII and Latin-1 whitespace characters. */
  predicate IsSpace(c: char)
  {
    c == ' ' || ('\t' <= c <= '\r') || (28 as char <= c <= 31 as char) || c == 133 as char || c == 160 as char
  }

  /** `[^\s,<>]`: a character a value token may contain. */
  predicate IsValueChar(c: char)
  {
    !IsSpace(c) && c != ',' && c != '<' && c != '>'
  }

  predicate IsDigit(c: char)
  {
    '0' <= c <= '9'
  }

  predicate AllDigits(s: string)
  {
    forall i :: 0 <= i < |s| ==> IsDigit(s[i])
  }

  /** A token that can stand as a value and survive the brace-block scan. */
  predicate IsCleanToken(s: string)
  {
    |s| > 0 && forall i :: 0 <= i < |s| ==> IsValueChar(s[i]) && s[i] != '}'
  }

  /** Every character is ASCII, where `\w`, `\s` and float()'s digits are the classes above. */
  predicate IsAscii(s: string)
  {
    forall i :: 0 <= i < |s| ==> s[i] < 128 as char
  }

  predicate HasDigit(s: string)
  {
    exists i :: 0 <= i < |s| && IsDigit(s[i])
  }

  /** `s` spells the lower-case ASCII word `w` in any mix of cases. */
  predicate SpellsIgnoringCase(s: string, w: string)
  {
    |s| == |w| && forall i :: 0 <= i < |s| ==> s[i] == w[i] || s[i] as int == w[i] as int - 32
  }

  /** `inf`, `infinity` or `nan` in any case, after an optional sign. */
  predicate NamesSpecialFloat(s: string)
  {
    var t := if |s| > 0 && (s[0] == '-' || s[0] == '+') then s[1..] else s;
    SpellsIgnoringCase(t, "inf") || SpellsIgnoringCase(t, "infinity") || SpellsIgnoringCase(t, "nan")
  }

  /**
   * A token Python's float() might accept. Every ASCII token float()
   * accepts holds a decimal digit or names infinity or nan, so a token
   * outside this set is one that float() rejects.
   */
  predicate MayReadAsFloat(s: string)
  {
    HasDigit(s) || NamesSpecialFloat(s)
  }

  predicate IsWord(s: string)
  {
    |s| > 0 && forall i :: 0 <= i < |s| ==> IsWordChar(s[i])
  }

  function DigitChar(d: nat): (c: char)
    requires d < 10
    ensures IsDigit(c)
  {
    ('0' as int + d) as char
  }

  function DigitValue(c: char): (d: nat)
    requires IsDigit(c)
    ensures d < 10 && DigitChar(d) == c
  {
    (c as int - '0' as int)
  }

  /** str() of a non-negative int. */
  function NatText(n: nat): (s: string)
    ensures |s| > 0 && AllDigits(s)
    decreases n
  {
    if n < 10 then [DigitChar(n)] else NatText(n / 10) + [DigitChar(n % 10)]
  }

  /** The value of a run of decimal digits. */
  function DigitsValue(s: string): (n: nat)
    requires AllDigits(s)
    decreases |s|
  {
    if s == [] then 0 else DigitsValue(s[..|s| - 1]) * 10 + DigitValue(s[|s| - 1])
  }

  /** str() of an int. */
  function IntText(i: int): (s: string)
    ensures IsCleanToken(s)
  {
    var s := if i < 0 then "-" + NatText(-i) else NatText(i);
    assert forall k :: 0 <= k < |s| ==> s[k] == '-' || IsDigit(s[k]);
    s
  }

  /** The number of decimal digits at the start of `s`. */
  function LeadingDigits(s: string): (k: nat)
    ensures k <= |s| && AllDigits(s[..k])
    ensures k < |s| ==> !IsDigit(s[k])
  {
    if s == [] || !IsDigit(s[0]) then 0
    else
      var k := 1 + LeadingDigits(s[1..]);
      assert s[..k] == [s[0]] + s[1..][..k - 1];
      k
  }

  predicate AllZeros(s: string)
  {
    forall i :: 0 <= i < |s| ==> s[i] == '0'
  }

  /** An unsigned whole-number literal: digits, optionally followed by `.` and zeros. */
  function ParseUnsigned(s: string): (r: Option<nat>)
  {
    var k := LeadingDigits(s);
    if k == 0 then None
    else if k == |s| || (s[k] == '.' && AllZeros(s[k + 1..])) then Some(DigitsValue(s[..k]))
    else None
  }

  /**
   * float() restricted to whole numbers: an optional sign, one or more
   * decimal digits, and optionally a point followed by zeros.
   */
  function ParseNumber(s: string): (r: Option<int>)
    ensures r.Some? ==> |s| > 0
  {
    if |s| > 0 && (s[0] == '-' || s[0] == '+') then
      match ParseUnsigned(s[1..])
      case Some(n) => Some(if s[0] == '-' then 0 - n else n)
      case None => None
    else ParseUnsigned(s)
  }

  /** repr() of a float holding the whole number `i`. */
  function FloatText(i: int): (s: string)
    ensures IsCleanToken(s)
  {
    IntText(i) + ".0"
  }

  lemma {:induction false} NatTextValue(n: nat)
    ensures DigitsValue(NatText(n)) == n
    decreases n
  {
    if n >= 10 {
      var s := NatText(n / 10) + [DigitChar(n % 10)];
      assert s[..|s| - 1] == NatText(n / 10);
      NatTextValue(n / 10);
    }
  }

  /** The digits of a literal, alone or followed by `.0`, read back as their value. */
  lemma {:induction false} DigitsThenPoint(d: string, t: string)
    requires |d| > 0 && AllDigits(d)
    requires t == "" || t == ".0"
    ensures ParseUnsigned(d + t) == Some(DigitsValue(d))
  {
    var s := d + t;
    LeadingDigitsOf(d, t);
    assert s[..|d|] == d;
    if t == ".0" {
      assert s[|d| + 1..] == "0";
    }
  }

  lemma {:induction false} LeadingDigitsOf(d: string, t: string)
    requires AllDigits(d)
    requires t == "" || !IsDigit(t[0])
    ensures LeadingDigits(d + t) == |d|
    decreases |d|
  {
    if d != [] {
      assert (d + t)[1..] == d[1..] + t;
      LeadingDigitsOf(d[1..], t);
    } else {
      assert d + t == t;
    }
  }

  /** A token without a decimal digit is not a number to the model's float(). */
  lemma NoDigitNoNumber(s: string)
    requires !HasDigit(s)
    ensures ParseNumber(s).None?
  {
    if |s| > 0 && (s[0] == '-' || s[0] == '+') {
      if |s| > 1 {
        assert s[1..][0] == s[1];
      }
    }
  }

  /** Printing an int and reading it back with float() gives the same number. */
  lemma {:induction false} IntTextRoundTrip(i: int)
    ensures ParseNumber(IntText(i)) == Some(i)
    ensures ParseNumber(FloatText(i)) == Some(i)
  {
    var n: nat := if i < 0 then -i else i;
    var d := NatText(n);
    NatTextValue(n);
    assert d + "" == d;
    if i < 0 {
      SignedRoundTrip(d, "", n);
      SignedRoundTrip(d, ".0", n);
      assert IntText(i) == "-" + d;
      assert FloatText(i) == "-" + (d + ".0");
    } else {
      UnsignedRoundTrip(d, "", n);
      UnsignedRoundTrip(d, ".0", n);
      assert IntText(i) == d;
    }
  }

  lemma {:induction false} SignedRoundTrip(d: string, t: string, n: nat)
    requires |d| > 0 && AllDigits(d) && DigitsValue(d) == n
    requires t == "" || t == ".0"
    ensures ParseNumber("-" + (d + t)) == Some(0 - n)
  {
    DigitsThenPoint(d, t);
    assert ("-" + (d + t))[1..] == d + t;
  }

  lemma {:induction false} UnsignedRoundTrip(d: string, t: string, n: nat)
    requires |d| > 0 && AllDigits(d) && DigitsValue(d) == n
    requires t == "" || t == ".0"
    ensures ParseNumber(d + t) == Some(n)
  {
    DigitsThenPoint(d, t);
    assert (d + t)[0] == d[0];
  }
}

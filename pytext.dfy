/** The few pieces of Python's text behaviour the scraper relies on:
    `str()` of an integer, and the `in` operator on two strings. */
module PyText {

  function DigitChar(d: nat): (c: char)
    requires d < 10
    ensures '0' <= c <= '9'
  {
    "0123456789"[d]
  }

  function DigitValue(c: char): nat
  {
    if '0' <= c <= '9' then (c - '0') as nat else 0
  }

  predicate IsDigits(s: string)
  {
    forall i :: 0 <= i < |s| ==> '0' <= s[i] <= '9'
  }

  /** Decimal digits of a natural number, most significant first, without leading zeros. */
  function NatToText(n: nat): (s: string)
    ensures |s| > 0 && IsDigits(s)
    ensures |s| > 1 ==> s[0] != '0'
    decreases n
  {
    if n < 10 then [DigitChar(n)] else NatToText(n / 10) + [DigitChar(n % 10)]
  }

  /** Python's `str(i)` for an `int`: a minus sign for negative values, then the digits. */
  function IntToText(i: int): (s: string)
    ensures |s| > 0
    ensures i >= 0 <==> s[0] != '-'
  {
    if i < 0 then "-" + NatToText(-i) else NatToText(i)
  }

  /** Reads a string of decimal digits back as a number (the inverse of NatToText). */
  function TextToNat(s: string): nat
  {
    if s == [] then 0 else 10 * TextToNat(s[..|s| - 1]) + DigitValue(s[|s| - 1])
  }

  /** Reads an optionally signed decimal numeral (the inverse of IntToText). */
  function TextToInt(s: string): int
  {
    if |s| > 0 && s[0] == '-' then -(TextToNat(s[1..]) as int) else TextToNat(s)
  }

  lemma {:induction false} NatTextRoundTrip(n: nat)
    ensures TextToNat(NatToText(n)) == n
    decreases n
  {
    var s := NatToText(n);
    if n < 10 {
      assert s[..|s| - 1] == [];
    } else {
      NatTextRoundTrip(n / 10);
      assert s[..|s| - 1] == NatToText(n / 10);
      assert DigitValue(s[|s| - 1]) == n % 10 by {
        assert s[|s| - 1] == DigitChar(n % 10);
      }
    }
  }

  /** `str()` loses nothing: every integer is read back from its text. */
  lemma IntTextRoundTrip(i: int)
    ensures TextToInt(IntToText(i)) == i
  {
    if i < 0 {
      var t := NatToText(-i);
      var s := "-" + t;
      assert IntToText(i) == s;
      assert |s| > 0 && s[0] == '-' && s[1..] == t;
      NatTextRoundTrip(-i);
      assert TextToInt(s) == -(TextToNat(t) as int);
    } else {
      var s := NatToText(i);
      assert IntToText(i) == s;
      assert '0' <= s[0] <= '9';
      NatTextRoundTrip(i);
      assert TextToInt(s) == TextToNat(s);
    }
  }

  /** Consequently `str()` is injective on integers. */
  lemma IntTextInjective(i: int, j: int)
    requires IntToText(i) == IntToText(j)
    ensures i == j
  {
    IntTextRoundTrip(i);
    IntTextRoundTrip(j);
  }

  /** `t` occurs in `s` at position `i`. */
  predicate OccursAt(t: string, s: string, i: int)
  {
    0 <= i && i + |t| <= |s| && s[i..i + |t|] == t
  }

  /** Python's `t in s` for two strings: a case-sensitive substring test. */
  function Contains(s: string, t: string): (r: bool)
    ensures r <==> exists i :: OccursAt(t, s, i)
    decreases |s|
  {
    if |t| > |s| then false
    else if s[..|t|] == t then assert OccursAt(t, s, 0); true
    else
      var rest := Contains(s[1..], t);
      ContainsShift(s, t, rest);
      rest
  }

  /** One step of Contains: an occurrence in `s` that is not at 0 is an occurrence in `s[1..]`. */
  lemma ContainsShift(s: string, t: string, rest: bool)
    requires |t| <= |s| && s[..|t|] != t
    requires rest <==> exists i :: OccursAt(t, s[1..], i)
    ensures rest <==> exists i :: OccursAt(t, s, i)
  {
    if rest {
      var i :| OccursAt(t, s[1..], i);
      assert s[1..][i..i + |t|] == s[i + 1..i + 1 + |t|];
      assert OccursAt(t, s, i + 1);
    } else {
      forall i | OccursAt(t, s, i) ensures false {
        if i != 0 {
          assert s[1..][i - 1..i - 1 + |t|] == s[i..i + |t|];
          assert OccursAt(t, s[1..], i - 1);
        }
      }
    }
  }
}

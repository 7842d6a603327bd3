/** Decimal text of non-negative integers, as fmt.Sprint writes an int that
    is not negative, together with a reference reader for such text. */
module Decimal {
  import opened Wrappers

  predicate IsDigit(c: char) {
    '0' <= c <= '9'
  }

  function DigitValue(c: char): (d: nat)
    requires IsDigit(c)
    ensures d < 10
  {
    c as int - '0' as int
  }

  function DigitChar(d: nat): (c: char)
    requires d < 10
    ensures IsDigit(c) && DigitValue(c) == d
  {
    ('0' as int + d) as char
  }

  /** Text fmt.Sprint can produce for a non-negative int: digits only, and
      no leading zero unless the number is zero itself. */
  predicate Canonical(s: string) {
    && |s| > 0
    && (forall i :: 0 <= i < |s| ==> IsDigit(s[i]))
    && (s[0] == '0' ==> |s| == 1)
  }

  /** The decimal text of `n`. */
  function Show(n: nat): (s: string)
    ensures Canonical(s)
    ensures s == "0" <==> n == 0
    decreases n
  {
    if n < 10 then [DigitChar(n)] else Show(n / 10) + [DigitChar(n % 10)]
  }

  /** Reads a non-empty string of decimal digits; anything else is None. */
  function Read(s: string): (r: Option<nat>)
    ensures r.Some? <==> |s| > 0 && forall i :: 0 <= i < |s| ==> IsDigit(s[i])
    decreases |s|
  {
    if |s| == 0 || !IsDigit(s[|s| - 1]) then None
    else if |s| == 1 then Some(DigitValue(s[0]))
    else
      match Read(s[..|s| - 1])
      case None => None
      case Some(v) => Some(10 * v + DigitValue(s[|s| - 1]))
  }

  /** Reading back what Show writes gives the number that was written. */
  lemma {:induction false} ReadShow(n: nat)
    ensures Read(Show(n)) == Some(n)
    decreases n
  {
    if n >= 10 {
      var s := Show(n);
      assert s[..|s| - 1] == Show(n / 10);
      ReadShow(n / 10);
    }
  }

  /** Every canonical text is what Show writes for the number it reads as,
      so Show is a bijection between naturals and canonical texts. */
  lemma {:induction false} ShowRead(s: string)
    requires Canonical(s)
    ensures Read(s).Some? && Show(Read(s).value) == s
    decreases |s|
  {
    if |s| > 1 {
      var p := s[..|s| - 1];
      assert Canonical(p);
      ShowRead(p);
      var v := Read(p).value;
      assert v != 0 by {
        assert p[0] != '0';
      }
      var d := DigitValue(s[|s| - 1]);
      assert Read(s) == Some(10 * v + d);
      assert (10 * v + d) / 10 == v && (10 * v + d) % 10 == d;
      assert DigitChar(d) == s[|s| - 1];
      assert s == p + [s[|s| - 1]];
    } else {
      assert DigitChar(DigitValue(s[0])) == s[0];
    }
  }
}

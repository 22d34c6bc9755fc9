/** Decimal printing and parsing of integers, as used by storage keys, capture ids and JSON. */
module Decimal {
  import opened Wrappers

  predicate IsDigit(c: char) {
    '0' <= c <= '9'
  }

  predicate AllDigits(s: string) {
    forall i :: 0 <= i < |s| ==> IsDigit(s[i])
  }

  function DigitValue(c: char): nat
    requires IsDigit(c)
  {
    c as int - '0' as int
  }

  /** The shortest decimal numeral of n. */
  function Dec(n: nat): (s: string)
    ensures |s| > 0 && AllDigits(s)
  {
    var last := ('0' as int + n % 10) as char;
    if n < 10 then [last] else Dec(n / 10) + [last]
  }

  function Value(s: string): nat
    requires AllDigits(s)
  {
    if s == [] then 0 else 10 * Value(s[..|s| - 1]) + DigitValue(s[|s| - 1])
  }

  lemma {:induction false} ValueOfDec(n: nat)
    ensures Value(Dec(n)) == n
  {
    if n >= 10 {
      ValueOfDec(n / 10);
      assert Dec(n)[..|Dec(n)| - 1] == Dec(n / 10);
    }
  }

  /** Powers of ten, for bounding the length of a numeral. */
  function Pow10(k: nat): (p: nat)
    ensures p >= 1
  {
    if k == 0 then 1 else 10 * Pow10(k - 1)
  }

  lemma {:induction false} DecLength(n: nat, k: nat)
    requires 1 <= k && n < Pow10(k)
    ensures |Dec(n)| <= k
  {
    if n >= 10 {
      assert k > 1 by {
        assert Pow10(1) == 10 * Pow10(0);
      }
      DecLength(n / 10, k - 1);
    }
  }

  /** Python's str() of an int. */
  function DecInt(n: int): string {
    if n < 0 then "-" + Dec(-n) else Dec(n)
  }

  /** Python's int() on an optional sign followed by ASCII digits; None stands for ValueError. */
  function ParseInt(s: string): Option<int> {
    if s == "" then None
    else
      var signed := s[0] == '-' || s[0] == '+';
      var digits := if signed then s[1..] else s;
      if digits == "" || !AllDigits(digits) then None
      else if s[0] == '-' then Some(-(Value(digits) as int)) else Some(Value(digits))
  }

  lemma ParsePrinted(n: int)
    ensures ParseInt(DecInt(n)) == Some(n)
  {
    if n < 0 {
      ValueOfDec(-n);
      assert DecInt(n)[1..] == Dec(-n);
    } else {
      ValueOfDec(n);
    }
  }

  function Zeros(n: nat): (s: string)
    ensures |s| == n && AllDigits(s)
  {
    seq(n, _ => '0')
  }

  /** The format specification ":03d" on a natural number. */
  function Pad3(n: nat): (s: string)
    ensures AllDigits(s)
  {
    var s := Dec(n);
    if |s| < 3 then Zeros(3 - |s|) + s else s
  }

  lemma {:induction false} ValueOfLeadingZeros(k: nat, s: string)
    requires AllDigits(s)
    ensures AllDigits(Zeros(k) + s) && Value(Zeros(k) + s) == Value(s)
    decreases |s| + k
  {
    var padded := Zeros(k) + s;
    if s != [] {
      ValueOfLeadingZeros(k, s[..|s| - 1]);
      assert padded[..|padded| - 1] == Zeros(k) + s[..|s| - 1];
    } else if k > 0 {
      ValueOfLeadingZeros(k - 1, s);
      assert padded[..|padded| - 1] == Zeros(k - 1) + s;
    }
  }

  lemma Pad3Injective(m: nat, n: nat)
    ensures Pad3(m) == Pad3(n) ==> m == n
  {
    forall k: nat | k == m || k == n
      ensures Value(Pad3(k)) == k
    {
      ValueOfDec(k);
      if |Dec(k)| < 3 {
        ValueOfLeadingZeros(3 - |Dec(k)|, Dec(k));
      }
    }
  }
}

/** Decimal rendering and parsing of integers, as strconv does them. */
module Decimal {
  import opened Wrappers
  import opened Models

  const ZERO: int := 48
  const MINUS: byte := 45

  function Digits(n: nat): (s: Bytes)
    ensures s != []
  {
    var d := [(ZERO + n % 10) as byte];
    if n < 10 then d else Digits(n / 10) + d
  }

  /** strconv.FormatInt in base 10; strconv.Itoa is the same. */
  function FormatInt(n: int): Bytes {
    if n < 0 then [MINUS] + Digits(-n) else Digits(n)
  }

  predicate IsDigit(b: byte) {
    ZERO <= b as int < ZERO + 10
  }

  function ParseDigits(s: Bytes): Option<int> {
    if s == [] then Some(0)
    else
      var last := s[|s| - 1];
      match ParseDigits(s[..|s| - 1])
      case None => None
      case Some(n) => if IsDigit(last) then Some(10 * n + (last as int - ZERO)) else None
  }

  function ParseInt(s: Bytes): Option<int> {
    if s == [] || s == [MINUS] then None
    else if s[0] == MINUS then
      match ParseDigits(s[1..])
      case None => None
      case Some(n) => Some(0 - n)
    else
      match ParseDigits(s)
      case None => None
      case Some(n) => Some(n)
  }

  lemma {:induction false} DigitsParse(n: nat)
    ensures ParseDigits(Digits(n)) == Some(n)
    ensures forall i :: 0 <= i < |Digits(n)| ==> IsDigit(Digits(n)[i])
  {
    var d := [(ZERO + n % 10) as byte];
    if n < 10 {
      assert d[..0] == [];
    } else {
      DigitsParse(n / 10);
      assert (Digits(n / 10) + d)[..|Digits(n / 10)|] == Digits(n / 10);
    }
  }

  /** Parsing what was formatted gives the number back, over all integers. */
  lemma FormatParses(n: int)
    ensures ParseInt(FormatInt(n)) == Some(n)
  {
    if n < 0 {
      DigitsParse(-n);
      assert FormatInt(n)[1..] == Digits(-n);
    } else {
      DigitsParse(n);
    }
  }

  /** The numerals are the usual ones: the last digit is the remainder by ten, and the minus sign comes first. */
  lemma FormatIsDecimal(n: int)
    ensures 0 <= n < 10 ==> FormatInt(n) == [(48 + n) as byte]
    ensures n >= 10 ==> FormatInt(n) == FormatInt(n / 10) + [(48 + n % 10) as byte]
    ensures n > 0 ==> FormatInt(-n) == [45 as byte] + FormatInt(n)
  {
  }

  function Pow10(k: nat): nat {
    if k == 0 then 1 else 10 * Pow10(k - 1)
  }

  lemma {:induction false} DigitsLength(n: nat, k: nat)
    requires k >= 1 && n < Pow10(k)
    ensures |Digits(n)| <= k
  {
    assert Pow10(1) == 10;
    if n >= 10 {
      DigitsLength(n / 10, k - 1);
    }
  }
}

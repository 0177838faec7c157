/** Decimal integers as the program prints and parses them. */
module Decimal {
  import opened Wrappers
  import opened MachineInts

  predicate IsDigit(c: char) {
    '0' <= c <= '9'
  }

  function DigitChar(d: nat): (c: char)
    requires d < 10
    ensures IsDigit(c) && DigitValue(c) == d
  {
    '0' + d as char
  }

  function DigitValue(c: char): (d: nat)
    requires IsDigit(c)
    ensures d < 10
  {
    (c - '0') as nat
  }

  predicate AllDigits(s: string) {
    forall i :: 0 <= i < |s| ==> IsDigit(s[i])
  }

  /** Unpadded digits of a natural number. */
  function Digits(n: nat): (s: string)
    ensures |s| >= 1 && AllDigits(s)
  {
    if n < 10 then [DigitChar(n)] else Digits(n / 10) + [DigitChar(n % 10)]
  }

  function ValueOf(s: string): nat
    requires AllDigits(s)
  {
    if s == [] then 0 else 10 * ValueOf(s[..|s| - 1]) + DigitValue(s[|s| - 1])
  }

  lemma {:induction false} ValueOfDigits(n: nat)
    ensures ValueOf(Digits(n)) == n
  {
    if n < 10 {
      assert Digits(n)[..0] == [];
    } else {
      ValueOfDigits(n / 10);
      assert Digits(n)[..|Digits(n)| - 1] == Digits(n / 10);
    }
  }

  /** `to_string` of a signed integer. */
  function PrintInt(n: int): (s: string)
    ensures |s| >= 1
    ensures forall i :: 0 <= i < |s| ==> IsDigit(s[i]) || s[i] == '-'
  {
    if n < 0 then ['-'] + Digits(-n) else Digits(n)
  }

  /** `str::parse` into a signed type with bounds `lo` and `hi`: one optional
      sign, at least one digit, nothing else, and the value in range. */
  function ParseInt(s: string, lo: int, hi: int): (r: Option<int>)
    ensures r.Some? ==> lo <= r.value <= hi
  {
    if s == [] then None
    else
      var digits := if s[0] == '-' || s[0] == '+' then s[1..] else s;
      if digits == [] || !AllDigits(digits) then None
      else
        var magnitude: int := ValueOf(digits);
        var n := if s[0] == '-' then -magnitude else magnitude;
        if lo <= n <= hi then Some(n) else None
  }

  function ParseInt32(s: string): (r: Option<Int32>) {
    match ParseInt(s, -0x8000_0000, 0x7FFF_FFFF)
    case Some(n) => Some(n)
    case None => None
  }

  /** `str::parse` into an unsigned type: no minus sign. */
  function ParseUnsigned(s: string, hi: nat): (r: Option<nat>)
    ensures r.Some? ==> r.value <= hi
  {
    if s == [] then None
    else
      var digits := if s[0] == '+' then s[1..] else s;
      if digits == [] || !AllDigits(digits) || ValueOf(digits) > hi then None
      else Some(ValueOf(digits))
  }

  /** Printing and parsing are inverse exactly on the values of the type. */
  lemma ParsePrintInt(n: int, lo: int, hi: int)
    ensures ParseInt(PrintInt(n), lo, hi) == (if lo <= n <= hi then Some(n) else None)
  {
    if n < 0 {
      var s := Digits(-n);
      ValueOfDigits(-n);
      assert PrintInt(n) == ['-'] + s;
      assert (['-'] + s)[1..] == s;
    } else {
      ValueOfDigits(n);
      assert IsDigit(Digits(n)[0]);
    }
  }

  /** What parses: digits behind at most one sign, and the value they have. */
  lemma ParsesIff(s: string, lo: int, hi: int)
    requires lo <= 0 <= hi
    ensures var signed := s != [] && (s[0] == '+' || s[0] == '-');
            var digits := if signed then s[1..] else s;
            && (ParseInt(s, lo, hi).Some? ==> digits != [] && AllDigits(digits))
            && (digits != [] && AllDigits(digits) ==>
                  var n: int := if s[0] == '-' then -(ValueOf(digits) as int) else ValueOf(digits);
                  ParseInt(s, lo, hi) == if lo <= n <= hi then Some(n) else None)
  {
  }

  /** What parses as unsigned: the same without the minus sign. */
  lemma UnsignedParsesIff(s: string, hi: nat)
    ensures var digits := if s != [] && s[0] == '+' then s[1..] else s;
            && (ParseUnsigned(s, hi).Some? ==> digits != [] && AllDigits(digits))
            && (digits != [] && AllDigits(digits) ==>
                  ParseUnsigned(s, hi) == if ValueOf(digits) <= hi then Some(ValueOf(digits)) else None)
  {
  }

  /** Digits are written with the most significant first. */
  lemma KnownDigits()
    ensures Digits(0) == "0" && Digits(7) == "7" && Digits(210) == "210" && PrintInt(-35) == "-35"
    ensures ValueOf("210") == 210 && ValueOf("007") == 7
  {
    assert Digits(2) == "2" && Digits(21) == "21" && Digits(3) == "3" && Digits(35) == "35";
    ValueOfDigits(210);
    ValueOfPadded(7, 3);
    assert Padded(7, 3) == "007";
  }

  lemma ParsePrintInt32(n: Int32)
    ensures ParseInt32(PrintInt(n)) == Some(n)
  {
    ParsePrintInt(n, -0x8000_0000, 0x7FFF_FFFF);
  }

  function Zeros(k: nat): (s: string)
    ensures |s| == k && AllDigits(s)
  {
    seq(k, i => '0')
  }

  /** A natural number padded with zeros to a minimum width, as `{:0w}` prints it. */
  function Padded(n: nat, width: nat): (s: string)
    ensures |s| >= width && |s| >= 1 && AllDigits(s)
  {
    var s := Digits(n);
    if |s| < width then Zeros(width - |s|) + s else s
  }

  lemma {:induction false} ValueOfZeros(k: nat, s: string)
    requires AllDigits(s)
    ensures ValueOf(Zeros(k) + s) == ValueOf(s)
    decreases k + |s|
  {
    if s == [] {
      assert Zeros(k) + s == Zeros(k);
      if k > 0 {
        ValueOfZeros(k - 1, []);
        assert Zeros(k)[..k - 1] == Zeros(k - 1);
        assert Zeros(k - 1) + [] == Zeros(k - 1);
      }
    } else {
      var t := s[..|s| - 1];
      ValueOfZeros(k, t);
      assert (Zeros(k) + s)[..k + |s| - 1] == Zeros(k) + t;
    }
  }

  lemma ValueOfPadded(n: nat, width: nat)
    ensures ValueOf(Padded(n, width)) == n
  {
    ValueOfDigits(n);
    if |Digits(n)| < width {
      ValueOfZeros(width - |Digits(n)|, Digits(n));
    }
  }

  lemma PaddedStep(q: nat, d: nat, width: nat)
    requires d < 10 && width >= 1
    ensures Padded(10 * q + d, width + 1) == Padded(q, width) + [DigitChar(d)]
  {
    if q == 0 {
      assert Digits(0) == [DigitChar(0)] && Digits(d) == [DigitChar(d)];
      assert Zeros(width) == Zeros(width - 1) + [DigitChar(0)];
    } else {
      assert (10 * q + d) / 10 == q && (10 * q + d) % 10 == d;
      assert Digits(10 * q + d) == Digits(q) + [DigitChar(d)];
    }
  }

  /** Padding is the only way to write a value in so many digits. */
  lemma {:induction false} PaddedOfValue(s: string)
    requires s != [] && AllDigits(s)
    ensures Padded(ValueOf(s), |s|) == s
  {
    var d := DigitValue(s[|s| - 1]);
    if |s| == 1 {
      assert ValueOf(s) == d;
      assert s == [DigitChar(d)];
    } else {
      var t := s[..|s| - 1];
      PaddedOfValue(t);
      PaddedStep(ValueOf(t), d, |t|);
      assert s == t + [DigitChar(d)];
    }
  }

  function Pow10(k: nat): nat {
    if k == 0 then 1 else 10 * Pow10(k - 1)
  }

  /** The number of digits is the least that can hold the value. */
  lemma {:induction false} DigitsLength(n: nat, k: nat)
    requires k >= 1
    ensures |Digits(n)| <= k <==> n < Pow10(k)
    decreases n
  {
    assert Pow10(k) == 10 * Pow10(k - 1);
    if n < 10 {
      assert Pow10(k - 1) >= 1 by { Pow10Positive(k - 1); }
    } else {
      assert |Digits(n)| == |Digits(n / 10)| + 1;
      if k == 1 {
      } else {
        DigitsLength(n / 10, k - 1);
      }
    }
  }

  lemma Pow10Positive(k: nat)
    ensures Pow10(k) >= 1
  {
  }

  lemma PaddedLength(n: nat, width: nat)
    requires width >= 1
    ensures |Padded(n, width)| == width <==> n < Pow10(width)
  {
    DigitsLength(n, width);
  }
}

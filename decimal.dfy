/** Go's strconv.Itoa and strconv.Atoi over Dafny's unbounded integers. */
module Decimal {
  import opened Outcomes

  /** The bounds of Go's `int` on a 64-bit platform, which Atoi enforces. */
  const MaxInt: int := 0x7fff_ffff_ffff_ffff
  const MinInt: int := -0x8000_0000_0000_0000

  predicate IsDigit(c: char) { '0' <= c <= '9' }

  predicate AllDigits(s: string) { forall i :: 0 <= i < |s| ==> IsDigit(s[i]) }

  function DigitChar(d: nat): (c: char)
    requires d < 10
    ensures IsDigit(c)
  {
    ('0' as int + d) as char
  }

  function DigitValue(c: char): (d: nat)
    requires IsDigit(c)
    ensures d < 10
  {
    c as int - '0' as int
  }

  /** The decimal digits of n, most significant first, without leading zeros. */
  function NatToDigits(n: nat): (s: string)
    ensures |s| >= 1 && AllDigits(s)
    ensures s[0] == '0' ==> n == 0
    ensures n < 10 <==> |s| == 1
    decreases n
  {
    if n < 10 then [DigitChar(n)] else NatToDigits(n / 10) + [DigitChar(n % 10)]
  }

  /** The value of a string of decimal digits, most significant first. */
  function DigitsToNat(s: string): nat
    requires AllDigits(s)
  {
    if s == [] then 0 else DigitsToNat(s[..|s| - 1]) * 10 + DigitValue(s[|s| - 1])
  }

  /** strconv.Itoa: a minus sign for negative numbers, then the digits. */
  function Itoa(n: int): (s: string)
    ensures |s| >= 1
    ensures n >= 0 ==> AllDigits(s)
    ensures n < 0 ==> s[0] == '-' && AllDigits(s[1..])
  {
    if n < 0 then "-" + NatToDigits(-n) else NatToDigits(n)
  }

  /** strconv.Atoi: an optional sign followed by at least one decimal digit,
      whose value must fit a 64-bit int. Underscores are not accepted in
      base 10, and leading zeros are. */
  function Atoi(s: string): (r: Outcome<int>)
    ensures r.Ok? ==> MinInt <= r.value <= MaxInt
    ensures r.Failed? ==> r.error == SyntaxError || r.error == RangeError
    ensures !r.Panicked?
  {
    var signed := |s| > 0 && (s[0] == '-' || s[0] == '+');
    var body := if signed then s[1..] else s;
    if body == [] || !AllDigits(body) then Failed(SyntaxError)
    else
      var v: int := if s[0] == '-' then 0 - DigitsToNat(body) as int else DigitsToNat(body);
      if v < MinInt || v > MaxInt then Failed(RangeError) else Ok(v)
  }

  lemma {:induction false} DigitsRoundTrip(n: nat)
    ensures DigitsToNat(NatToDigits(n)) == n
    decreases n
  {
    if n >= 10 {
      var s := NatToDigits(n);
      assert s[..|s| - 1] == NatToDigits(n / 10);
      DigitsRoundTrip(n / 10);
    }
  }

  /** Atoi inverts Itoa on every int of the platform. */
  lemma AtoiItoa(n: int)
    requires MinInt <= n <= MaxInt
    ensures Atoi(Itoa(n)) == Ok(n)
  {
    if n < 0 {
      var d := NatToDigits(-n);
      DigitsRoundTrip(-n);
      AtoiNegative(d);
      assert Itoa(n) == "-" + d;
    } else {
      var d := NatToDigits(n);
      DigitsRoundTrip(n);
      AtoiUnsigned(d);
      assert Itoa(n) == d;
    }
  }

  lemma AtoiUnsigned(d: string)
    requires d != [] && AllDigits(d) && DigitsToNat(d) <= MaxInt
    ensures Atoi(d) == Ok(DigitsToNat(d) as int)
  {
    assert IsDigit(d[0]);
  }

  lemma AtoiPlus(d: string)
    requires d != [] && AllDigits(d) && DigitsToNat(d) <= MaxInt
    ensures Atoi("+" + d) == Ok(DigitsToNat(d) as int)
  {
    assert ("+" + d)[1..] == d;
  }

  lemma AtoiNegative(d: string)
    requires d != [] && AllDigits(d) && DigitsToNat(d) <= -MinInt
    ensures Atoi("-" + d) == Ok(0 - DigitsToNat(d))
  {
    assert ("-" + d)[1..] == d;
  }

  /** Atoi also accepts a leading zero and a plus sign, both of which make
      the text longer than Itoa of the value it returns. */
  lemma {:induction false} AtoiAcceptsLongerForms(n: nat)
    requires n <= MaxInt
    ensures Atoi("0" + Itoa(n)) == Ok(n) && Atoi("+" + Itoa(n)) == Ok(n)
    ensures |"0" + Itoa(n)| == |Itoa(n)| + 1 && |"+" + Itoa(n)| == |Itoa(n)| + 1
  {
    var d := NatToDigits(n);
    DigitsRoundTrip(n);
    LeadingZeroValue(d);
    AtoiUnsigned("0" + d);
    AtoiPlus(d);
    assert Itoa(n) == d;
  }

  lemma {:induction false} LeadingZeroValue(d: string)
    requires AllDigits(d)
    ensures AllDigits("0" + d) && DigitsToNat("0" + d) == DigitsToNat(d)
    decreases |d|
  {
    var z := "0" + d;
    assert AllDigits(z);
    if d != [] {
      assert z[..|z| - 1] == "0" + d[..|d| - 1];
      LeadingZeroValue(d[..|d| - 1]);
    }
  }
}

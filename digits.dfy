/** Decimal digit runs: their value and the canonical rendering of a number. */
module Digits {

  predicate IsDigit(c: char) {
    '0' <= c <= '9'
  }

  predicate AllDigits(ds: seq<char>) {
    forall k :: 0 <= k < |ds| ==> IsDigit(ds[k])
  }

  function DigitValue(c: char): (d: nat)
    requires IsDigit(c)
    ensures d < 10
  {
    c as int - '0' as int
  }

  function DigitChar(d: nat): (c: char)
    requires d < 10
    ensures IsDigit(c) && DigitValue(c) == d
  {
    ('0' as int + d) as char
  }

  function Pow10(k: nat): (p: nat)
    ensures p >= 1
  {
    if k == 0 then 1 else 10 * Pow10(k - 1)
  }

  /**
   * The base-10 value of a digit run: below 10 to the power of its length, and
   * zero exactly when every digit is `0`.
   */
  function Value(ds: seq<char>): (v: nat)
    requires AllDigits(ds)
    ensures v < Pow10(|ds|)
    ensures v == 0 <==> forall k :: 0 <= k < |ds| ==> ds[k] == '0'
    decreases |ds|
  {
    if ds == [] then 0 else Value(ds[..|ds| - 1]) * 10 + DigitValue(ds[|ds| - 1])
  }

  /** The shortest decimal rendering of `n` (no leading zeros, "0" for zero). */
  function Decimal(n: nat): (ds: seq<char>)
    ensures ds != [] && AllDigits(ds)
    ensures ds[0] == '0' ==> n == 0
    decreases n
  {
    if n < 10 then [DigitChar(n)] else Decimal(n / 10) + [DigitChar(n % 10)]
  }

  /** Reading back a rendered number gives the number. */
  lemma {:induction false} ValueOfDecimal(n: nat)
    ensures Value(Decimal(n)) == n
    decreases n
  {
    if n >= 10 {
      var ds := Decimal(n);
      assert ds[..|ds| - 1] == Decimal(n / 10);
      ValueOfDecimal(n / 10);
    }
  }

  /** A leading zero does not change the value of a digit run. */
  lemma {:induction false} LeadingZero(ds: seq<char>)
    requires AllDigits(ds)
    ensures AllDigits(['0'] + ds) && Value(['0'] + ds) == Value(ds)
    decreases |ds|
  {
    var zs := ['0'] + ds;
    if ds != [] {
      assert zs[..|zs| - 1] == ['0'] + ds[..|ds| - 1];
      LeadingZero(ds[..|ds| - 1]);
    }
  }

  function Zeros(k: nat): (zs: seq<char>)
    ensures |zs| == k && AllDigits(zs)
  {
    seq(k, _ => '0')
  }

  /** Any number of leading zeros leaves the value unchanged. */
  lemma {:induction false} LeadingZeros(k: nat, ds: seq<char>)
    requires AllDigits(ds)
    ensures AllDigits(Zeros(k) + ds) && Value(Zeros(k) + ds) == Value(ds)
    decreases k
  {
    if k > 0 {
      LeadingZeros(k - 1, ds);
      LeadingZero(Zeros(k - 1) + ds);
      OneMoreZero(k, ds);
    } else {
      assert Zeros(k) == [];
      assert Zeros(k) + ds == ds;
    }
  }

  lemma OneMoreZero(k: nat, ds: seq<char>)
    requires k > 0
    ensures Zeros(k) + ds == ['0'] + (Zeros(k - 1) + ds)
  {
    assert Zeros(k) == ['0'] + Zeros(k - 1);
  }

  /** A digit run that does not start with `0` is the rendering of its own value. */
  lemma {:induction false} DecimalOfValue(ds: seq<char>)
    requires ds != [] && AllDigits(ds) && ds[0] != '0'
    ensures Decimal(Value(ds)) == ds
    decreases |ds|
  {
    var init := ds[..|ds| - 1];
    var last := DigitValue(ds[|ds| - 1]);
    if init == [] {
      assert ds == [DigitChar(last)];
    } else {
      DecimalOfValue(init);
      PositiveValue(init);
      assert Value(ds) / 10 == Value(init) && Value(ds) % 10 == last;
      assert ds == init + [ds[|ds| - 1]];
    }
  }

  lemma {:induction false} PositiveValue(ds: seq<char>)
    requires ds != [] && AllDigits(ds) && ds[0] != '0'
    ensures Value(ds) > 0
    decreases |ds|
  {
    if |ds| > 1 {
      PositiveValue(ds[..|ds| - 1]);
    }
  }
}

/**
 * The decimal parse `strconv.Atoi` applies to every key under `apps`, on a
 * 64-bit platform: an optional sign, one or more ASCII digits, nothing else
 * (no spaces, no underscores), and a value that fits Go's `int`.
 */
module Decimal {
  import opened Outcomes

  const MinInt: int := -0x8000_0000_0000_0000
  const MaxInt: int := 0x7fff_ffff_ffff_ffff

  predicate IsDigit(c: char) { '0' <= c <= '9' }

  predicate AllDigits(s: string) { forall i :: 0 <= i < |s| ==> IsDigit(s[i]) }

  /** The value of a string of digits, most significant first. */
  function DigitsValue(s: string): nat
    requires AllDigits(s)
  {
    if s == [] then 0 else 10 * DigitsValue(s[..|s| - 1]) + (s[|s| - 1] - '0') as nat
  }

  /** `strconv.Atoi`: `None` stands for the syntax and range errors it returns. */
  function Atoi(s: string): (r: Option<int>)
    ensures r.Some? ==> MinInt <= r.value <= MaxInt
    ensures r.Some? ==> |s| > 0 && (IsDigit(s[0]) || s[0] == '+' || s[0] == '-')
  {
    var negative := |s| > 0 && s[0] == '-';
    var digits := if |s| > 0 && (s[0] == '+' || s[0] == '-') then s[1..] else s;
    if digits == [] || !AllDigits(digits) then None
    else
      var v: int := if negative then -(DigitsValue(digits) as int) else DigitsValue(digits);
      if MinInt <= v <= MaxInt then Some(v) else None
  }

  /** The digits of `n`, without leading zeros. */
  function NatToDigits(n: nat): (s: string)
    ensures s != [] && AllDigits(s)
  {
    if n < 10 then ['0' + n as char]
    else NatToDigits(n / 10) + ['0' + (n % 10) as char]
  }

  /** The canonical decimal form of an identifier, as `strconv.Itoa` writes it. */
  function Itoa(n: int): string
  {
    if n < 0 then "-" + NatToDigits(-n) else NatToDigits(n)
  }

  lemma {:induction false} DigitsRoundTrip(n: nat)
    ensures DigitsValue(NatToDigits(n)) == n
  {
    if n >= 10 {
      var s := NatToDigits(n);
      assert s[..|s| - 1] == NatToDigits(n / 10);
      DigitsRoundTrip(n / 10);
    }
  }

  /** Every Go `int` written in decimal parses back to itself. */
  lemma AtoiItoa(n: int)
    requires MinInt <= n <= MaxInt
    ensures Atoi(Itoa(n)) == Some(n)
  {
    if n < 0 {
      assert Itoa(n)[1..] == NatToDigits(-n);
      DigitsRoundTrip(-n);
    } else {
      DigitsRoundTrip(n);
    }
  }

  /**
   * The form `Itoa` writes: no '+', no leading zero, and no "-0". Only keys in
   * this form name an ID that no other key names.
   */
  predicate Canonical(s: string)
  {
    var digits := if |s| > 0 && s[0] == '-' then s[1..] else s;
    |digits| > 0 && IsDigit(digits[0]) && (digits[0] != '0' || (digits == "0" && s == digits))
  }

  lemma {:induction false} LeadingDigitPositive(d: string)
    requires d != [] && AllDigits(d) && d[0] != '0'
    ensures DigitsValue(d) >= 1
  {
    if |d| > 1 {
      LeadingDigitPositive(d[..|d| - 1]);
    }
  }

  lemma {:induction false} DigitsCanonical(d: string)
    requires d != [] && AllDigits(d) && (d[0] != '0' || d == "0")
    ensures NatToDigits(DigitsValue(d)) == d
  {
    var n := |d| - 1;
    if n > 0 {
      var init := d[..n];
      assert init[0] == d[0] && AllDigits(init);
      LeadingDigitPositive(init);
      DigitsCanonical(init);
      assert DigitsValue(d) / 10 == DigitsValue(init);
      assert DigitsValue(d) % 10 == (d[n] - '0') as nat;
      assert d == init + [d[n]];
    }
  }

  /** A canonical key that parses is the decimal form of its value: parsing is one-to-one on such keys. */
  lemma ItoaAtoi(s: string, n: int)
    requires Atoi(s) == Some(n) && Canonical(s)
    ensures s == Itoa(n)
  {
    if s[0] == '-' {
      var d := s[1..];
      DigitsCanonical(d);
      assert d[0] != '0';
      LeadingDigitPositive(d);
      assert s == "-" + d;
    } else {
      DigitsCanonical(s);
    }
  }

  lemma {:induction false} LeadingDigit(n: nat)
    ensures NatToDigits(n)[0] != '0' || n == 0
  {
    if n >= 10 {
      LeadingDigit(n / 10);
    }
  }

  /** Every ID written by `Itoa` is canonical, so the canonical keys are exactly the decimal forms of IDs. */
  lemma ItoaCanonical(n: int)
    ensures Canonical(Itoa(n))
  {
    if n < 0 {
      LeadingDigit(-n);
      assert Itoa(n)[1..] == NatToDigits(-n);
    } else {
      LeadingDigit(n);
      if n == 0 { assert NatToDigits(n) == "0"; }
    }
  }

  /** Keys that are not plain decimal numbers are refused. */
  lemma AtoiRejects()
    ensures Atoi("") == None && Atoi("-") == None && Atoi("+") == None
    ensures Atoi("12a") == None && Atoi(" 1") == None
    ensures Atoi("+007") == Some(7)
  {
    assert !IsDigit('a') && !IsDigit(' ');
    assert "12a"[2] == 'a';
    assert DigitsValue("7") == 7;
    assert DigitsValue("07") == 7;
    assert "+007"[1..] == "007" && "007"[..2] == "00";
    assert DigitsValue("007") == 7;
  }
}

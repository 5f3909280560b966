// Decimal rendering of integers, as strconv.Itoa, %d and %04d produce it.

module Decimal {

  function DigitChar(d: nat): (c: char)
    requires d < 10
    ensures '0' <= c <= '9'
  {
    ('0' as int + d) as char
  }

  function Digits(n: nat): (s: string)
    ensures |s| > 0
    ensures forall i :: 0 <= i < |s| ==> '0' <= s[i] <= '9'
    ensures n > 0 ==> s[0] != '0'
  {
    if n < 10 then [DigitChar(n)] else Digits(n / 10) + [DigitChar(n % 10)]
  }

  function Itoa(n: int): (s: string)
    ensures |s| > 0
    ensures forall i :: 0 <= i < |s| ==> s[i] == '-' || '0' <= s[i] <= '9'
  {
    if n < 0 then "-" + Digits(-n) else Digits(n)
  }

  // %0wd for a non-negative number: zeros in front up to width w.
  function ZeroPad(s: string, w: nat): string
    decreases w
  {
    if |s| >= w then s else "0" + ZeroPad(s, w - 1)
  }

  function ParseNat(s: string): int {
    if s == [] then 0 else 10 * ParseNat(s[..|s| - 1]) + (s[|s| - 1] as int - '0' as int)
  }

  lemma {:induction false} ParseDigits(n: nat)
    ensures ParseNat(Digits(n)) == n
  {
    if n < 10 {
      assert Digits(n)[..0] == [];
    } else {
      ParseDigits(n / 10);
      assert Digits(n)[..|Digits(n)| - 1] == Digits(n / 10);
    }
  }

  lemma {:induction false} ParseLeadingZero(s: string)
    ensures ParseNat("0" + s) == ParseNat(s)
  {
    if s == [] {
      assert "0" + s == "0";
      assert "0"[..0] == "";
    } else {
      ParseLeadingZero(s[..|s| - 1]);
      assert ("0" + s)[..|s|] == "0" + s[..|s| - 1];
    }
  }

  lemma {:induction false} ParsePadded(s: string, w: nat)
    ensures ParseNat(ZeroPad(s, w)) == ParseNat(s)
    decreases w
  {
    if |s| < w {
      ParsePadded(s, w - 1);
      ParseLeadingZero(ZeroPad(s, w - 1));
    }
  }

  function ParseInt(s: string): int
    requires s != []
  {
    if s[0] == '-' then -ParseNat(s[1..]) else ParseNat(s)
  }

  lemma ParseItoa(n: int)
    ensures ParseInt(Itoa(n)) == n
  {
    if n < 0 {
      assert Itoa(n)[1..] == Digits(-n);
      ParseDigits(-n);
    } else {
      ParseDigits(n);
    }
  }

  // The digits are read back, and there is no padding: zero is one digit, other numbers do
  // not start with one.
  lemma ItoaReadsBack(n: int)
    ensures ParseInt(Itoa(n)) == n
    ensures n == 0 ==> Itoa(n) == "0"
    ensures n > 0 ==> '1' <= Itoa(n)[0] <= '9'
    ensures n < 0 ==> Itoa(n)[0] == '-' && |Itoa(n)| > 1 && '1' <= Itoa(n)[1] <= '9'
  {
    ParseItoa(n);
  }

  lemma ItoaInjective(m: int, n: int)
    requires Itoa(m) == Itoa(n)
    ensures m == n
  {
    ParseItoa(m);
    ParseItoa(n);
  }

  predicate AllDigits(s: string) { forall i :: 0 <= i < |s| ==> '0' <= s[i] <= '9' }

  lemma {:induction false} PaddedDigits(s: string, w: nat)
    requires AllDigits(s)
    ensures AllDigits(ZeroPad(s, w))
    ensures |ZeroPad(s, w)| == if |s| >= w then |s| else w
    decreases w
  {
    if |s| < w {
      PaddedDigits(s, w - 1);
    }
  }

  function Pow10(k: nat): (p: nat)
    ensures p >= 1
  {
    if k == 0 then 1 else 10 * Pow10(k - 1)
  }

  lemma {:induction false} DigitCount(n: nat, k: nat)
    requires k >= 1
    ensures |Digits(n)| <= k <==> n < Pow10(k)
    decreases k
  {
    if k == 1 {
      assert Pow10(1) == 10 * Pow10(0) == 10;
    } else if n >= 10 {
      DigitCount(n / 10, k - 1);
      assert n / 10 < Pow10(k - 1) <==> n < 10 * Pow10(k - 1);
    }
  }

  // Four digits are enough below ten thousand.
  lemma FourDigits(n: nat)
    ensures |Digits(n)| <= 4 <==> n < 10000
  {
    DigitCount(n, 4);
    assert Pow10(4) == 10 * Pow10(3) == 100 * Pow10(2) == 1000 * Pow10(1) == 10000 * Pow10(0);
  }

  // %04d: digits that read back as the number, four of them or more, and more only when
  // four do not suffice.
  lemma PaddedReadsBack(n: nat)
    ensures var w := ZeroPad(Digits(n), 4);
            AllDigits(w) && ParseNat(w) == n && |w| >= 4 && (|w| == 4 <==> n < 10000)
  {
    PaddedDigits(Digits(n), 4);
    ParsePadded(Digits(n), 4);
    ParseDigits(n);
    FourDigits(n);
  }

  lemma PaddedInjective(m: nat, n: nat, w: nat)
    requires ZeroPad(Digits(m), w) == ZeroPad(Digits(n), w)
    ensures m == n
  {
    ParsePadded(Digits(m), w);
    ParsePadded(Digits(n), w);
    ParseDigits(m);
    ParseDigits(n);
  }
}

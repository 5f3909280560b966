// Powers of two, bitwise and, and residues.

module Binary {

  function Pow2(k: nat): (r: nat)
    ensures r >= 1
  {
    if k == 0 then 1 else 2 * Pow2(k - 1)
  }

  ghost predicate IsPow2(n: nat) { exists k :: n == Pow2(k) }

  function BitAnd(a: nat, b: nat): nat {
    if a == 0 || b == 0 then 0 else 2 * BitAnd(a / 2, b / 2) + (a % 2) * (b % 2)
  }

  lemma MultipleIsLarge(a: int, m: int)
    requires m > 0
    ensures a >= 1 ==> a * m >= m
    ensures a <= -1 ==> a * m <= -m
  {
    if a >= 1 {
      assert a * m == (a - 1) * m + m;
    } else if a <= -1 {
      assert a * m == (a + 1) * m - m;
    }
  }

  lemma ModUnique(n: nat, m: nat, q: nat, r: nat)
    requires m > 0 && n == q * m + r && r < m
    ensures n % m == r && n / m == q
  {
    var q', r' := n / m, n % m;
    assert n == q' * m + r';
    assert (q - q') * m == q * m - q' * m == r' - r;
    MultipleIsLarge(q - q', m);
  }

  lemma HalfMod(n: nat, p: nat)
    requires p > 0
    ensures n % (2 * p) == 2 * (n / 2 % p) + n % 2
  {
    var q, r := n / 2 / p, n / 2 % p;
    assert n / 2 == q * p + r;
    assert n == 2 * (n / 2) + n % 2;
    assert 2 * (q * p) == q * (2 * p);
    ModUnique(n, 2 * p, q, 2 * r + n % 2);
  }

  // Masking with an odd number, one bit at a time.
  lemma AndOdd(n: nat, p: nat)
    requires p > 0
    ensures BitAnd(n, 2 * p - 1) == 2 * BitAnd(n / 2, p - 1) + n % 2
  {
    assert (2 * p - 1) / 2 == p - 1 && (2 * p - 1) % 2 == 1;
  }

  lemma MaskDoubles(n: nat, p: nat)
    requires p > 0 && BitAnd(n / 2, p - 1) == n / 2 % p
    ensures BitAnd(n, 2 * p - 1) == n % (2 * p)
  {
    AndOdd(n, p);
    HalfMod(n, p);
  }

  // Masking with 2^k - 1 is the residue modulo 2^k.
  lemma {:induction false} MaskIsMod(n: nat, k: nat)
    ensures BitAnd(n, Pow2(k) - 1) == n % Pow2(k)
  {
    if k == 0 {
      assert BitAnd(n, 0) == 0 && n % 1 == 0;
    } else {
      MaskIsMod(n / 2, k - 1);
      MaskDoubles(n, Pow2(k - 1));
    }
  }

  // Fewer than m consecutive positions have different residues.
  lemma ResiduesDiffer(i: nat, j: nat, m: nat)
    requires m > 0 && i < j < i + m
    ensures i % m != j % m
  {
    if i % m == j % m {
      var a, b := i / m, j / m;
      assert i == a * m + i % m && j == b * m + j % m;
      assert (b - a) * m == b * m - a * m == j - i;
      MultipleIsLarge(b - a, m);
    }
  }
}

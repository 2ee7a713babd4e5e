/** Natural numbers as doubles: which there are, and which of them a text reads as. */
module JsNumbers {

  const TWO_53: nat := 0x20_0000_0000_0000
  const TWO_56: nat := 0x100_0000_0000_0000

  /** At most 53 significant bits. */
  predicate IsDouble(n: nat) {
    n <= TWO_53 || (n % 2 == 0 && IsDouble(n / 2))
  }

  function Distance(m: nat, n: nat): nat {
    if m < n then n - m else m - n
  }

  /** `x` is a double, and none is nearer to `n`: what the decimal digits of `n` are read as, up to ties. */
  ghost predicate ReadsAs(n: nat, x: nat) {
    IsDouble(x) && forall y: nat | IsDouble(y) :: Distance(n, x) <= Distance(n, y)
  }

  lemma SafeIntegersReadExactly(n: nat, x: nat)
    requires ReadsAs(n, x) && x < TWO_53
    ensures n == x
  {
    var nearer := if n <= TWO_53 then n else TWO_53;
    assert IsDouble(nearer) && Distance(n, x) <= Distance(n, nearer);
  }

  function Pow2(k: nat): (p: nat)
    ensures p > 0
  {
    if k == 0 then 1 else 2 * Pow2(k - 1)
  }

  /** A double above 2^(53 + k) is a multiple of 2^(k + 1). */
  lemma {:induction false} LargeDoublesAreMultiples(n: nat, k: nat) returns (q: nat)
    requires IsDouble(n) && n > TWO_53 * Pow2(k)
    ensures n == q * Pow2(k + 1)
  {
    assert n > TWO_53;
    if k == 0 {
      q := n / 2;
    } else {
      q := LargeDoublesAreMultiples(n / 2, k - 1);
      assert n == 2 * (q * Pow2(k)) == q * (2 * Pow2(k));
    }
  }

  /** Powers of two scale a double. */
  lemma {:induction false} ScaledIsDouble(m: nat, k: nat)
    requires m <= TWO_53
    ensures IsDouble(m * Pow2(k))
  {
    if k > 0 {
      ScaledIsDouble(m, k - 1);
      assert m * Pow2(k) == 2 * (m * Pow2(k - 1));
    } else {
      assert m * Pow2(0) == m;
    }
  }

  /** 100000000000000016 is a double, 4 away from the digits it prints as; its neighbours are 16 apart. */
  lemma LargeNumberReadsBack()
    ensures ReadsAs(100000000000000020, 100000000000000016)
  {
    var n: nat, x: nat := 100000000000000020, 100000000000000016;
    assert Pow2(3) == 8 && Pow2(4) == 16;
    ScaledIsDouble(6250000000000001, 4);
    forall y: nat | IsDouble(y)
      ensures Distance(n, x) <= Distance(n, y)
    {
      if y > TWO_56 {
        var q := LargeDoublesAreMultiples(y, 3);
        Neighbours(q);
      }
    }
  }

  lemma Neighbours(q: nat)
    ensures Distance(100000000000000020, 100000000000000016) <= Distance(100000000000000020, 16 * q)
  {
  }
}

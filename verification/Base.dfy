/** Machine integers, results and the small helpers every other module uses. */
module Base {

  datatype Option<+T> = None | Some(value: T)

  datatype Result<+T, +E> = Ok(value: T) | Err(error: E)

  type byte = b: int | 0 <= b < 0x100
  type u32 = n: int | 0 <= n < 0x1_0000_0000
  type u64 = n: int | 0 <= n < 0x1_0000_0000_0000_0000

  const U32_MAX: u32 := 0xFFFF_FFFF
  const TWO_64 := 0x1_0000_0000_0000_0000

  function Min(a: int, b: int): int {
    if a <= b then a else b
  }

  /** `a.saturating_sub(b)`. */
  function SatSub(a: nat, b: nat): nat {
    if a <= b then 0 else a - b
  }

  /** Exclusive or of two `bits`-wide numbers. */
  function Xor(a: nat, b: nat, bits: nat): (x: nat)
    ensures x < Pow2(bits)
  {
    if bits == 0 then 0 else (if a % 2 == b % 2 then 0 else 1) + 2 * Xor(a / 2, b / 2, bits - 1)
  }

  function Xor64(a: u64, b: u64): u64 {
    Pow2Of64();
    Xor(a, b, 64)
  }

  /** `a.wrapping_mul(b)` on 64 bits. */
  function WrappingMul(a: u64, b: u64): u64 {
    (a * b) % TWO_64
  }

  /** `x >> shift`. */
  function Shr(x: nat, shift: nat): (y: nat)
    ensures y <= x
  {
    if shift == 0 then x else Shr(x / 2, shift - 1)
  }

  function Pow2(e: nat): (p: nat)
    ensures p > 0
  {
    if e == 0 then 1 else 2 * Pow2(e - 1)
  }

  /** Exclusive or with one number can be undone. */
  lemma {:induction false} XorCancels(a: nat, b: nat, c: nat, bits: nat)
    requires b < Pow2(bits) && c < Pow2(bits) && Xor(a, b, bits) == Xor(a, c, bits)
    ensures b == c
  {
    if bits == 0 {
    } else {
      XorCancels(a / 2, b / 2, c / 2, bits - 1);
      assert b % 2 == c % 2;
    }
  }

  /** Exclusive or with the number itself shifted right can be undone. */
  lemma {:induction false} XorShiftCancels(x: nat, y: nat, shift: nat, bits: nat)
    requires shift > 0 && x < Pow2(bits) && y < Pow2(bits)
    requires Xor(x, Shr(x, shift), bits) == Xor(y, Shr(y, shift), bits)
    ensures x == y
  {
    if bits == 0 {
    } else {
      HalfOfShr(x, shift);
      HalfOfShr(y, shift);
      XorShiftCancels(x / 2, y / 2, shift, bits - 1);
      assert Shr(x, shift) == Shr(y, shift);
      assert x % 2 == y % 2;
    }
  }

  lemma {:induction false} HalfOfShr(x: nat, shift: nat)
    ensures Shr(x, shift) / 2 == Shr(x / 2, shift)
  {
    if shift == 0 {
    } else {
      HalfOfShr(x / 2, shift - 1);
    }
  }

  lemma {:induction false} ShrDivides(x: nat, shift: nat)
    ensures Shr(x, shift) == x / Pow2(shift)
  {
    if shift == 0 {
    } else {
      ShrDivides(x / 2, shift - 1);
      DivDiv(x, 2, Pow2(shift - 1));
    }
  }

  lemma DivDiv(x: nat, a: nat, b: nat)
    requires a > 0 && b > 0
    ensures a * b > 0 && x / a / b == x / (a * b)
  {
    var q, r := x / a, x % a;
    var q', r' := q / b, q % b;
    assert a * b > 0 by {
      MulMonotone(a, 1, b);
    }
    assert x == (a * b) * q' + (a * r' + r) by {
      assert q == b * q' + r' && x == a * q + r;
      assert a * (b * q' + r') == a * (b * q') + a * r';
      assert a * (b * q') == (a * b) * q';
    }
    assert a * r' + r < a * b by {
      MulMonotone(a, r' + 1, b);
    }
    QuotientIsUnique(a * b, x, q', a * r' + r);
  }

  /** An odd factor changes nothing about divisibility by a power of two. */
  lemma {:induction false} OddFactor(d: nat, odd: nat, e: nat)
    requires odd % 2 == 1 && (d * odd) % Pow2(e) == 0
    ensures d % Pow2(e) == 0
  {
    if e == 0 {
    } else {
      var q := d * odd / Pow2(e);
      var p := Pow2(e - 1);
      assert d * odd == 2 * (p * q) by {
        assert d * odd == Pow2(e) * q;
        assert (2 * p) * q == 2 * (p * q);
      }
      assert d % 2 == 0 by {
        OddTimesOdd(d, odd);
      }
      var h := d / 2;
      assert h * odd == p * q by {
        assert (2 * h) * odd == 2 * (h * odd);
      }
      QuotientIsUnique(p, h * odd, q, 0);
      OddFactor(h, odd, e - 1);
      assert h == p * (h / p);
      assert d == Pow2(e) * (h / p) by {
        assert 2 * (p * (h / p)) == (2 * p) * (h / p);
      }
      QuotientIsUnique(Pow2(e), d, h / p, 0);
    }
  }

  lemma OddTimesOdd(a: nat, b: nat)
    requires b % 2 == 1 && (a * b) % 2 == 0
    ensures a % 2 == 0
  {
    assert a * b == a * (2 * (b / 2)) + a;
    assert a * (2 * (b / 2)) == 2 * (a * (b / 2));
  }

  /** Two products with an odd factor that agree modulo a power of two have equal other factors modulo it. */
  lemma OddFactorCancels(a: nat, b: nat, odd: nat, e: nat)
    requires odd % 2 == 1 && a <= b && b - a < Pow2(e) && (a * odd) % Pow2(e) == (b * odd) % Pow2(e)
    ensures a == b
  {
    MulMonotone(odd, a, b);
    assert (b - a) * odd == b * odd - a * odd;
    DifferenceDivides(a * odd, b * odd, Pow2(e));
    OddFactor(b - a, odd, e);
    QuotientIsUnique(Pow2(e), b - a, 0, b - a);
  }

  lemma DifferenceDivides(m: nat, n: nat, p: nat)
    requires p > 0 && m <= n && m % p == n % p
    ensures (n - m) % p == 0
  {
    QuotientGrows(m, n, p);
    var r, k := m % p, n / p - m / p;
    assert n - m == p * k by {
      assert m == p * (m / p) + r && n == p * (n / p) + r;
      assert p * (n / p) - p * (m / p) == p * k;
    }
    QuotientIsUnique(p, n - m, k, 0);
  }

  lemma QuotientGrows(m: nat, n: nat, p: nat)
    requires p > 0 && m <= n
    ensures m / p <= n / p
  {
    var q, q' := m / p, n / p;
    assert p * q <= m && n < p * q' + p;
    if q' < q {
      MulMonotone(p, q' + 1, q);
    }
  }

  /** A smaller power of two divides a larger one. */
  lemma ModOfMod(n: nat, small: nat, large: nat)
    requires small <= large
    ensures n % Pow2(large) % Pow2(small) == n % Pow2(small)
  {
    var c := PowQuotient(small, large);
    ModOfProduct(n, Pow2(small), c, Pow2(large));
  }

  lemma ModOfProduct(n: nat, p: nat, c: nat, pc: nat)
    requires p > 0 && pc == p * c > 0
    ensures n % pc % p == n % p
  {
    var q, r := n / pc, n % pc;
    assert n == pc * q + r;
    MulAssociates(p, c, q);
    DivMod(p, c * q, r);
  }

  lemma MulAssociates(a: nat, b: nat, c: nat)
    ensures (a * b) * c == a * (b * c)
  {
  }

  lemma {:induction false} PowersGrow(a: nat, b: nat)
    requires Pow2(a) <= Pow2(b)
    ensures a <= b
  {
    if a == 0 {
    } else if b == 0 {
      assert false;
    } else {
      PowersGrow(a - 1, b - 1);
    }
  }

  lemma SumOfMods(k: nat, m: nat, n: nat, p: nat)
    requires p > 0 && m % p == n % p
    ensures (k + m) % p == (k + n) % p
  {
    assert k + m == p * (m / p) + (k + m % p) && k + n == p * (n / p) + (k + n % p);
    DivMod(p, m / p, k + m % p);
    DivMod(p, n / p, k + n % p);
  }

  lemma {:induction false} PowQuotient(small: nat, large: nat) returns (c: nat)
    requires small <= large
    ensures Pow2(large) == Pow2(small) * c
  {
    if small == large {
      c := 1;
    } else {
      var less := PowQuotient(small, large - 1);
      c := 2 * less;
      assert Pow2(small) * (2 * less) == 2 * (Pow2(small) * less);
    }
  }

  lemma Associate<T>(a: seq<T>, b: seq<T>, c: seq<T>)
    ensures a + b + c == a + (b + c)
  {
  }

  lemma Pow2Of64()
    ensures Pow2(64) == TWO_64
  {
    assert Pow2(8) == 0x100;
    assert Pow2(16) == 0x100 * Pow2(8);
    assert Pow2(24) == 0x100 * Pow2(16);
    assert Pow2(32) == 0x100 * Pow2(24);
    assert Pow2(40) == 0x100 * Pow2(32);
    assert Pow2(48) == 0x100 * Pow2(40);
    assert Pow2(56) == 0x100 * Pow2(48);
    assert Pow2(64) == 0x100 * Pow2(56);
  }

  /** Splitting `k * c + t` into its block and the offset inside it. */
  lemma DivMod(k: nat, c: nat, t: nat)
    requires 0 < k
    ensures (k * c + t) / k == c + t / k
    ensures (k * c + t) % k == t % k
  {
    var q, r := t / k, t % k;
    assert k * c + t == k * (c + q) + r by {
      assert t == k * q + r;
      assert k * (c + q) == k * c + k * q;
    }
    QuotientIsUnique(k, k * c + t, c + q, r);
  }

  lemma QuotientIsUnique(k: nat, n: nat, q: nat, r: nat)
    requires 0 < k && n == k * q + r && r < k
    ensures n / k == q && n % k == r
  {
    var q', r' := n / k, n % k;
    assert n == k * q' + r';
    if q' < q {
      MulMonotone(k, q' + 1, q);
    } else if q < q' {
      MulMonotone(k, q + 1, q');
    }
  }

  lemma MulMonotone(k: nat, a: nat, b: nat)
    requires a <= b
    ensures k * a <= k * b
    ensures a * k <= b * k
  {
  }
}

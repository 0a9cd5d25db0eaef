/** Integer division facts the solver does not find on its own. */
module Arith {

  lemma MulAtLeast(a: int, d: int)
    requires a >= 1 && d > 0
    ensures a * d >= d
  {
    if a > 1 {
      MulAtLeast(a - 1, d);
      assert a * d == (a - 1) * d + d;
    }
  }

  lemma MulGap(a: int, b: int, d: int)
    requires a > b && d > 0
    ensures a * d >= b * d + d
  {
    MulAtLeast(a - b, d);
    assert (a - b) * d == a * d - b * d;
  }

  /** Quotient and remainder are determined by `x == q * d + r`, `0 <= r < d`. */
  lemma DivModUnique(x: int, d: int, q: int, r: int)
    requires d > 0 && 0 <= r < d && x == q * d + r
    ensures x / d == q && x % d == r
  {
    var q', r' := x / d, x % d;
    assert x == q' * d + r';
    if q' > q {
      MulGap(q', q, d);
    } else if q' < q {
      MulGap(q, q', d);
    }
  }

  lemma MulMono(a: int, b: int, d: int)
    ensures 0 <= a <= b && d >= 0 ==> a * d <= b * d
  {
    if 0 <= a <= b && d >= 0 {
      assert b * d - a * d == (b - a) * d;
    }
  }

  /** Multiplying by a positive number is one-to-one. */
  lemma MulCancel(a: nat, b: nat, d: nat)
    requires d > 0 && a * d == b * d
    ensures a == b
  {
    if a < b {
      MulGap(b, a, d);
    } else if a > b {
      MulGap(a, b, d);
    }
  }

  /** A quotient stays below `p` when the dividend stays below `d * p`. */
  lemma DivBound(n: nat, d: nat, p: nat)
    requires d > 0 && n < d * p
    ensures n / d < p
  {
    MulMono(p, n / d, d);
  }

  /** Dividing by `a` and then by `b` is dividing by `a * b`. */
  lemma DivDiv(n: nat, a: nat, b: nat)
    requires a > 0 && b > 0
    ensures n / a / b == n / (a * b)
  {
    var q1, r1 := n / a, n % a;
    var q2, r2 := q1 / b, q1 % b;
    assert n == a * (b * q2 + r2) + r1;
    assert a * (b * q2 + r2) == (a * b) * q2 + a * r2;
    MulMono(r2, b - 1, a);
    assert (b - 1) * a == a * b - a;
    DivModUnique(n, a * b, q2, a * r2 + r1);
  }

  /** Cell `y` of column `col` in a column-major grid of height `h`. */
  lemma ColumnMajor(col: nat, h: nat, y: nat)
    requires y < h
    ensures (col * h + y) / h == col && (col * h + y) % h == y
  {
    DivModUnique(col * h + y, h, col, y);
  }

  /** The low 16 bits of `n` are its low byte plus 256 times its next byte. */
  lemma Split16(n: nat)
    ensures n % 0x1_0000 == n % 0x100 + 0x100 * ((n / 0x100) % 0x100)
  {
    var q := n / 0x100;
    DivModUnique(n, 0x1_0000, q / 0x100, n % 0x100 + 0x100 * (q % 0x100));
  }

  /** A number below 256 survives the trip into a byte and back. */
  lemma ByteValue(n: nat)
    requires n < 256
    ensures (n as bv8) as nat == n
  {
    if n < 16 {} else if n < 32 {} else if n < 48 {} else if n < 64 {}
    else if n < 80 {} else if n < 96 {} else if n < 112 {} else if n < 128 {}
    else if n < 144 {} else if n < 160 {} else if n < 176 {} else if n < 192 {}
    else if n < 208 {} else if n < 224 {} else if n < 240 {} else {}
  }

  /** 2 to the power `k`. */
  function Pow2(k: nat): (p: nat)
    ensures p >= 1
  {
    if k == 0 then 1 else 2 * Pow2(k - 1)
  }

  /** Bit `k` of `n`, as `(n >> k) & 1 == 1` tests it. */
  predicate Bit(n: nat, k: nat)
  {
    if k == 0 then n % 2 == 1 else Bit(n / 2, k - 1)
  }

  /** `n` with bit `i` added for every `bits[i]`: the source's
      `sum` of `1 << i` over the present slots. */
  function MaskSum(bits: seq<bool>): nat
  {
    if bits == [] then 0
    else
      var m := |bits| - 1;
      MaskSum(bits[..m]) + (if bits[m] then Pow2(m) else 0)
  }

  /** A number below 2^k has no bit `k`. */
  lemma {:induction false} BitOfSmall(n: nat, k: nat)
    requires n < Pow2(k)
    ensures !Bit(n, k)
  {
    if k > 0 {
      BitOfSmall(n / 2, k - 1);
    }
  }

  /** Adding 2^m to a number below 2^m sets bit `m` and keeps the others. */
  lemma {:induction false} BitAdd(n: nat, m: nat, k: nat)
    requires n < Pow2(m)
    ensures Bit(n + Pow2(m), k) == (k == m || (k < m && Bit(n, k)))
  {
    if m == 0 {
      if k > 0 {
        assert n == 0 && (n + 1) / 2 == 0;
        BitOfSmall(0, k - 1);
      }
    } else if k > 0 {
      var half := Pow2(m - 1);
      assert (n + Pow2(m)) / 2 == n / 2 + half;
      BitAdd(n / 2, m - 1, k - 1);
    }
  }

  /** Bit `k` of the mask is set exactly when flag `k` is, and the mask
      stays below 2^|bits|. */
  lemma {:induction false} MaskBits(bits: seq<bool>, k: nat)
    ensures MaskSum(bits) < Pow2(|bits|)
    ensures Bit(MaskSum(bits), k) == (k < |bits| && bits[k])
  {
    if bits == [] {
      BitOfSmall(0, k);
    } else {
      var m := |bits| - 1;
      var low := MaskSum(bits[..m]);
      MaskBits(bits[..m], k);
      if bits[m] {
        BitAdd(low, m, k);
      }
    }
  }

  /** Every bit of a mask at once. */
  lemma MaskBitsAll(bits: seq<bool>)
    ensures MaskSum(bits) < Pow2(|bits|)
    ensures forall k: nat :: Bit(MaskSum(bits), k) == (k < |bits| && bits[k])
  {
    MaskBits(bits, 0);
    forall k: nat
      ensures Bit(MaskSum(bits), k) == (k < |bits| && bits[k])
    {
      MaskBits(bits, k);
    }
  }

  /** The mask widths the codec uses. */
  lemma Pow2Widths()
    ensures Pow2(4) == 16 && Pow2(16) == 0x1_0000
  {
    assert Pow2(4) == 16;
    assert Pow2(8) == 256;
    assert Pow2(12) == 4096;
  }

  /** The remainder by a product, digit by digit. */
  lemma ModProduct(n: nat, a: nat, b: nat)
    requires a > 0 && b > 0
    ensures n % (a * b) == n % a + a * ((n / a) % b)
  {
    var q, r := n / a, n % a;
    var q2, r2 := q / b, q % b;
    assert n == q * a + r;
    assert q == q2 * b + r2;
    assert a * q == a * (q2 * b) + a * r2;
    assert a * (q2 * b) == q2 * (a * b);
    MulMono(r2, b - 1, a);
    assert r2 * a <= (b - 1) * a == a * b - a;
    DivModUnique(n, a * b, q2, a * r2 + r);
  }
}

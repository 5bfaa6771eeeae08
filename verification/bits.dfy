/** Integer bit-width arithmetic of `torii/utils.py`: `log2_int` and `bits_for`.
    Python integers are unbounded, so `int`/`nat` are used directly. */
module Bits {
  import opened Wrappers

  /** 2 to the power `k`; Python's `1 << k`. */
  function Pow2(k: nat): (p: nat)
    ensures p >= 1
  {
    if k == 0 then 1 else 2 * Pow2(k - 1)
  }

  ghost predicate IsPow2(n: int) {
    exists k: nat :: Pow2(k) == n
  }

  /** Python's `int.bit_length()` on a non-negative integer. */
  function BitLength(n: nat): nat {
    if n == 0 then 0 else 1 + BitLength(n / 2)
  }

  function Abs(n: int): nat {
    if n < 0 then -n else n
  }

  /** The bit length is the number of binary digits: `n` lies in [2^(len-1), 2^len). */
  lemma {:induction false} BitLengthBounds(n: nat)
    ensures n < Pow2(BitLength(n))
    ensures n > 0 ==> BitLength(n) >= 1 && Pow2(BitLength(n) - 1) <= n
  {
    if n > 0 {
      BitLengthBounds(n / 2);
    }
  }

  lemma {:induction false} Pow2StrictlyIncreasing(j: nat, k: nat)
    requires j < k
    ensures Pow2(j) < Pow2(k)
  {
    if k != j + 1 {
      Pow2StrictlyIncreasing(j, k - 1);
    }
  }

  lemma Pow2Monotone(j: nat, k: nat)
    ensures j <= k <==> Pow2(j) <= Pow2(k)
  {
    if j < k {
      Pow2StrictlyIncreasing(j, k);
    } else if k < j {
      Pow2StrictlyIncreasing(k, j);
    }
  }

  datatype BitsError = NotPowerOfTwo(n: int)

  /** `log2_int(n, need_pow2)`: the ceiling of log2 of `n`, or an error when a power of two
      was required and `n` is not one. */
  function Log2Int(n: int, needPow2: bool): (r: Result<nat, BitsError>)
    ensures n == 0 ==> r == Success(0)
    ensures !needPow2 ==> r.Success?
    ensures r.Success? && n >= 1 ==>
      n <= Pow2(r.value) && (r.value == 0 || Pow2(r.value - 1) < n)
    ensures needPow2 && n >= 1 ==> (r.Success? <==> IsPow2(n))
    ensures needPow2 && r.Success? ==> Pow2(r.value) == n || n == 0
    ensures needPow2 && n < 0 ==> r == Failure(NotPowerOfTwo(n))
  {
    if n == 0 then Success(0)
    else
      var r := BitLength(Abs(n - 1));
      BitLengthBounds(Abs(n - 1));
      if needPow2 && Pow2(r) != n then
        assert n >= 1 ==> !IsPow2(n) by {
          if n >= 1 && IsPow2(n) {
            var k: nat :| Pow2(k) == n;
            Pow2Monotone(k, r);
            if r > 0 {
              Pow2Monotone(r - 1, k);
            }
          }
        }
        Failure(NotPowerOfTwo(n))
      else
        Success(r)
  }

  /** The least exponent whose power of two is at least `n`, for `n >= 1`. */
  lemma Log2IntIsLeast(n: int, r': nat)
    requires n >= 1
    requires n <= Pow2(r')
    ensures Log2Int(n, false).value <= r'
  {
    var r := Log2Int(n, false).value;
    if r > 0 {
      Pow2Monotone(r - 1, r');
    }
  }

  lemma CeilingLogUnique(k: nat, r: nat)
    requires Pow2(k) <= Pow2(r) && (r == 0 || Pow2(r - 1) < Pow2(k))
    ensures r == k
  {
    Pow2Monotone(k, r);
    if r > 0 {
      Pow2Monotone(r - 1, k);
    }
  }

  /** `log2_int(2^k)` is `k`, with or without the power-of-two requirement. */
  lemma Log2IntOfPow2(k: nat, needPow2: bool)
    ensures Log2Int(Pow2(k), needPow2) == Success(k)
  {
    Log2IntAtPow2(Pow2(k), k, needPow2);
  }

  lemma Log2IntAtPow2(n: int, k: nat, needPow2: bool)
    requires n == Pow2(k)
    ensures Log2Int(n, needPow2) == Success(k)
  {
    var r := Log2Int(n, needPow2);
    if needPow2 {
      assert IsPow2(n);
    }
    CeilingLogUnique(k, r.value);
  }

  /** `bits_for(n, require_sign_bit)`: the number of bits needed to hold `n`; a
      non-positive `n` always gets a sign bit. */
  function BitsFor(n: int, requireSignBit: bool): (r: nat)
    ensures n > 0 && !requireSignBit ==> n < Pow2(r) && (r == 0 || Pow2(r - 1) <= n)
    ensures n > 0 && requireSignBit ==> r >= 1 && n < Pow2(r - 1) && (r == 1 || Pow2(r - 2) <= n)
    ensures n <= 0 ==> r >= 1 && n + Pow2(r - 1) >= 0 && (r == 1 || n + Pow2(r - 2) < 0)
  {
    if n > 0 then
      var r := Log2Int(n + 1, false).value;
      if requireSignBit then r + 1 else r
    else
      Log2Int(-n, false).value + 1
  }

  /** The width from `bits_for` is the least one that holds `n`: unsigned for positive `n`,
      two's complement for non-positive `n`. */
  lemma BitsForIsLeast(n: int, w: nat)
    ensures n > 0 && n < Pow2(w) ==> BitsFor(n, false) <= w
    ensures n <= 0 && w >= 1 && n + Pow2(w - 1) >= 0 ==> BitsFor(n, false) <= w
  {
    var r := BitsFor(n, false);
    if n > 0 && n < Pow2(w) && r > 0 {
      Pow2Monotone(r - 1, w);
    }
    if n <= 0 && w >= 1 && n + Pow2(w - 1) >= 0 && r >= 2 {
      Pow2Monotone(r - 2, w - 1);
    }
  }

  /** Requiring a sign bit adds exactly one bit for positive `n` and changes nothing for
      non-positive `n`, which always carries one. */
  lemma BitsForSignBit(n: int)
    ensures n > 0 ==> BitsFor(n, true) == BitsFor(n, false) + 1
    ensures n <= 0 ==> BitsFor(n, true) == BitsFor(n, false)
  {
  }

  lemma BitsForZero()
    ensures BitsFor(0, false) == 1
  {
  }
}

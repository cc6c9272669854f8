/**
 The size arithmetic of `common::HashTbl` (`include/common/impl.common_hashtbl.hpp`):
 the rounding loop of the constructor and the bucket mask.
 */
module TableSize {

  const DEFAULT_TABLE_SIZE := 64

  function Pow2(k: nat): (r: nat)
    ensures r >= 1
  {
    if k == 0 then 1 else 2 * Pow2(k - 1)
  }

  lemma {:induction false} Pow2Grows(j: nat, k: nat)
    requires j <= k
    ensures Pow2(j) <= Pow2(k)
    decreases k - j
  {
    if j < k { Pow2Grows(j, k - 1); }
  }

  /** `n >> i` */
  function Shr(n: nat, i: nat): nat {
    if i == 0 then n else Shr(n / 2, i - 1)
  }

  lemma {:induction false} ShrIsPositive(n: nat, i: nat)
    ensures Shr(n, i) > 0 <==> Pow2(i) <= n
  {
    if i > 0 { ShrIsPositive(n / 2, i - 1); }
  }

  lemma {:induction false} ShrHalves(n: nat, i: nat)
    ensures Shr(n, i + 1) == Shr(n, i) / 2
  {
    if i > 0 { ShrHalves(n / 2, i - 1); }
  }

  ghost predicate IsLeastPow2(size: nat, request: nat) {
    && request <= size && (exists k: nat :: size == Pow2(k))
    && forall k: nat :: request <= Pow2(k) ==> size <= Pow2(k)
  }

  /** The constructor's rounding.  Its shift is an `int` shift, so requests stay below 2^31. */
  method RoundedSize(request: nat) returns (size: nat)
    requires request < 0x8000_0000
    ensures request == 0 ==> size == DEFAULT_TABLE_SIZE
    ensures request > 0 ==> IsLeastPow2(size, request)
    ensures exists k: nat :: size == Pow2(k)
  {
    if request == 0 {
      assert Pow2(6) == 64;
      return DEFAULT_TABLE_SIZE;
    }
    var i, t := 0, request;
    while t != 0
      invariant t == Shr(request, i)
      invariant i > 0 ==> Pow2(i - 1) <= request
      decreases t
    {
      ShrHalves(request, i);
      ShrIsPositive(request, i);
      i := i + 1;
      t := Shr(request, i);
    }
    ShrIsPositive(request, i);
    size := Pow2(i - 1);
    if size != request {
      size := 2 * size;
    }
    forall k: nat | request <= Pow2(k) ensures size <= Pow2(k) {
      if k < i { Pow2Grows(k, i - 1); } else { Pow2Grows(i, k); }
    }
    assert size == Pow2(i) || size == Pow2(i - 1);
  }

  lemma {:induction false} MulAtLeast(d: nat, z: int)
    ensures z >= 1 ==> d * z >= d
    ensures z <= -1 ==> d * z + d <= 0
    decreases if z < 0 then -z else z
  {
    if z > 1 { MulAtLeast(d, z - 1); } else if z < -1 { MulAtLeast(d, z + 1); }
  }

  lemma RemainderUnique(n: nat, d: nat, q: int, r: nat)
    requires d > 0 && n == d * q + r && r < d
    ensures n % d == r
  {
    var z := n / d - q;
    assert n == d * (n / d) + n % d;
    assert d * z == d * (n / d) - d * q;
    MulAtLeast(d, z);
  }

  lemma RemainderStep(h: nat, m: nat)
    requires m > 0
    ensures h % (2 * m) == 2 * (h / 2 % m) + h % 2
  {
    var q, r := h / 2 / m, h / 2 % m;
    assert h / 2 == m * q + r;
    assert (2 * m) * q == 2 * (m * q);
    RemainderUnique(h, 2 * m, q, 2 * r + h % 2);
  }

  /** Bitwise and of two unsigned numbers. */
  function BitAnd(a: nat, b: nat): nat {
    if a == 0 || b == 0 then 0 else 2 * BitAnd(a / 2, b / 2) + (a % 2) * (b % 2)
  }

  /** Masking with a power of two less one is the remainder, so a bucket is in range. */
  lemma {:induction false} MaskIsRemainder(h: nat, k: nat)
    ensures BitAnd(h, Pow2(k) - 1) == h % Pow2(k)
    ensures BitAnd(h, Pow2(k) - 1) < Pow2(k)
  {
    if k > 0 && h > 0 {
      MaskIsRemainder(h / 2, k - 1);
      RemainderStep(h, Pow2(k - 1));
      assert (Pow2(k) - 1) / 2 == Pow2(k - 1) - 1 && (Pow2(k) - 1) % 2 == 1;
    }
  }
}

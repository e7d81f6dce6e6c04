/** Signed 64-bit words: wrap-around, shifts and the bitwise operators, defined
    bit by bit on the two's complement representation. */
module Words {

  const TWO63 := 0x8000_0000_0000_0000
  const TWO64 := 0x1_0000_0000_0000_0000

  predicate IsWord(x: int) {
    -TWO63 <= x < TWO63
  }

  /** The word congruent to x modulo 2^64. */
  function Wrap(x: int): (w: int)
    ensures IsWord(w)
    ensures IsWord(x) ==> w == x
  {
    (x + TWO63) % TWO64 - TWO63
  }

  function Pow2(k: nat): (p: int)
    ensures p >= 1
  {
    if k == 0 then 1 else 2 * Pow2(k - 1)
  }

  /** x << k */
  function Shl(x: int, k: nat): int {
    Wrap(x * Pow2(k))
  }

  /** x >> k, with the sign carried in */
  function Sar(x: int, k: nat): int {
    x / Pow2(k)
  }

  /** x | y: k bits of magnitude, lowest first, and then the sign. */
  function OrBits(k: nat, x: int, y: int): int {
    if k == 0 then (if x < 0 || y < 0 then -1 else 0)
    else (if x % 2 == 1 || y % 2 == 1 then 1 else 0) + 2 * OrBits(k - 1, x / 2, y / 2)
  }

  /** x & y, in the same representation. */
  function AndBits(k: nat, x: int, y: int): int {
    if k == 0 then (if x < 0 && y < 0 then -1 else 0)
    else (if x % 2 == 1 && y % 2 == 1 then 1 else 0) + 2 * AndBits(k - 1, x / 2, y / 2)
  }

  function Or(x: int, y: int): int {
    OrBits(63, x, y)
  }

  function And(x: int, y: int): int {
    AndBits(63, x, y)
  }

  /** Division with remainder is unique. */
  lemma DivModUnique(a: int, q: int, p: int, r: int)
    requires p > 0 && a == q * p + r && 0 <= r < p
    ensures a / p == q && a % p == r
  {
    var q', r' := a / p, a % p;
    assert a == q' * p + r';
    assert (q - q') * p == r' - r && (q' - q) * p == r - r';
    if q > q' {
      MulMono(q - q', p);
    } else if q < q' {
      MulMono(q' - q, p);
    }
  }

  lemma MulMono(d: int, p: int)
    requires d >= 1 && p > 0
    ensures d * p >= p
  {
    assert d * p == (d - 1) * p + p;
  }

  /** Reading a number's lowest bit and then its upper ones. */
  lemma ModPow2(x: int, k: nat)
    requires k > 0
    ensures x % Pow2(k) == x % 2 + 2 * ((x / 2) % Pow2(k - 1))
  {
    var p := Pow2(k - 1);
    var h := x / 2;
    var q, r := h / p, h % p;
    assert x == 2 * h + x % 2 && h == q * p + r;
    assert x == q * (2 * p) + (x % 2 + 2 * r) by {
      assert q * (2 * p) == 2 * (q * p);
    }
    DivModUnique(x, q, 2 * p, x % 2 + 2 * r);
  }

  lemma {:induction false} OrZero(k: nat, x: int)
    requires -Pow2(k) <= x < Pow2(k)
    ensures OrBits(k, x, 0) == x
  {
    if k > 0 {
      OrZero(k - 1, x / 2);
    }
  }

  /** Or-ing a small number into j clear low bits is adding it. */
  lemma {:induction false} OrIsSum(k: nat, j: nat, x: int, y: int)
    requires j <= k && -Pow2(k) <= x < Pow2(k) && x % Pow2(j) == 0 && 0 <= y < Pow2(j)
    ensures OrBits(k, x, y) == x + y
  {
    if j == 0 {
      OrZero(k, x);
    } else {
      ModPow2(x, j);
      OrIsSum(k - 1, j - 1, x / 2, y / 2);
    }
  }

  /** And-ing with 2^j - 1 is taking the remainder by 2^j. */
  lemma {:induction false} AndIsMod(k: nat, j: nat, x: int)
    requires j <= k
    ensures AndBits(k, x, Pow2(j) - 1) == x % Pow2(j)
  {
    if j == 0 {
      AndZero(k, x);
    } else {
      AndIsMod(k - 1, j - 1, x / 2);
      ModPow2(x, j);
      assert (Pow2(j) - 1) / 2 == Pow2(j - 1) - 1 && (Pow2(j) - 1) % 2 == 1;
    }
  }

  lemma {:induction false} AndZero(k: nat, x: int)
    ensures AndBits(k, x, 0) == 0
  {
    if k > 0 {
      AndZero(k - 1, x / 2);
    }
  }

  lemma Powers()
    ensures Pow2(10) == 1024 && Pow2(12) == 4096 && Pow2(22) == 4194304
    ensures Pow2(63) == TWO63
  {
    assert Pow2(10) == 1024;
    PowAdd(10, 2);
    PowAdd(10, 12);
    PowAdd(22, 22);
    PowAdd(44, 19);
    PowAdd(10, 9);
  }

  lemma {:induction false} PowAdd(a: nat, b: nat)
    ensures Pow2(a + b) == Pow2(a) * Pow2(b)
  {
    if b > 0 {
      PowAdd(a, b - 1);
    }
  }

  /** On words: x | y is x + y when y lies below x's lowest set bit. */
  lemma OrWords(j: nat, x: int, y: int)
    requires j <= 63 && IsWord(x) && x % Pow2(j) == 0 && 0 <= y < Pow2(j)
    ensures Or(x, y) == x + y
  {
    Powers();
    OrIsSum(63, j, x, y);
  }

  lemma AndWords(j: nat, x: int)
    requires j <= 63
    ensures And(x, Pow2(j) - 1) == x % Pow2(j)
  {
    AndIsMod(63, j, x);
  }

  lemma OrLow22(x: int, y: int)
    requires IsWord(x) && x % 0x40_0000 == 0 && 0 <= y < 0x40_0000
    ensures Or(x, y) == x + y
  {
    Powers();
    OrWords(22, x, y);
  }

  lemma OrLow12(x: int, y: int)
    requires IsWord(x) && x % 4096 == 0 && 0 <= y < 4096
    ensures Or(x, y) == x + y
  {
    Powers();
    OrWords(12, x, y);
  }

  lemma AndLow10(x: int)
    ensures And(x, 1023) == x % 1024
  {
    Powers();
    AndWords(10, x);
  }

  lemma AndLow12(x: int)
    ensures And(x, 4095) == x % 4096
  {
    Powers();
    AndWords(12, x);
  }
}

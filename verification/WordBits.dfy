/** Machine words as natural numbers, and the bitwise operations the emitted code uses. */
module WordBits {

  function Pow2(n: nat): (p: nat)
    ensures p > 0
  {
    if n == 0 then 1 else 2 * Pow2(n - 1)
  }

  /** Bitwise and. */
  function And(x: nat, y: nat): (r: nat)
    decreases x
  {
    if x == 0 then 0 else 2 * And(x / 2, y / 2) + if x % 2 == 1 && y % 2 == 1 then 1 else 0
  }

  /** Setting the lowest bit. */
  function Or1(x: nat): nat {
    if x % 2 == 0 then x + 1 else x
  }

  /** The low `k` bits. */
  function Low(x: nat, k: nat): (r: nat)
    ensures r <= x
    decreases k
  {
    if k == 0 then 0 else 2 * Low(x / 2, k - 1) + x % 2
  }

  /** Subtraction of words of `w` bits. */
  function WordSub(x: int, y: int, w: nat): (r: nat) {
    (x - y) % Pow2(w)
  }

  lemma Pow2Next(n: nat)
    ensures Pow2(n + 1) == 2 * Pow2(n)
  {
  }

  lemma {:induction false} Pow2Mono(m: nat, n: nat)
    requires m <= n
    ensures Pow2(m) <= Pow2(n)
    decreases n
  {
    if m < n {
      Pow2Mono(m, n - 1);
    }
  }

  lemma Pow2Byte(n: nat)
    ensures Pow2(n + 8) == 256 * Pow2(n)
  {
    assert Pow2(n + 2) == 4 * Pow2(n);
    assert Pow2(n + 4) == 16 * Pow2(n);
    assert Pow2(n + 6) == 64 * Pow2(n);
  }

  lemma WideWord(w: nat)
    requires 32 <= w
    ensures Pow2(w) >= 0x1_0000_0000
  {
    Pow2Mono(32, w);
    Pow2Byte(0);
    Pow2Byte(8);
    Pow2Byte(16);
    Pow2Byte(24);
  }

  // ----- low bits and remainders -----

  lemma MulAtLeast(d: int, n: int)
    requires d > 0 && n >= 1
    ensures d * n >= d
  {
  }

  lemma DivModUnique(x: int, d: int, q: int, r: int)
    requires d > 0 && x == d * q + r && 0 <= r < d
    ensures x / d == q && x % d == r
  {
    var q' := x / d;
    assert x == d * q' + x % d;
    assert d * (q' - q) == r - x % d && d * (q - q') == x % d - r;
    if q' > q {
      MulAtLeast(d, q' - q);
    } else if q' < q {
      MulAtLeast(d, q - q');
    }
  }

  lemma {:induction false} Pow2Split(k: nat, n: nat)
    requires k <= n
    ensures Pow2(n) == Pow2(k) * Pow2(n - k)
    decreases n
  {
    if k < n {
      Pow2Split(k, n - 1);
    }
  }

  /** Adding a multiple of the divisor does not change the remainder. */
  lemma ModShift(x: int, d: int, m: int)
    requires d > 0
    ensures (x + d * m) % d == x % d
  {
    var q := x / d;
    assert x + d * m == d * (q + m) + x % d;
    DivModUnique(x + d * m, d, q + m, x % d);
  }

  lemma ModHalf(x: nat, p: nat)
    requires p > 0
    ensures x % (2 * p) == 2 * ((x / 2) % p) + x % 2
  {
    var q, r := (x / 2) / p, (x / 2) % p;
    assert x / 2 == p * q + r;
    assert x == (2 * p) * q + (2 * r + x % 2);
    DivModUnique(x, 2 * p, q, 2 * r + x % 2);
  }

  lemma {:induction false} LowIsMod(x: nat, k: nat)
    ensures Low(x, k) == x % Pow2(k)
    decreases k
  {
    if k > 0 {
      LowIsMod(x / 2, k - 1);
      ModHalf(x, Pow2(k - 1));
    }
  }

  lemma {:induction false} LowAll(x: nat, k: nat)
    ensures Low(x, k) == x <==> x < Pow2(k)
    decreases k
  {
    if k > 0 {
      LowAll(x / 2, k - 1);
    }
  }

  // ----- masks -----

  lemma OnesHalf(n: nat)
    requires n > 0
    ensures (Pow2(n) - 1) / 2 == Pow2(n - 1) - 1 && (Pow2(n) - 1) % 2 == 1
  {
    DivModUnique(Pow2(n) - 1, 2, Pow2(n - 1) - 1, 1);
  }

  lemma {:induction false} AndOnes(x: nat, n: nat)
    requires x < Pow2(n)
    ensures And(x, Pow2(n) - 1) == x
    decreases n
  {
    if x > 0 {
      AndOnes(x / 2, n - 1);
      OnesHalf(n);
    }
  }

  /** Masking with ones at positions k and above, up to and excluding w, clears the low k bits. */
  lemma {:induction false} AndHigh(x: nat, k: nat, w: nat)
    requires k <= w && x < Pow2(w)
    ensures Pow2(k) <= Pow2(w)
    ensures And(x, Pow2(w) - Pow2(k)) == x - Low(x, k)
    decreases k
  {
    hide Pow2, And, Low;
    Pow2Mono(k, w);
    NoBits(x);
    if k == 0 {
      AndOnes(x, w);
    } else {
      Pow2Next(w - 1);
      Pow2Next(k - 1);
      LowHalf(x, k);
      AndHigh(x / 2, k - 1, w - 1);
      AndEven(x, Pow2(w - 1) - Pow2(k - 1));
    }
  }

  lemma AndEven(x: nat, h: nat)
    ensures And(x, 2 * h) == 2 * And(x / 2, h)
  {
    assert 2 * h / 2 == h;
  }

  lemma AndOdd(x: nat, h: nat)
    ensures And(x, 2 * h + 1) == 2 * And(x / 2, h) + x % 2
  {
    assert (2 * h + 1) / 2 == h;
  }

  /** With the low `a` bits added to the mask, those bits survive too. */
  lemma {:induction false} AndHighLow(x: nat, a: nat, k: nat, w: nat)
    requires a <= k < w && x < Pow2(w)
    ensures Pow2(k) <= Pow2(w)
    ensures And(x, Pow2(w) - Pow2(k) + Pow2(a) - 1) == x - Low(x, k) + Low(x, a)
    decreases a
  {
    hide Pow2, And, Low;
    Pow2Mono(k, w);
    if a == 0 {
      AndHigh(x, k, w);
      NoBits(x);
    } else {
      Pow2Next(w - 1);
      Pow2Next(k - 1);
      Pow2Next(a - 1);
      LowHalf(x, k);
      LowHalf(x, a);
      AndHighLow(x / 2, a - 1, k - 1, w - 1);
      AndOdd(x, Pow2(w - 1) - Pow2(k - 1) + Pow2(a - 1) - 1);
    }
  }

  lemma NoBits(x: nat)
    ensures Low(x, 0) == 0 && Pow2(0) == 1
  {
  }

  lemma LowHalf(x: nat, k: nat)
    requires k > 0
    ensures Low(x, k) == 2 * Low(x / 2, k - 1) + x % 2
  {
  }
}

/** Fast allocation of arrays: the size computation and the clearing of the body. */
module ArrayAlloc {
  import opened Options
  import opened WordBits

  const MAX_LENGTH: int := 0x00FF_FFFF

  /** The size in bytes of an array with a header of `hdr` bytes and elements of 2^f bytes, as
      computed in registers of w bits, with objects aligned to 2^a bytes; `None` is the slow case. The
      comparison with the limit is unsigned. */
  function ArraySize(len: nat, hdr: nat, f: nat, a: nat, w: nat): Option<nat>
    requires a <= w
  {
    if len > MAX_LENGTH then None
    else
      Some(AlignDown(hdr + (Pow2(a) - 1) + ElementBytes(len, f), a, w))
  }

  function ElementBytes(len: nat, f: nat): nat { len * Pow2(f) }

  /** A word with its low bits masked off. */
  function AlignDown(x: nat, a: nat, w: nat): nat
    requires a <= w
  {
    Pow2Mono(a, w);
    And(x % Pow2(w), Pow2(w) - Pow2(a))
  }

  lemma AlignDownValue(x: nat, a: nat, w: nat)
    requires a <= w && x < Pow2(w)
    ensures AlignDown(x, a, w) == x - x % Pow2(a)
  {
    hide Pow2, And, Low;
    DivModUnique(x, Pow2(w), 0, x);
    AndHigh(x, a, w);
    LowIsMod(x, a);
  }

  lemma RoundUp(n: nat, p: nat)
    requires p > 0
    ensures
      var r := n + p - 1 - (n + p - 1) % p;
      n <= r < n + p && r % p == 0
  {
    var x := n + p - 1;
    assert x == p * (x / p) + x % p;
    DivModUnique(p * (x / p), p, x / p, 0);
  }

  /** Of the multiples from n on, one below n + p is the least. */
  lemma LeastMultiple(n: nat, r: nat, s: nat, p: nat)
    requires p > 0 && r % p == 0 && s % p == 0 && n <= s && r < n + p
    ensures r <= s
  {
    assert r - s == p * (r / p - s / p);
    NoMultipleBelow(p, r / p - s / p);
  }

  lemma NoMultipleBelow(p: int, d: int)
    requires p > 0 && p * d < p
    ensures p * d <= 0
  {
    if d >= 1 {
      MulAtLeast(p, d);
    }
  }

  lemma RoundUpLeast(n: nat, p: nat)
    requires p > 0
    ensures
      var r := n + p - 1 - (n + p - 1) % p;
      n <= r < n + p && r % p == 0 && forall s: nat :: s >= n && s % p == 0 ==> r <= s
  {
    RoundUp(n, p);
    var r := n + p - 1 - (n + p - 1) % p;
    forall s: nat | s >= n && s % p == 0 ensures r <= s { LeastMultiple(n, r, s, p); }
  }

  lemma ElementBytesBounded(len: nat, f: nat)
    requires len <= MAX_LENGTH && f <= 3
    ensures ElementBytes(len, f) <= 8 * MAX_LENGTH
  {
    Pow2Mono(f, 3);
    assert Pow2(3) == 8;
    assert len * Pow2(f) <= len * 8;
  }

  /** The computation does not overflow, and the mask rounds down. */
  lemma ArraySizeValue(len: nat, hdr: nat, f: nat, a: nat, w: nat)
    requires 32 <= w && a <= w && f <= 3 && hdr + Pow2(a) <= 0x8000_0000 && len <= MAX_LENGTH
    ensures
      var x := hdr + ElementBytes(len, f) + Pow2(a) - 1;
      x < Pow2(w) && ArraySize(len, hdr, f, a, w) == Some(x - x % Pow2(a))
  {
    hide Pow2, AlignDown, ElementBytes;
    ElementBytesBounded(len, f);
    WideWord(w);
    AlignDownValue(hdr + (Pow2(a) - 1) + ElementBytes(len, f), a, w);
  }

  /** A length that passes the check gives the least aligned size that covers header and elements. */
  lemma ArraySizeLeast(len: nat, hdr: nat, f: nat, a: nat, w: nat)
    requires 32 <= w && a <= w && f <= 3 && hdr + Pow2(a) <= 0x8000_0000
    ensures ArraySize(len, hdr, f, a, w).Some? <==> len <= MAX_LENGTH
    ensures len <= MAX_LENGTH ==>
      var need, r := hdr + ElementBytes(len, f), ArraySize(len, hdr, f, a, w).value;
      && need <= r < need + Pow2(a) && r % Pow2(a) == 0 && r < Pow2(w)
      && forall s: nat :: s >= need && s % Pow2(a) == 0 ==> r <= s
  {
    hide Pow2, AlignDown, ElementBytes;
    assert ArraySize(len, hdr, f, a, w).Some? <==> len <= MAX_LENGTH;
    hide ArraySize;
    if len <= MAX_LENGTH {
      var need, p := hdr + ElementBytes(len, f), Pow2(a);
      ArraySizeValue(len, hdr, f, a, w);
      RoundUpLeast(need, p);
    }
  }

  /** A negative length is an excessive one. */
  lemma NegativeIsSlow(n: int, hdr: nat, f: nat, a: nat, w: nat)
    requires 32 <= w && a <= w && -0x8000_0000 <= n < 0x8000_0000
    ensures ArraySize(n % Pow2(w), hdr, f, a, w).Some? <==> 0 <= n <= MAX_LENGTH
  {
    hide Pow2, AlignDown, ElementBytes;
    WideWord(w);
    if n >= 0 {
      DivModUnique(n, Pow2(w), 0, n);
    } else {
      DivModUnique(n, Pow2(w), -1, n + Pow2(w));
    }
  }

  // ----- clearing the body -----

  /** The words from one index up to another are zero, the others as they were. */
  ghost predicate Cleared(now: seq<int>, was: seq<int>, from: int, to: int)
    requires |now| == |was|
  {
    forall i | 0 <= i < |now| :: now[i] == if from <= i < to then 0 else was[i]
  }

  /** Memory is an array of words and `index` counts down from the last word. The loop tests its
      condition at the end. */
  method InitializeBody64(mem: array<int>, size: nat, hdr: nat)
    requires hdr % 8 == 0 && size % 8 == 0 && hdr <= size <= mem.Length * 8
    modifies mem
    ensures Cleared(mem[..], old(mem[..]), hdr / 8, size / 8)
  {
    ghost var h := hdr / 8;
    var index := size - hdr;
    if index == 0 {
      return;
    }
    index := index / 8;
    var more := true;
    while more
      invariant index >= 0 && h + index <= size / 8 && more == (index > 0)
      invariant Cleared(mem[..], old(mem[..]), h + index, size / 8)
      decreases index
    {
      assert (index * 8 + hdr - 8) / 8 == h + index - 1;
      mem[(index * 8 + hdr - 8) / 8] := 0;
      index := index - 1;
      more := index != 0;
    }
  }

  /** With words of four bytes, an odd number of them leaves the topmost one to be cleared first. */
  method InitializeBody32(mem: array<int>, size: nat, hdr: nat)
    requires hdr % 4 == 0 && size % 4 == 0 && hdr <= size <= mem.Length * 4
    modifies mem
    ensures Cleared(mem[..], old(mem[..]), hdr / 4, size / 4)
  {
    ghost var h, n := hdr / 4, size / 4;
    var index := size - hdr;
    if index == 0 {
      return;
    }
    var carry := index / 4 % 2 == 1;
    index := index / 8;
    assert n == h + 2 * index + if carry then 1 else 0;
    if carry {
      assert (index * 8 + hdr) / 4 == h + 2 * index;
      mem[(index * 8 + hdr) / 4] := 0;
      if index == 0 {
        return;
      }
    }
    var more := true;
    while more
      invariant index >= 0 && h + 2 * index <= n && more == (index > 0)
      invariant Cleared(mem[..], old(mem[..]), h + 2 * index, n)
      decreases index
    {
      assert (index * 8 + hdr - 4) / 4 == h + 2 * index - 1;
      assert (index * 8 + hdr - 8) / 4 == h + 2 * index - 2;
      mem[(index * 8 + hdr - 4) / 4] := 0;
      mem[(index * 8 + hdr - 8) / 4] := 0;
      index := index - 1;
      more := index != 0;
    }
  }

  /** The fast path on words of four or eight bytes, once memory for the object has been found: the
      words of the header stay, and everything behind it up to the aligned size is zero. */
  method AllocateArray(mem: array<int>, len: nat, hdr: nat, f: nat, a: nat, wide: bool) returns (size: Option<nat>)
    requires f <= 3 && 3 <= a <= 32 && hdr + Pow2(a) <= 0x8000_0000
    requires hdr % (if wide then 8 else 4) == 0
    requires len <= MAX_LENGTH ==> hdr + ElementBytes(len, f) + Pow2(a) <= mem.Length * (if wide then 8 else 4)
    modifies mem
    ensures size.None? <==> len > MAX_LENGTH
    ensures size.None? ==> mem[..] == old(mem[..])
    ensures size.Some? ==>
      var word := if wide then 8 else 4;
      && size.value % Pow2(a) == 0 && hdr + ElementBytes(len, f) <= size.value < hdr + ElementBytes(len, f) + Pow2(a)
      && Cleared(mem[..], old(mem[..]), hdr / word, size.value / word)
  {
    hide Pow2, ElementBytes;
    size := ArraySize(len, hdr, f, a, if wide then 64 else 32);
    ArraySizeLeast(len, hdr, f, a, if wide then 64 else 32);
    if size.Some? {
      AlignedToEight(size.value, a);
      if wide {
        InitializeBody64(mem, size.value, hdr);
      } else {
        InitializeBody32(mem, size.value, hdr);
      }
    }
  }

  lemma {:induction false} AlignedToEight(n: nat, a: nat)
    requires 3 <= a && n % Pow2(a) == 0
    ensures n % 8 == 0 && n % 4 == 0
  {
    if a == 3 {
      assert Pow2(3) == 8;
    } else {
      var q := n / Pow2(a);
      assert n == Pow2(a) * q == Pow2(a - 1) * (2 * q);
      DivModUnique(n, Pow2(a - 1), 2 * q, 0);
      AlignedToEight(n, a - 1);
    }
  }
}

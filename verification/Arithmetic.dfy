/** Expansions of integer arithmetic into simpler instructions. Registers hold words of 32 bits, as
natural numbers below 2^32. */
module Arithmetic {
  import opened WordBits

  const WORD: int := 0x1_0000_0000
  const SIGN: int := 0x8000_0000

  predicate IsInt(x: int) { -SIGN <= x < SIGN }
  predicate IsWord(w: int) { 0 <= w < WORD }

  function ToWord(x: int): (w: nat)
    ensures IsWord(w)
  {
    x % WORD
  }

  function ToInt(w: nat): int { if w < SIGN then w else w - WORD }

  lemma WordRoundTrip(x: int)
    requires IsInt(x)
    ensures ToInt(ToWord(x)) == x
    ensures ToWord(x) == if x >= 0 then x else x + WORD
  {
  }

  // ----- instructions -----

  /** Arithmetic shift right, which rounds towards negative infinity. */
  function Sar(w: nat, k: nat): nat { ToWord(ToInt(w) / Pow2(k)) }

  function ShiftLeft(w: nat, k: nat): nat { ToWord(w * Pow2(k)) }

  /** Bitwise or. */
  function Or(x: nat, y: nat): nat
    decreases x + y
  {
    if x == 0 && y == 0 then 0 else 2 * Or(x / 2, y / 2) + if x % 2 == 1 || y % 2 == 1 then 1 else 0
  }

  // ----- division and remainder -----

  /** Division and remainder of the Java Language Specification, sections 15.17.2 and 15.17.3, for a
      positive divisor: the quotient is rounded towards zero. */
  function JavaDiv(x: int, d: int): int
    requires d > 0
  {
    if x >= 0 then x / d else -((-x) / d)
  }

  function JavaRem(x: int, d: int): int
    requires d > 0
  {
    x - d * JavaDiv(x, d)
  }

  lemma Pow2Small(k: nat)
    requires k <= 30
    ensures Pow2(k) <= SIGN / 2 && Pow2(31) == SIGN && Pow2(32) == WORD
  {
    Pow2Mono(k, 30);
    assert Pow2(2) == 4;
    Pow2Byte(2);
    Pow2Byte(10);
    Pow2Byte(18);
    assert Pow2(26) == 0x400_0000;
    assert Pow2(28) == 0x1000_0000;
    assert Pow2(30) == 0x4000_0000;
  }

  /** Adding d - 1 before rounding down is the same as rounding towards zero. */
  lemma RoundTowardsZero(x: int, d: int)
    requires d > 0 && x < 0
    ensures (x + d - 1) / d == JavaDiv(x, d)
  {
    var q, r := (-x) / d, (-x) % d;
    assert -x == d * q + r;
    assert x + d - 1 == d * (-q) + (d - 1 - r);
    DivModUnique(x + d - 1, d, -q, d - 1 - r);
  }

  lemma QuotientFits(x: int, d: int)
    requires d > 0 && IsInt(x)
    ensures IsInt(x / d)
  {
    var q, r := x / d, x % d;
    assert x == d * q + r;
    if x >= 0 {
      QuotientBetween(x, d, q, r);
    } else {
      assert -x - 1 == d * (-q - 1) + (d - 1 - r);
      QuotientBetween(-x - 1, d, -q - 1, d - 1 - r);
    }
  }

  lemma QuotientBetween(x: int, d: int, q: int, r: int)
    requires x >= 0 && d > 0 && x == d * q + r && 0 <= r < d
    ensures 0 <= q <= x
  {
    if q >= 1 {
      MulAtLeast(q, d);
      assert q * d == d * q;
    } else if q <= -1 {
      MulAtLeast(d, -q);
    }
  }

  lemma CorrectedDividend(x: int, k: nat)
    requires IsInt(x) && k <= 30
    ensures
      var eax := ToWord(x);
      var edx := if eax < SIGN then 0 else WORD - 1;
      var corrected := if k == 1 then ToWord(eax - edx) else ToWord(eax + And(Pow2(k) - 1, edx));
      corrected == ToWord(if x >= 0 then x else x + Pow2(k) - 1)
  {
    hide And, Pow2;
    WordRoundTrip(x);
    Pow2Small(k);
    if x >= 0 {
      AndNothing(Pow2(k) - 1);
    } else {
      AndOnes(Pow2(k) - 1, 32);
      assert k == 1 ==> Pow2(k) == 2 by { assert Pow2(1) == 2 by { PowerOne(); } }
    }
  }

  lemma PowerOne()
    ensures Pow2(1) == 2
  {
  }

  lemma {:induction false} AndNothing(x: nat)
    ensures And(x, 0) == 0
  {
    if x > 0 {
      AndNothing(x / 2);
    }
  }

  /** Shifting rounds down, and the correction makes that towards zero. */
  lemma ShiftedQuotient(x: int, k: nat)
    requires IsInt(x) && k <= 30
    ensures ToInt(Sar(ToWord(if x >= 0 then x else x + Pow2(k) - 1), k)) == JavaDiv(x, Pow2(k))
  {
    hide Pow2;
    var d := Pow2(k);
    var y := if x >= 0 then x else x + d - 1;
    Pow2Small(k);
    WordRoundTrip(y);
    QuotientFits(y, d);
    WordRoundTrip(y / d);
    if x < 0 {
      RoundTowardsZero(x, d);
    }
  }

  /** Division by 2^k: the sign, extended into a second register, corrects the rounding. The result
      is Java's quotient, for every dividend. */
  method Idiv(x: int, k: nat) returns (dreg: nat)
    requires IsInt(x) && k <= 30
    ensures ToInt(dreg) == JavaDiv(x, Pow2(k))
  {
    hide And, Pow2, Sar;
    CorrectedDividend(x, k);
    ShiftedQuotient(x, k);
    var eax := ToWord(x);
    var edx := if eax < SIGN then 0 else WORD - 1;  // cdql
    if k == 1 {
      eax := ToWord(eax - edx);
    } else {
      edx := And(Pow2(k) - 1, edx);
      eax := ToWord(eax + edx);
    }
    eax := Sar(eax, k);
    dreg := eax;
  }

  /** A mask of ones from position k up sets those bits and keeps the others. */
  lemma {:induction false} OrHigh(x: nat, k: nat, w: nat)
    requires k <= w && x < Pow2(w)
    ensures Pow2(k) <= Pow2(w)
    ensures Or(x, Pow2(w) - Pow2(k)) == Pow2(w) - Pow2(k) + Low(x, k)
    decreases w
  {
    hide Pow2, Or, Low;
    Pow2Mono(k, w);
    NoBits(x);
    if k == 0 {
      OrOnes(x, w);
    } else {
      Pow2Next(w - 1);
      Pow2Next(k - 1);
      LowHalf(x, k);
      OrHigh(x / 2, k - 1, w - 1);
      OrEven(x, Pow2(w - 1) - Pow2(k - 1));
    }
  }

  lemma {:induction false} OrHalf(x: nat, y: nat)
    ensures Or(x, y) == 2 * Or(x / 2, y / 2) + if x % 2 == 1 || y % 2 == 1 then 1 else 0
  {
  }

  lemma OrEven(x: nat, h: nat)
    ensures Or(x, 2 * h) == 2 * Or(x / 2, h) + x % 2
  {
    OrHalf(x, 2 * h);
    assert 2 * h / 2 == h;
  }

  lemma {:induction false} OrOnes(x: nat, n: nat)
    requires x < Pow2(n)
    ensures Or(x, Pow2(n) - 1) == Pow2(n) - 1
    decreases n
  {
    if n > 0 {
      OrOnes(x / 2, n - 1);
      OrHalf(x, Pow2(n) - 1);
      assert (Pow2(n) - 1) / 2 == Pow2(n - 1) - 1;
    }
  }

  lemma JavaRemFromMod(x: int, d: int)
    requires d > 0
    ensures JavaRem(x, d) == if x >= 0 || x % d == 0 then x % d else x % d - d
  {
    var q, r := x / d, x % d;
    assert x == d * q + r;
    if x < 0 {
      if r == 0 {
        assert -x == d * (-q) + 0;
        DivModUnique(-x, d, -q, 0);
      } else {
        assert -x == d * (-q - 1) + (d - r);
        DivModUnique(-x, d, -q - 1, d - r);
        assert d * (q + 1) == d * q + d;
      }
    }
  }

  /** The mask keeps the sign bit and the remainder of the word. */
  lemma MaskedRemainder(x: int, k: nat)
    requires IsInt(x) && k <= 30
    ensures And(ToWord(x), SIGN + (Pow2(k) - 1)) == (if x >= 0 then 0 else SIGN) + x % Pow2(k)
  {
    hide And, Pow2, Low;
    var u, d := ToWord(x), Pow2(k);
    WordRoundTrip(x);
    Pow2Small(k);
    AndHighLow(u, k, 31, 32);
    LowIsMod(u, 31);
    LowIsMod(u, k);
    assert u - Low(u, 31) == if x >= 0 then 0 else SIGN;
    if x < 0 {
      Pow2Split(k, 32);
      ModShift(x, d, Pow2(32 - k));
    }
  }

  /** The correction of a negative intermediate result r gives r - 2^k, or zero for r = 0. */
  lemma CorrectedRemainder(r: nat, k: nat)
    requires k <= 30 && r < Pow2(k)
    ensures Pow2(k) <= SIGN / 2
    ensures
      ToWord(Or(ToWord(SIGN + r - 1), ToWord(0 - Pow2(k))) + 1) == ToWord(if r == 0 then 0 else r - Pow2(k))
  {
    hide Or, Pow2, Low;
    var d: int, x := Pow2(k), SIGN + r - 1;
    Pow2Small(k);
    assert ToWord(x) == x && ToWord(0 - d) == WORD - d;
    OrHigh(x, k, 32);
    LowIsMod(x, k);
    LowBitsBelow(r, k);
    var low := if r == 0 then d - 1 else r - 1;
    hide ToWord;
    assert Or(x, WORD - d) == WORD - d + low;
    WordRoundTrip(if r == 0 then 0 else r - d);
    AboveWord(if r == 0 then 0 else r - d);
  }

  lemma AboveWord(x: int)
    ensures ToWord(WORD + x) == ToWord(x)
  {
    ModShift(x, WORD, 1);
  }

  lemma LowBitsBelow(r: nat, k: nat)
    requires k <= 30 && r < Pow2(k)
    ensures (SIGN + r - 1) % Pow2(k) == if r == 0 then Pow2(k) - 1 else r - 1
  {
    hide Pow2;
    var d := Pow2(k);
    Pow2Small(k);
    Pow2Split(k, 31);
    ModShift(r - 1, d, Pow2(31 - k));
    if r == 0 {
      DivModUnique(-1, d, -1, d - 1);
    } else {
      DivModUnique(r - 1, d, 0, r - 1);
    }
  }

  /** The masked dividend, corrected where its sign bit is set, is Java's remainder. */
  lemma RemainderWord(x: int, k: nat)
    requires IsInt(x) && k <= 30
    ensures
      var masked := And(ToWord(x), SIGN + (Pow2(k) - 1));
      if masked < SIGN then ToInt(masked) == JavaRem(x, Pow2(k))
      else ToInt(ToWord(Or(ToWord(masked - 1), ToWord(0 - Pow2(k))) + 1)) == JavaRem(x, Pow2(k))
  {
    hide And, Or, Pow2, JavaRem, ToWord;
    var d, r := Pow2(k), x % Pow2(k);
    Pow2Small(k);
    MaskedRemainder(x, k);
    JavaRemFromMod(x, d);
    if x < 0 {
      CorrectedRemainder(r, k);
      WordRoundTrip(if r == 0 then 0 else r - d);
    }
  }

  /** Remainder by 2^k: sign bit and low bits are kept, and a negative result is corrected. It is
      Java's remainder, for every dividend. */
  method Irem(x: int, k: nat) returns (dreg: nat)
    requires IsInt(x) && k <= 30
    ensures ToInt(dreg) == JavaRem(x, Pow2(k))
  {
    hide And, Or, Pow2, JavaRem, ToWord, ToInt;
    RemainderWord(x, k);
    dreg := And(ToWord(x), SIGN + (Pow2(k) - 1));
    if dreg >= SIGN {
      dreg := ToWord(dreg - 1);
      dreg := Or(dreg, ToWord(0 - Pow2(k)));
      dreg := ToWord(dreg + 1);
    }
  }

  // ----- multiplication -----

  /** The product of two 64-bit numbers, given by high and low words, modulo 2^64. */
  function LongProduct(h1: int, l1: int, h2: int, l2: int): int {
    ((h1 * WORD + l1) * (h2 * WORD + l2)) % (WORD * WORD)
  }

  /** A number of 64 bits from its high and low word. */
  function Joined(hi: int, lo: int): int { hi * WORD + lo }

  /** Multiplication of 64-bit numbers in pairs of registers. The three partial products below 2^64
      add up to the product of the two numbers, modulo 2^64. */
  method MultiplyLong(leftLo: nat, leftHi: nat, rightLo: nat, rightHi: nat) returns (eax: nat, edx: nat)
    requires IsWord(leftLo) && IsWord(leftHi) && IsWord(rightLo) && IsWord(rightHi)
    ensures IsWord(eax) && IsWord(edx)
    ensures Joined(edx, eax) == LongProduct(leftHi, leftLo, rightHi, rightLo)
  {
    hide ToWord, LongProduct, Joined;
    PartialProducts(leftHi, leftLo, rightHi, rightLo);
    var hi := rightHi;
    eax, edx := leftLo, leftHi;
    edx := ToWord(edx * rightLo);
    hi := ToWord(hi * eax);
    hi := ToWord(hi + edx);
    var product := eax * rightLo;
    eax, edx := product % WORD, product / WORD;
    edx := ToWord(edx + hi);
  }

  lemma PartialProducts(h1: nat, l1: nat, h2: nat, l2: nat)
    ensures
      var hi := ToWord(ToWord(h2 * l1) + ToWord(h1 * l2));
      Joined(ToWord(l1 * l2 / WORD + hi), l1 * l2 % WORD) == LongProduct(h1, l1, h2, l2)
  {
    Expand(h1, l1, h2, l2);
    Assemble(h1 * h2, h1 * l2, h2 * l1, l1 * l2);
  }

  lemma Expand(h1: int, l1: int, h2: int, l2: int)
    ensures (h1 * WORD + l1) * (h2 * WORD + l2)
      == WORD * WORD * (h1 * h2) + WORD * (h1 * l2 + h2 * l1) + l1 * l2
  {
    calc {
      (h1 * WORD + l1) * (h2 * WORD + l2);
      h1 * WORD * (h2 * WORD + l2) + l1 * (h2 * WORD + l2);
      WORD * (h1 * (h2 * WORD + l2)) + WORD * (h2 * l1) + l1 * l2;
      WORD * (WORD * (h1 * h2) + h1 * l2) + WORD * (h2 * l1) + l1 * l2;
    }
  }

  lemma Assemble(m: int, a: int, b: int, p: nat)
    ensures
      var hi := ToWord(p / WORD + ToWord(ToWord(b) + ToWord(a)));
      Joined(hi, p % WORD) == (WORD * WORD * m + WORD * (a + b) + p) % (WORD * WORD)
  {
    var s := p / WORD + a + b;
    var hi, q := s % WORD, s / WORD;
    assert ToWord(p / WORD + ToWord(ToWord(b) + ToWord(a))) == hi;
    assert WORD * WORD * m + WORD * (a + b) + p == WORD * WORD * (m + q) + (hi * WORD + p % WORD);
    DivModUnique(WORD * WORD * m + WORD * (a + b) + p, WORD * WORD, m + q, hi * WORD + p % WORD);
  }

  // ----- strength reduction -----

  /** The exponent of the largest power of two that is not above x. */
  function Log2(x: nat): (n: nat)
    requires x > 0
    ensures Pow2(n) <= x < Pow2(n + 1)
  {
    if x == 1 then 0 else 1 + Log2(x / 2)
  }

  /** The loop doubles an unsigned word of w bits until it passes x or overflows to zero. */
  method Log2Intptr(x: nat, w: nat) returns (i: int)
    requires w >= 1 && x < Pow2(w)
    ensures if x == 0 then i == -1 else i == Log2(x)
  {
    hide Pow2, Log2;
    i := -1;
    var p := 1;
    Doubled(0, w);
    while p != 0 && p <= x
      invariant -1 <= i < w
      invariant p == if i + 1 == w then 0 else Pow2(i + 1)
      invariant i >= 0 ==> Pow2(i) <= x
      decreases w - i
    {
      i := i + 1;
      Doubled(i, w);
      p := (p * 2) % Pow2(w);
    }
    if x > 0 {
      assert x < Pow2(i + 1);
      Log2Unique(x, i);
    }
  }

  /** Doubling a power of two in a word of w bits. */
  lemma Doubled(i: nat, w: nat)
    requires i < w
    ensures Pow2(0) == 1
    ensures (Pow2(i) * 2) % Pow2(w) == if i + 1 == w then 0 else Pow2(i + 1)
  {
    if i + 1 < w {
      Pow2Mono(i + 2, w);
      DivModUnique(Pow2(i + 1), Pow2(w), 0, Pow2(i + 1));
    } else {
      DivModUnique(Pow2(w), Pow2(w), 1, 0);
    }
  }

  lemma Log2Unique(x: nat, n: nat)
    requires x > 0 && Pow2(n) <= x < Pow2(n + 1)
    ensures n == Log2(x)
  {
    var m := Log2(x);
    if m < n {
      Pow2Mono(m + 1, n);
    } else if n < m {
      Pow2Mono(n + 1, m);
    }
  }

  /** Masking a number with its predecessor gives zero just for the powers of two. */
  lemma {:induction false} PowerTest(x: nat)
    requires x > 0
    ensures And(x, x - 1) == 0 <==> x == Pow2(Log2(x))
  {
    if x % 2 == 0 {
      PowerTest(x / 2);
      assert (x - 1) / 2 == x / 2 - 1;
    } else if x > 1 {
      AndSelf(x / 2);
      assert (x - 1) / 2 == x / 2;
    }
  }

  lemma {:induction false} AndSelf(x: nat)
    ensures And(x, x) == x
  {
    if x > 0 {
      AndSelf(x / 2);
    }
  }

  /** The test of the source, on a constant sign-extended to the w bits of a pointer. */
  predicate IsPowerOf2(c: int, w: nat) {
    var u := c % Pow2(w);
    u != 0 && And(u, u - 1) == 0
  }

  /** Besides the positive powers of two the test accepts the smallest integer, and that only where
      pointers have 32 bits. */
  lemma IntIsPower(c: int, w: nat)
    requires IsInt(c) && w >= 32
    ensures IsPowerOf2(c, w) <==> (c > 0 && c == Pow2(Log2(c))) || (w == 32 && c == -SIGN)
  {
    hide And, Pow2, Log2;
    var u := c % Pow2(w);
    PointerWords(w);
    if c >= 0 {
      DivModUnique(c, Pow2(w), 0, c);
      if c > 0 {
        PowerTest(c);
      }
    } else {
      DivModUnique(c, Pow2(w), -1, c + Pow2(w));
      PowerTest(u);
      HighWord(u, w);
    }
  }

  lemma PointerWords(w: nat)
    requires w >= 32
    ensures Pow2(w) == 2 * Pow2(w - 1) && Pow2(w - 1) >= SIGN && Pow2(31) == SIGN
    ensures Pow2(w - 1) == SIGN <==> w == 32
  {
    hide Pow2;
    Pow2Small(0);
    Pow2Next(w - 1);
    if w > 32 {
      Pow2Mono(32, w - 1);
    }
  }

  lemma HighWord(u: nat, w: nat)
    requires w >= 1 && Pow2(w - 1) <= u < Pow2(w)
    ensures Log2(u) == w - 1
  {
    hide Pow2, Log2;
    assert Pow2((w - 1) + 1) == Pow2(w);
    Log2Unique(u, w - 1);
  }

  /** The exponent for a constant, sign-extended as well. */
  function Exponent(c: int, w: nat): nat {
    var u := c % Pow2(w);
    if u == 0 then 0 else Log2(u)
  }

  lemma ShiftByPower(x: nat, c: int, w: nat)
    requires IsInt(c) && w >= 32 && IsPowerOf2(c, w)
    ensures ShiftLeft(x, Exponent(c, w)) == ToWord(x * c)
  {
    hide And, Pow2, Log2, IsPowerOf2;
    IntIsPower(c, w);
    PointerWords(w);
    if c > 0 {
      DivModUnique(c, Pow2(w), 0, c);
    } else {
      DivModUnique(c, Pow2(w), -1, SIGN);
      HighWord(SIGN, 32);
      ModShift(x * c, WORD, x);
      assert x * c + WORD * x == x * SIGN;
    }
  }

  lemma AfterShift(y: int, x: int)
    ensures ToWord(ToWord(y) - x) == ToWord(y - x) && ToWord(ToWord(y) + x) == ToWord(y + x)
  {
    var q := y / WORD;
    ModShift(ToWord(y) - x, WORD, q);
    ModShift(ToWord(y) + x, WORD, q);
  }

  /** A neighbour of a constant, computed in 32 bits, stands for the true neighbour modulo 2^32. */
  lemma Neighbour(x: int, c: int)
    requires -SIGN - 1 <= c <= SIGN
    ensures IsInt(ToInt(ToWord(c))) && ToWord(x * ToInt(ToWord(c))) == ToWord(x * c)
  {
    var d := ToInt(ToWord(c));
    assert d == c || d == c - WORD || d == c + WORD;
    if d == c - WORD {
      ModShift(x * c, WORD, -x);
      assert x * c + WORD * (-x) == x * d;
    } else if d == c + WORD {
      ModShift(x * c, WORD, x);
      assert x * c + WORD * x == x * d;
    }
  }

  /** Replaces a multiplication by a neighbour of a power of two by a shift, and a subtraction or an
      addition. For every constant for which it does so, and for pointers of 32 bits and more, the result
      is the product modulo 2^32. */
  method StrengthReduceMultiply(left: nat, c: int, tmpValid: bool, w: nat) returns (reduced: bool, result: nat)
    requires IsWord(left) && IsInt(c) && w >= 32
    ensures reduced <==> tmpValid && (IsPowerOf2(ToInt(ToWord(c + 1)), w) || IsPowerOf2(ToInt(ToWord(c - 1)), w))
    ensures reduced ==> result == ToWord(left * c)
  {
    hide ShiftLeft, Exponent, IsPowerOf2, ToWord, ToInt;
    var above, below := ToInt(ToWord(c + 1)), ToInt(ToWord(c - 1));
    Neighbour(left, c + 1);
    Neighbour(left, c - 1);
    reduced, result := false, 0;
    if tmpValid {
      var tmp: int, shifted := left, left;
      if IsPowerOf2(above, w) {
        ShiftByPower(left, above, w);
        AfterShift(left * (c + 1), left);
        assert left * (c + 1) - left == left * c;
        shifted := ShiftLeft(shifted, Exponent(above, w));
        reduced, result := true, ToWord(shifted - tmp);
      } else if IsPowerOf2(below, w) {
        ShiftByPower(left, below, w);
        AfterShift(left * (c - 1), left);
        assert left * (c - 1) + left == left * c;
        shifted := ShiftLeft(shifted, Exponent(below, w));
        reduced, result := true, ToWord(shifted + tmp);
      }
    }
  }

  predicate IsTwoPower(x: int) { x > 0 && x == Pow2(Log2(x)) }

  /** The constants for which no multiplication is needed: positive powers of two and their neighbours. The
      neighbour 2^31 does not fit into 32 bits, and counts only where pointers have 32 bits. */
  predicate Reducible(c: int, w: nat) {
    && c > 0
    && (IsTwoPower(c) || IsTwoPower(c - 1) || (IsTwoPower(c + 1) && (c + 1 < SIGN || w == 32)))
  }

  lemma ReducibleTests(c: int, w: nat)
    requires 0 < c < SIGN && w >= 32
    ensures IsPowerOf2(c, w) <==> IsTwoPower(c)
    ensures IsPowerOf2(ToInt(ToWord(c - 1)), w) <==> IsTwoPower(c - 1)
    ensures IsPowerOf2(ToInt(ToWord(c + 1)), w) <==> IsTwoPower(c + 1) && (c + 1 < SIGN || w == 32)
  {
    hide Pow2, Log2, IsPowerOf2;
    IntIsPower(c, w);
    assert ToInt(ToWord(c - 1)) == c - 1;
    IntIsPower(c - 1, w);
    if c + 1 < SIGN {
      assert ToInt(ToWord(c + 1)) == c + 1;
      IntIsPower(c + 1, w);
    } else {
      assert ToInt(ToWord(c + 1)) == -SIGN;
      IntIsPower(-SIGN, w);
      SignIsPower();
    }
  }

  lemma SignIsPower()
    ensures IsTwoPower(SIGN)
  {
    hide Log2;
    Pow2Small(0);
    Log2Unique(SIGN, 31);
  }

  /** Multiplication by a constant: the result is the product modulo 2^32 for all constants, and the
      multiplication is replaced exactly for positive powers of two and their neighbours. */
  method MultiplyByConstant(left: nat, c: int, w: nat) returns (result: nat, reduced: bool)
    requires IsWord(left) && IsInt(c) && w >= 32
    ensures result == ToWord(left * c)
    ensures reduced <==> Reducible(c, w)
  {
    hide ShiftLeft, Exponent, IsPowerOf2, ToWord, ToInt, IsTwoPower;
    var useConstant, useTmp := false, false;
    if c > 0 {
      ReducibleTests(c, w);
      if IsPowerOf2(c, w) {
        useConstant := true;
      } else if IsPowerOf2(ToInt(ToWord(c - 1)), w) || IsPowerOf2(ToInt(ToWord(c + 1)), w) {
        useConstant, useTmp := true, true;
      }
    }
    reduced := false;
    if useConstant {
      if IsPowerOf2(c, w) {
        ShiftByPower(left, c, w);
        result := ShiftLeft(left, Exponent(c, w));
        reduced := true;
      } else {
        reduced, result := StrengthReduceMultiply(left, c, useTmp, w);
      }
    }
    if !reduced {
      result := ToWord(left * c);
    }
  }

  /** With pointers of 32 bits the largest integer is reduced as well, with a shift by 31; with pointers
      of 64 bits it is not. */
  lemma LargestReduced(w: nat)
    requires w >= 32
    ensures IsPowerOf2(ToInt(ToWord(SIGN - 1 + 1)), w) <==> w == 32
    ensures Exponent(-SIGN, 32) == 31
  {
    hide Pow2, Log2, IsPowerOf2;
    IntIsPower(-SIGN, w);
    PointerWords(32);
    DivModUnique(-SIGN, Pow2(32), -1, SIGN);
    HighWord(SIGN, 32);
  }
}

/** 32-bit words as naturals: powers of two, wrapping arithmetic and bitwise AND. */
module Words {

  /** 2^32, the modulus of every `u32` operation. */
  const WORD: nat := 0x1_0000_0000

  type Word = w: nat | w < 0x1_0000_0000

  type Byte = b: nat | b < 256

  function Pow2(n: nat): (p: nat)
    ensures p > 0
  {
    if n == 0 then 1 else 2 * Pow2(n - 1)
  }

  function WrappingAdd(a: Word, b: Word): Word {
    (a + b) % WORD
  }

  /** The low 32 bits of a product: `_mm256_mullo_epi32` and `vmulq_u32` on one lane. */
  function MulLo(a: Word, b: Word): Word {
    (a * b) % WORD
  }

  /** `a << n` on a `u32`: bits shifted past position 31 are lost. */
  function Shl(a: Word, n: nat): Word {
    (a * Pow2(n)) % WORD
  }

  /** Bitwise AND. */
  function And(a: nat, b: nat): (r: nat) {
    if a == 0 || b == 0 then 0 else (a % 2) * (b % 2) + 2 * And(a / 2, b / 2)
  }

  /** Bitwise OR. */
  function Or(a: nat, b: nat): (r: nat) {
    if a == 0 then b else if b == 0 then a
    else (if a % 2 == 1 || b % 2 == 1 then 1 else 0) + 2 * Or(a / 2, b / 2)
  }

  /** Binary digit `i`, counted from the lowest. */
  function Bit(a: nat, i: nat): (d: nat)
    ensures d < 2
  {
    if i == 0 then a % 2 else Bit(a / 2, i - 1)
  }

  lemma {:induction false} BitOfZero(i: nat)
    ensures Bit(0, i) == 0
  {
    if i > 0 {
      BitOfZero(i - 1);
    }
  }

  /** AND and OR work digit by digit. */
  lemma {:induction false} AndBits(a: nat, b: nat, i: nat)
    ensures Bit(And(a, b), i) == Bit(a, i) * Bit(b, i)
    decreases i
  {
    BitOfZero(i);
    if a != 0 && b != 0 && i > 0 {
      assert And(a, b) / 2 == And(a / 2, b / 2);
      AndBits(a / 2, b / 2, i - 1);
    }
  }

  lemma {:induction false} OrBits(a: nat, b: nat, i: nat)
    ensures Bit(Or(a, b), i) == if Bit(a, i) == 1 || Bit(b, i) == 1 then 1 else 0
    decreases i
  {
    BitOfZero(i);
    if a != 0 && b != 0 && i > 0 {
      assert Or(a, b) / 2 == Or(a / 2, b / 2);
      OrBits(a / 2, b / 2, i - 1);
    }
  }

  lemma {:induction false} BitOfPow2(k: nat, i: nat)
    ensures Bit(Pow2(k), i) == if i == k then 1 else 0
    decreases i
  {
    if i == 0 || k == 0 {
      if i > 0 {
        BitOfZero(i - 1);
      }
    } else {
      BitOfPow2(k - 1, i - 1);
    }
  }

  /** Below a power of two, its digit and all higher ones are zero. */
  lemma {:induction false} BitAbove(a: nat, k: nat, i: nat)
    requires a < Pow2(k) && k <= i
    ensures Bit(a, i) == 0
    decreases i
  {
    if k == 0 || i == 0 {
      BitOfZero(i);
    } else {
      BitAbove(a / 2, k - 1, i - 1);
    }
  }

  /** OR of disjoint parts is their sum. */
  lemma {:induction false} OrBelow(a: nat, k: nat)
    requires a < Pow2(k)
    ensures Or(a, Pow2(k)) == a + Pow2(k)
    decreases k
  {
    if k > 0 {
      OrBelow(a / 2, k - 1);
    }
  }

  lemma {:induction false} Pow2Add(a: nat, b: nat)
    ensures Pow2(a + b) == Pow2(a) * Pow2(b)
  {
    if a != 0 {
      Pow2Add(a - 1, b);
      assert Pow2(a + b) == 2 * Pow2(a - 1 + b);
    }
  }

  lemma Pow2At32()
    ensures Pow2(32) == WORD
  {
    assert Pow2(8) == 256;
    Pow2Add(8, 8);
    Pow2Add(16, 16);
  }

  lemma Pow2Small()
    ensures Pow2(1) == 2 && Pow2(2) == 4 && Pow2(3) == 8 && Pow2(4) == 16
    ensures Pow2(5) == 32 && Pow2(6) == 64 && Pow2(7) == 128 && Pow2(8) == 256
  {
    assert Pow2(4) == 16;
  }

  lemma DivModDef(x: nat, m: nat)
    requires m > 0
    ensures x == (x / m) * m + x % m && x % m < m
  {}

  lemma MulAtLeast(k: nat, m: nat)
    requires k > 0
    ensures k * m >= m
  {}

  lemma MulDistribute(a: int, b: int, m: int)
    ensures (a - b) * m == a * m - b * m
  {}

  lemma MulAssoc(a: int, b: int, c: int)
    ensures a * (b * c) == (a * b) * c
  {}

  /** Division with remainder has one answer. */
  lemma RemainderUnique(m: nat, q: nat, r: nat, q': nat, r': nat)
    requires r < m && r' < m && q * m + r == q' * m + r'
    ensures q == q' && r == r'
  {
    if q > q' {
      MulAtLeast(q - q', m);
      MulDistribute(q, q', m);
    } else if q' > q {
      MulAtLeast(q' - q, m);
      MulDistribute(q', q, m);
    }
  }

  lemma ModIs(x: nat, m: nat, q: nat, r: nat)
    requires r < m && x == q * m + r
    ensures x % m == r
  {
    DivModDef(x, m);
    RemainderUnique(m, x / m, x % m, q, r);
  }

  /** Adding a multiple of the modulus does not change the remainder. */
  lemma ModAddMultiple(x: nat, k: nat, m: nat)
    requires m > 0
    ensures (x + k * m) % m == x % m
  {
    DivModDef(x, m);
    var q, r := x / m, x % m;
    MulDistribute(q + k, k, m);
    ModIs(x + k * m, m, q + k, r);
  }

  /** Reducing mod 2^32 first does not disturb a remainder by a smaller power of two. */
  lemma ModWordThenPow2(x: nat, b: nat)
    requires b <= 32
    ensures (x % WORD) % Pow2(b) == x % Pow2(b)
  {
    Pow2At32();
    Pow2Add(32 - b, b);
    ModModFactor(x, Pow2(32 - b), Pow2(b), WORD);
  }

  lemma ModModFactor(x: nat, c: nat, p: nat, m: nat)
    requires p > 0 && m > 0 && m == c * p
    ensures (x % m) % p == x % p
  {
    DivModDef(x, m);
    FactorOut(x, x / m, x % m, c, p, m);
    SameRemainder(x, x % m, x / m * c, p);
  }

  lemma FactorOut(x: nat, q: nat, r: nat, c: nat, p: nat, m: nat)
    requires x == q * m + r && m == c * p
    ensures x == r + (q * c) * p
  {
    MulAssoc(q, c, p);
  }

  lemma SameRemainder(x: nat, r: nat, k: nat, p: nat)
    requires p > 0 && x == r + k * p
    ensures x % p == r % p
  {
    ModAddMultiple(r, k, p);
  }

  /** AND with a mask of `b` low ones keeps exactly the remainder by 2^b. */
  lemma {:induction false} AndLowMask(a: nat, b: nat)
    ensures And(a, Pow2(b) - 1) == a % Pow2(b)
  {
    if b == 0 {
      assert a % 1 == 0;
    } else {
      var p := Pow2(b - 1);
      assert (2 * p - 1) % 2 == 1 && (2 * p - 1) / 2 == p - 1;
      AndLowMask(a / 2, b - 1);
      DoubleMod(a, p);
      if a == 0 {
        assert 0 % (2 * p) == 0;
      }
    }
  }

  lemma DoubleMod(a: nat, p: nat)
    requires p > 0
    ensures a % (2 * p) == a % 2 + 2 * ((a / 2) % p)
  {
    var h := a / 2;
    DivModDef(h, p);
    var q, r := h / p, h % p;
    assert q * (2 * p) == 2 * (q * p);
    ModIs(a, 2 * p, q, a % 2 + 2 * r);
  }
}

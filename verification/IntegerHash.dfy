/** `integer_hash` permutes the 32-bit words. */
module IntegerHash {
  import opened MachineWords

  function Pow2(n: nat): nat {
    if n == 0 then 1 else 2 * Pow2(n - 1)
  }

  lemma Pow2Of16()
    ensures Pow2(16) == 0x1_0000
  {
    assert Pow2(4) == 16 && Pow2(8) == 256 && Pow2(12) == 4096;
  }

  /** Bitwise exclusive or of two `n`-bit numbers. */
  function Xor(a: nat, b: nat, n: nat): (r: nat)
    ensures r < Pow2(n)
  {
    if n == 0 then 0 else (if a % 2 == b % 2 then 0 else 1) + 2 * Xor(a / 2, b / 2, n - 1)
  }

  /** `(x >> 16) ^ x`: the shift moves the high half onto the low one. */
  function Spread(x: Word): Word {
    Pow2Of16();
    x / 0x1_0000 * 0x1_0000 + Xor(x / 0x1_0000, x % 0x1_0000, 16)
  }

  /** Unsigned 32-bit multiplication. */
  function Times(x: Word, factor: int): Word {
    x * factor % WORD_LIMIT
  }

  const FACTOR := 0x119d_e1f3
  const INVERSE := 0x045d_9f3b

  function Hash(key: Word): Word {
    Spread(Times(Spread(Times(Spread(key), FACTOR)), FACTOR))
  }

  /** The same pipeline with the inverse factor. */
  function Unhash(key: Word): Word {
    Spread(Times(Spread(Times(Spread(key), INVERSE)), INVERSE))
  }

  lemma {:induction false} XorTwice(a: nat, b: nat, n: nat)
    requires b < Pow2(n)
    ensures Xor(a, Xor(a, b, n), n) == b
  {
    if n > 0 {
      XorTwice(a / 2, b / 2, n - 1);
    }
  }

  // ---------- Bits ----------

  /** Bit i of a number. */
  function BitAt(x: nat, i: nat): nat
    decreases i
  {
    if i == 0 then x % 2 else BitAt(x / 2, i - 1)
  }

  /** `Xor` is exclusive or, bit by bit. */
  lemma {:induction false} XorBits(a: nat, b: nat, n: nat, i: nat)
    requires i < n
    ensures BitAt(Xor(a, b, n), i) == (BitAt(a, i) + BitAt(b, i)) % 2
  {
    var d, r := if a % 2 == b % 2 then 0 else 1, Xor(a / 2, b / 2, n - 1);
    assert Xor(a, b, n) == d + 2 * r;
    hide Xor;
    assert (d + 2 * r) % 2 == d && (d + 2 * r) / 2 == r;
    if i > 0 {
      XorBits(a / 2, b / 2, n - 1, i - 1);
    }
  }

  function Halved(x: nat, k: nat): nat
    decreases k
  {
    if k == 0 then x else Halved(x / 2, k - 1)
  }

  lemma {:induction false} BitOfHalved(x: nat, k: nat, i: nat)
    ensures BitAt(x, i + k) == BitAt(Halved(x, k), i)
    decreases k
  {
    if k > 0 {
      BitOfHalved(x / 2, k - 1, i);
    }
  }

  lemma {:induction false} HalvedTwice(x: nat, j: nat, k: nat)
    ensures Halved(x, j + k) == Halved(Halved(x, j), k)
    decreases j
  {
    if j > 0 {
      HalvedTwice(x / 2, j - 1, k);
    }
  }

  lemma HalvedFour(x: nat)
    ensures Halved(x, 4) == x / 16
  {
    assert Halved(x, 4) == x / 2 / 2 / 2 / 2;
  }

  /** Sixteen halvings are the shift by 16. */
  lemma HalvedSixteen(x: nat)
    ensures Halved(x, 16) == x / 0x1_0000
  {
    hide Halved;
    HalvedTwice(x, 4, 12);
    HalvedTwice(x / 16, 4, 8);
    HalvedTwice(x / 16 / 16, 4, 4);
    HalvedFour(x);
    HalvedFour(x / 16);
    HalvedFour(x / 16 / 16);
    HalvedFour(x / 16 / 16 / 16);
  }

  /** The lower bits of a sum with a multiple of 2^n. */
  lemma {:induction false} BitOfSum(h: nat, l: nat, n: nat, i: nat)
    requires i < n
    ensures BitAt(h * Pow2(n) + l, i) == BitAt(l, i)
    decreases n
  {
    var t := h * Pow2(n - 1);
    assert h * Pow2(n) == 2 * t;
    if i > 0 {
      BitOfSum(h, l / 2, n - 1, i - 1);
      assert (2 * t + l) / 2 == t + l / 2;
    } else {
      assert (2 * t + l) % 2 == l % 2;
    }
  }

  /** The bits of a word whose halves are `h` and `l`. */
  lemma BitsOfHalves(x: nat, h: nat, l: nat, i: nat)
    requires l < 0x1_0000 && x == h * 0x1_0000 + l
    ensures i < 16 ==> BitAt(x, i) == BitAt(l, i)
    ensures BitAt(x, i + 16) == BitAt(h, i)
  {
    Pow2Of16();
    hide Pow2, BitAt;
    if i < 16 {
      BitOfSum(h, l, 16, i);
    }
    BitOfHalved(x, 16, i);
    HalvedSixteen(x);
  }

  /** Bit i of `(x >> 16) ^ x` is bit i of x plus bit i + 16, modulo 2. */
  lemma SpreadBits(x: Word, i: nat)
    requires i < 32
    ensures BitAt(Spread(x), i) == (BitAt(x, i) + (if i < 16 then BitAt(x, i + 16) else 0)) % 2
  {
    hide Spread, Xor, BitAt;
    var h, l := x / 0x1_0000, x % 0x1_0000;
    var low := Xor(h, l, 16);
    SpreadOf(h, l, low);
    var j := if i < 16 then i else i - 16;
    BitsOfHalves(x, h, l, j);
    BitsOfHalves(Spread(x), h, low, j);
    if i < 16 {
      XorBits(h, l, 16, i);
    } else {
      BitIsBit(x, i);
    }
  }

  lemma {:induction false} BitIsBit(x: nat, i: nat)
    ensures BitAt(x, i) < 2
    decreases i
  {
    if i > 0 {
      BitIsBit(x / 2, i - 1);
    }
  }

  lemma SpreadIsInvolution(x: Word)
    ensures Spread(Spread(x)) == x
  {
    var h, l := x / 0x1_0000, x % 0x1_0000;
    Pow2Of16();
    XorTwice(h, l, 16);
    hide Xor;
    assert Spread(x) / 0x1_0000 == h && Spread(x) % 0x1_0000 == Xor(h, l, 16);
  }

  lemma TimesCancels(x: Word, a: int, b: int, k: int)
    requires a * b == 1 + k * WORD_LIMIT
    ensures Times(Times(x, a), b) == x
  {
    var q := x * a / WORD_LIMIT;
    assert Times(x, a) == x * a - q * WORD_LIMIT;
    calc {
      Times(x, a) * b;
      (x * a - q * WORD_LIMIT) * b;
      x * (a * b) - q * b * WORD_LIMIT;
      x * (1 + k * WORD_LIMIT) - q * b * WORD_LIMIT;
      x + (x * k - q * b) * WORD_LIMIT;
    }
    RemainderOf(x, x * k - q * b);
  }

  lemma RemainderOf(x: Word, t: int)
    ensures (x + t * WORD_LIMIT) % WORD_LIMIT == x
  {
  }

  /** No two keys share a hash value, and every value is a hash value. */
  lemma HashIsBijection(key: Word)
    ensures Unhash(Hash(key)) == key
    ensures Hash(Unhash(key)) == key
  {
    hide Spread, Times;
    Undoes(key, FACTOR, INVERSE);
    Undoes(key, INVERSE, FACTOR);
  }

  lemma Undoes(key: Word, a: int, b: int)
    requires (a == FACTOR && b == INVERSE) || (a == INVERSE && b == FACTOR)
    ensures Spread(Times(Spread(Times(Spread(Spread(Times(Spread(Times(Spread(key), a)), a))), b)), b)) == key
  {
    hide Spread, Times;
    var s := Spread(key);
    var u := Spread(Times(s, a));
    assert a * b == 1 + 0x4c_e8d8 * WORD_LIMIT;
    SpreadIsInvolution(Times(u, a));
    TimesCancels(u, a, b, 0x4c_e8d8);
    SpreadIsInvolution(Times(s, a));
    TimesCancels(s, a, b, 0x4c_e8d8);
    SpreadIsInvolution(key);
  }

  /** One value in full, step by step. */
  lemma HashOfOne()
    ensures Hash(1) == 0x4ab1_acdb
  {
    hide Xor, Spread;
    XorAt0();
    SpreadOf(0, 1, 1);
    XorAt1();
    SpreadOf(0x119d, 0xe1f3, 0xf06e);
    XorAt2();
    SpreadOf(0x4ab1, 0xe66a, 0xacdb);
    assert Times(0x119d_f06e, FACTOR) == 0x4ab1_e66a;
  }

  lemma XorAt0()
    ensures Xor(0, 1, 16) == 1
  {
    assert Xor(0, 0, 4) == 0;
    assert Xor(0, 0, 8) == 0;
    assert Xor(0, 0, 12) == 0;
  }

  lemma XorAt1()
    ensures Xor(0x119d, 0xe1f3, 16) == 0xf06e
  {
    assert Xor(0x1, 0xe, 4) == 0xf;
    assert Xor(0x11, 0xe1, 8) == 0xf0;
    assert Xor(0x119, 0xe1f, 12) == 0xf06;
  }

  lemma XorAt2()
    ensures Xor(0x4ab1, 0xe66a, 16) == 0xacdb
  {
    assert Xor(0x4, 0xe, 4) == 0xa;
    assert Xor(0x4a, 0xe6, 8) == 0xac;
    assert Xor(0x4ab, 0xe66, 12) == 0xacd;
  }

  lemma SpreadOf(h: nat, l: nat, low: nat)
    requires h < 0x1_0000 && l < 0x1_0000 && Xor(h, l, 16) == low
    ensures low < 0x1_0000 && Spread(h * 0x1_0000 + l) == h * 0x1_0000 + low
  {
    Pow2Of16();
    hide Xor;
  }
}

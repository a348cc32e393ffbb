/** Unsigned 32-bit arithmetic. */
module Words {

  const MODULUS := 0x1_0000_0000

  /** An unsigned 32-bit integer. */
  type Word = w: int | 0 <= w < MODULUS

  /** Addition and subtraction wrap around. */
  function Plus(p: Word, q: Word): Word {
    if p + q < MODULUS then p + q else p + q - MODULUS
  }

  function Minus(p: Word, q: Word): Word {
    if q <= p then p - q else p - q + MODULUS
  }

  lemma PlusMinus(p: Word, q: Word)
    ensures Minus(Plus(p, q), q) == p && Plus(Minus(p, q), q) == p
  {
  }

  function Pow2(n: nat): (p: nat)
    ensures p > 0
  {
    if n == 0 then 1 else 2 * Pow2(n - 1)
  }

  lemma {:induction false} Pow2Adds(m: nat, n: nat)
    ensures Pow2(m + n) == Pow2(m) * Pow2(n)
  {
    if m > 0 {
      Pow2Adds(m - 1, n);
      assert 2 * Pow2(m - 1) * Pow2(n) == Pow2(m) * Pow2(n);
    }
  }

  lemma Pow2Of32()
    ensures Pow2(32) == MODULUS
  {
    Pow2Adds(8, 8);
    Pow2Adds(16, 16);
    assert Pow2(4) == 16;
    Pow2Adds(4, 4);
  }

  /** Exclusive or, bit by bit. */
  function BitXor(x: nat, y: nat): nat {
    if x == 0 && y == 0 then 0 else 2 * BitXor(x / 2, y / 2) + if x % 2 == y % 2 then 0 else 1
  }

  lemma {:induction false} BitXorBelow(x: nat, y: nat, n: nat)
    requires x < Pow2(n) && y < Pow2(n)
    ensures BitXor(x, y) < Pow2(n)
    decreases n
  {
    if n > 0 {
      BitXorBelow(x / 2, y / 2, n - 1);
    }
  }

  lemma {:induction false} BitXorTwice(x: nat, y: nat)
    ensures BitXor(BitXor(x, y), y) == x
  {
    if x != 0 || y != 0 {
      var z := BitXor(x, y);
      assert z / 2 == BitXor(x / 2, y / 2) && z % 2 == if x % 2 == y % 2 then 0 else 1;
      BitXorTwice(x / 2, y / 2);
    }
  }

  function Xor(x: Word, y: Word): Word {
    Pow2Of32();
    BitXorBelow(x, y, 32);
    BitXor(x, y)
  }

  lemma XorTwice(x: Word, y: Word)
    ensures Xor(Xor(x, y), y) == x
  {
    BitXorTwice(x, y);
  }

  /** Inclusive or, bit by bit. */
  function BitOr(x: nat, y: nat): nat {
    if x == 0 && y == 0 then 0 else 2 * BitOr(x / 2, y / 2) + if x % 2 == y % 2 == 0 then 0 else 1
  }

  lemma {:induction false} BitOrZero(x: nat)
    ensures BitOr(x, 0) == x
  {
    if x > 0 {
      BitOrZero(x / 2);
    }
  }

  /** Where no bit is shared, `|` adds. */
  lemma {:induction false} BitOrAdds(x: nat, y: nat, n: nat)
    requires y < Pow2(n)
    ensures BitOr(x * Pow2(n), y) == x * Pow2(n) + y
  {
    if n == 0 {
      BitOrZero(x);
    } else {
      assert x * Pow2(n) == 2 * (x * Pow2(n - 1));
      BitOrAdds(x, y / 2, n - 1);
    }
  }

  lemma Multiple(h: nat, r: nat)
    requires r < MODULUS
    ensures (h * MODULUS + r) % MODULUS == r
  {
  }

  lemma ProductOrder(h: nat, p: nat, q: nat)
    requires h <= p
    ensures h * q <= p * q
  {
  }

  /** With `p * q` the modulus: a left shift by `p` keeps the remainder modulo `q`, a right shift
      by `q` leaves less than `p`, and so the two never overlap. */
  lemma RotationParts(word: Word, p: nat, q: nat)
    requires p > 0 && q > 0 && p * q == MODULUS
    ensures (word * p) % MODULUS == (word % q) * p
    ensures 0 <= word / q < p
    ensures 0 <= (word * p) % MODULUS + word / q < MODULUS
  {
    var h, l := word / q, word % q;
    assert word == h * q + l;
    if p <= h {
      ProductOrder(p, h, q);
    }
    calc {
      word * p;
      (h * q + l) * p;
      h * (p * q) + l * p;
    }
    ProductOrder(l, q - 1, p);
    assert (q - 1) * p == MODULUS - p;
    Multiple(h, l * p);
  }

  /** A rotation stays within the word: its two shifts have no bit in common, so that `|` adds them. */
  lemma RotationFits(word: Word, shift: nat)
    requires 0 < shift < 32
    ensures var left, right := (word * Pow2(shift)) % MODULUS, word / Pow2(32 - shift);
            0 <= left && 0 <= right && BitOr(left, right) == left + right < MODULUS
  {
    Pow2Adds(shift, 32 - shift);
    Pow2Of32();
    var p, q := Pow2(shift), Pow2(32 - shift);
    BitOrAdds(word % q, word / q, shift) by {
      RotationParts(word, p, q);
    }
    hide Pow2, BitOr;
    RotationParts(word, p, q);
  }

  /** `rol32` */
  function Rol(word: Word, shift: nat): Word
    requires 0 < shift < 32
  {
    RotationFits(word, shift);
    hide Pow2, BitOr;
    BitOr((word * Pow2(shift)) % MODULUS, word / Pow2(32 - shift))
  }

  lemma RolIsSum(word: Word, shift: nat)
    requires 0 < shift < 32
    ensures Rol(word, shift) == (word * Pow2(shift)) % MODULUS + word / Pow2(32 - shift)
  {
    RotationFits(word, shift);
    hide Pow2, BitOr;
  }

  lemma Parts(word: Word, q: nat)
    requires q > 0
    ensures word == (word / q) * q + word % q
  {
  }

  /** A rotation exchanges the high `shift` bits and the low ones. */
  lemma RolExchanges(word: Word, shift: nat)
    requires 0 < shift < 32
    ensures var p, q := Pow2(shift), Pow2(32 - shift);
            && word == (word / q) * q + word % q && 0 <= word / q < p
            && Rol(word, shift) == (word % q) * p + word / q
  {
    RolIsSum(word, shift);
    Pow2Adds(shift, 32 - shift);
    Pow2Of32();
    hide Pow2, Rol;
    Parts(word, Pow2(32 - shift));
    RotationParts(word, Pow2(shift), Pow2(32 - shift));
  }

  /** Bit `i`, counted from the lowest. */
  function Bit(n: nat, i: nat): nat {
    if i == 0 then n % 2 else Bit(n / 2, i - 1)
  }

  lemma {:induction false} BitOfSum(high: nat, low: nat, k: nat, i: nat)
    requires low < Pow2(k)
    ensures Bit(high * Pow2(k) + low, i) == if i < k then Bit(low, i) else Bit(high, i - k)
    decreases k
  {
    if k > 0 {
      assert high * Pow2(k) == 2 * (high * Pow2(k - 1));
      if i > 0 {
        BitOfSum(high, low / 2, k - 1, i - 1);
      }
    }
  }

  /** Every bit moves up by `shift`, and those that leave the word come back at its low end. */
  lemma RolMovesBits(word: Word, shift: nat, i: nat)
    requires 0 < shift < 32 && i < 32
    ensures Bit(Rol(word, shift), (i + shift) % 32) == Bit(word, i)
  {
    hide Pow2, Bit, Rol;
    RolExchanges(word, shift);
    var q := Pow2(32 - shift);
    BitOfSum(word / q, word % q, 32 - shift, i);
    BitOfSum(word % q, word / q, shift, (i + shift) % 32);
  }
}

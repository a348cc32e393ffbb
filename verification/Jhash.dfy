/** Jenkins' lookup3 hash as the BPF programs use it: the byte form, the word form,
    the fixed-size forms, and the two mixing steps with their inverses. */
module Jhash {
  import opened Words

  /** The internal state. */
  datatype Abc = Abc(a: Word, b: Word, c: Word)

  type Byte = b: int | 0 <= b < 0x100

  const INITVAL: Word := 0xdeadbeef

  // ---------------------------------------------------------------- mixing

  /** One line of `__jhash_mix` on (a, b, c), and the registers in the order in which the next line uses them. */
  function MixLine(s: Abc, shift: nat): Abc
    requires 0 < shift < 32
  {
    Abc(s.b, Plus(s.c, s.b), Xor(Minus(s.a, s.c), Rol(s.c, shift)))
  }

  function UnmixLine(t: Abc, shift: nat): Abc
    requires 0 < shift < 32
  {
    var c := Minus(t.b, t.a);
    Abc(Plus(Xor(t.c, Rol(c, shift)), c), t.a, c)
  }

  function Mix(s: Abc): Abc {
    MixLine(MixLine(MixLine(MixLine(MixLine(MixLine(s, 4), 6), 8), 16), 19), 4)
  }

  function Unmix(s: Abc): Abc {
    UnmixLine(UnmixLine(UnmixLine(UnmixLine(UnmixLine(UnmixLine(s, 4), 19), 16), 8), 6), 4)
  }

  /** One line of `__jhash_final`, which changes c, and the registers as the next line uses them. */
  function FinalLine(s: Abc, shift: nat): Abc
    requires 0 < shift < 32
  {
    Abc(s.b, Minus(Xor(s.c, s.b), Rol(s.b, shift)), s.a)
  }

  function UnfinalLine(t: Abc, shift: nat): Abc
    requires 0 < shift < 32
  {
    Abc(t.c, t.a, Xor(Plus(t.b, Rol(t.a, shift)), t.a))
  }

  /** Seven lines turn the registers round once more than a full number of times. */
  function Final(s: Abc): Abc {
    var t := FinalLine(FinalLine(FinalLine(FinalLine(FinalLine(FinalLine(FinalLine(s, 14), 11), 25), 16), 4), 14), 24);
    Abc(t.c, t.a, t.b)
  }

  function Unfinal(s: Abc): Abc {
    UnfinalLine(UnfinalLine(UnfinalLine(UnfinalLine(UnfinalLine(UnfinalLine(UnfinalLine(
      Abc(s.b, s.c, s.a), 24), 14), 4), 16), 25), 11), 14)
  }

  lemma MixLineInverse(s: Abc, shift: nat)
    requires 0 < shift < 32
    ensures UnmixLine(MixLine(s, shift), shift) == s
    ensures MixLine(UnmixLine(s, shift), shift) == s
  {
    hide Rol, Plus, Minus, Xor;
    PlusMinus(s.c, s.b);
    PlusMinus(s.a, s.c);
    XorTwice(Minus(s.a, s.c), Rol(s.c, shift));
    var c := Minus(s.b, s.a);
    PlusMinus(s.b, s.a);
    XorTwice(s.c, Rol(c, shift));
    PlusMinus(Xor(s.c, Rol(c, shift)), c);
  }

  lemma FinalLineInverse(s: Abc, shift: nat)
    requires 0 < shift < 32
    ensures UnfinalLine(FinalLine(s, shift), shift) == s
    ensures FinalLine(UnfinalLine(s, shift), shift) == s
  {
    hide Rol, Plus, Minus, Xor;
    PlusMinus(Xor(s.c, s.b), Rol(s.b, shift));
    XorTwice(s.c, s.b);
    XorTwice(Plus(s.b, Rol(s.a, shift)), s.a);
    PlusMinus(s.b, Rol(s.a, shift));
  }

  /** `__jhash_mix` is a bijection on register triples, with inverse `Unmix`. */
  lemma MixBijective(s: Abc)
    ensures Unmix(Mix(s)) == s && Mix(Unmix(s)) == s
  {
    hide MixLine, UnmixLine;
    var s1 := MixLine(s, 4);
    var s2 := MixLine(s1, 6);
    var s3 := MixLine(s2, 8);
    var s4 := MixLine(s3, 16);
    var s5 := MixLine(s4, 19);
    MixLineInverse(s, 4);
    MixLineInverse(s1, 6);
    MixLineInverse(s2, 8);
    MixLineInverse(s3, 16);
    MixLineInverse(s4, 19);
    MixLineInverse(s5, 4);
    var t1 := UnmixLine(s, 4);
    var t2 := UnmixLine(t1, 19);
    var t3 := UnmixLine(t2, 16);
    var t4 := UnmixLine(t3, 8);
    var t5 := UnmixLine(t4, 6);
    MixLineInverse(t1, 19);
    MixLineInverse(t2, 16);
    MixLineInverse(t3, 8);
    MixLineInverse(t4, 6);
    MixLineInverse(t5, 4);
  }

  /** `__jhash_final` is a bijection on register triples, with inverse `Unfinal`. */
  lemma FinalBijective(s: Abc)
    ensures Unfinal(Final(s)) == s && Final(Unfinal(s)) == s
  {
    hide FinalLine, UnfinalLine;
    var s1 := FinalLine(s, 14);
    var s2 := FinalLine(s1, 11);
    var s3 := FinalLine(s2, 25);
    var s4 := FinalLine(s3, 16);
    var s5 := FinalLine(s4, 4);
    var s6 := FinalLine(s5, 14);
    FinalLineInverse(s, 14);
    FinalLineInverse(s1, 11);
    FinalLineInverse(s2, 25);
    FinalLineInverse(s3, 16);
    FinalLineInverse(s4, 4);
    FinalLineInverse(s5, 14);
    FinalLineInverse(s6, 24);
    var r := Abc(s.b, s.c, s.a);
    var t1 := UnfinalLine(r, 24);
    var t2 := UnfinalLine(t1, 14);
    var t3 := UnfinalLine(t2, 4);
    var t4 := UnfinalLine(t3, 16);
    var t5 := UnfinalLine(t4, 25);
    var t6 := UnfinalLine(t5, 11);
    FinalLineInverse(r, 24);
    FinalLineInverse(t1, 14);
    FinalLineInverse(t2, 4);
    FinalLineInverse(t3, 16);
    FinalLineInverse(t4, 25);
    FinalLineInverse(t5, 11);
    FinalLineInverse(t6, 14);
  }

  // ---------------------------------------------------------------- the two forms

  /** Byte `i` of a key, or nothing beyond its end. */
  function ByteAt(k: seq<Byte>, i: nat): Byte {
    if i < |k| then k[i] else 0
  }

  /** The little-endian word at offset `i`, as far as the key goes. */
  function Load(k: seq<Byte>, i: nat): Word {
    ByteAt(k, i) + 0x100 * ByteAt(k, i + 1) + 0x1_0000 * ByteAt(k, i + 2) + 0x100_0000 * ByteAt(k, i + 3)
  }

  function Add(s: Abc, x: Word, y: Word, z: Word): Abc {
    Abc(Plus(s.a, x), Plus(s.b, y), Plus(s.c, z))
  }

  /** The state before finalisation: mix after every block but the last, only add the last. */
  function Absorb(s: Abc, k: seq<Byte>): Abc
    decreases |k|
  {
    if |k| > 12 then Absorb(Mix(Add(s, Load(k, 0), Load(k, 4), Load(k, 8))), k[12..])
    else Add(s, Load(k, 0), Load(k, 4), Load(k, 8))
  }

  function WordAt(k: seq<Word>, i: nat): Word {
    if i < |k| then k[i] else 0
  }

  function AbsorbWords(s: Abc, k: seq<Word>): Abc
    decreases |k|
  {
    if |k| > 3 then AbsorbWords(Mix(Add(s, k[0], k[1], k[2])), k[3..])
    else Add(s, WordAt(k, 0), WordAt(k, 1), WordAt(k, 2))
  }

  /** All three registers start from the length of the key in bytes. */
  function Start(bytes: Word, initval: Word): Abc {
    var x := Plus(Plus(INITVAL, bytes), initval);
    Abc(x, x, x)
  }

  /** An empty key is not finalised. */
  function Hash(k: seq<Byte>, initval: Word): Word
    requires |k| < MODULUS
  {
    if k == [] then Start(0, initval).c else Final(Absorb(Start(|k|, initval), k)).c
  }

  function HashWords(k: seq<Word>, initval: Word): Word
    requires |k| < MODULUS
  {
    var bytes := (4 * |k|) % MODULUS;
    if k == [] then Start(bytes, initval).c else Final(AbsorbWords(Start(bytes, initval), k)).c
  }

  /** The bytes of a word on a little-endian machine. */
  function Bytes(w: Word): (k: seq<Byte>)
    ensures |k| == 4 && Load(k, 0) == w
  {
    var x := w / 0x100;
    var y := x / 0x100;
    var z := y / 0x100;
    assert w == w % 0x100 + 0x100 * x && x == x % 0x100 + 0x100 * y && y == y % 0x100 + 0x100 * z;
    [w % 0x100, x % 0x100, y % 0x100, z]
  }

  function AllBytes(ws: seq<Word>): (k: seq<Byte>)
    ensures |k| == 4 * |ws|
  {
    if ws == [] then [] else Bytes(ws[0]) + AllBytes(ws[1..])
  }

  lemma {:induction false} LoadAllBytes(ws: seq<Word>, i: nat)
    ensures Load(AllBytes(ws), 4 * i) == WordAt(ws, i)
    decreases |ws|
  {
    if ws != [] && i > 0 {
      LoadAllBytes(ws[1..], i - 1);
    } else if ws != [] {
      assert Load(AllBytes(ws), 0) == Load(Bytes(ws[0]), 0);
    }
  }

  lemma AllBytesDrop(ws: seq<Word>)
    requires ws != []
    ensures AllBytes(ws)[4..] == AllBytes(ws[1..])
  {
    hide Bytes;
  }

  lemma AllBytesDrop3(ws: seq<Word>)
    requires |ws| >= 3
    ensures AllBytes(ws)[12..] == AllBytes(ws[3..])
  {
    hide AllBytes, Bytes;
    AllBytesDrop(ws);
    AllBytesDrop(ws[1..]);
    AllBytesDrop(ws[1..][1..]);
    assert ws[1..][1..][1..] == ws[3..];
    var k := AllBytes(ws);
    assert k[12..] == k[4..][4..][4..];
  }

  lemma {:induction false} SameAbsorption(s: Abc, ws: seq<Word>)
    ensures Absorb(s, AllBytes(ws)) == AbsorbWords(s, ws)
    decreases |ws|
  {
    hide Mix, Add, Load;
    LoadAllBytes(ws, 0);
    LoadAllBytes(ws, 1);
    LoadAllBytes(ws, 2);
    if |ws| > 3 {
      AllBytesDrop3(ws);
      SameAbsorption(Mix(Add(s, ws[0], ws[1], ws[2])), ws[3..]);
    }
  }

  /** The empty key is not mixed at all. */
  lemma EmptyKey(initval: Word)
    ensures Hash([], initval) == HashWords([], initval) == Plus(0xdeadbeef, initval)
  {
  }

  /** On a little-endian machine the byte form and the word form agree: for
      every key of fewer than 2^30 words and every initial value. */
  lemma ByteFormIsWordForm(ws: seq<Word>, initval: Word)
    requires |ws| < 0x4000_0000
    ensures Hash(AllBytes(ws), initval) == HashWords(ws, initval)
  {
    hide Final, Absorb, AbsorbWords, AllBytes, Start;
    SameAbsorption(Start(4 * |ws|, initval), ws);
    assert (4 * |ws|) % MODULUS == |AllBytes(ws)|;
  }

  // ---------------------------------------------------------------- no collisions inside

  lemma AddInjective(s: Abc, t: Abc, x: Word, y: Word, z: Word)
    requires Add(s, x, y, z) == Add(t, x, y, z)
    ensures s == t
  {
  }

  /** Different states stay different, whatever the rest of the key. */
  lemma {:induction false} AbsorbInjective(s: Abc, t: Abc, k: seq<Byte>)
    requires s != t
    ensures Absorb(s, k) != Absorb(t, k)
    decreases |k|
  {
    hide Mix, Unmix, Add, Load;
    var s1, t1 := Add(s, Load(k, 0), Load(k, 4), Load(k, 8)), Add(t, Load(k, 0), Load(k, 4), Load(k, 8));
    if s1 == t1 {
      AddInjective(s, t, Load(k, 0), Load(k, 4), Load(k, 8));
    }
    if |k| > 12 {
      MixBijective(s1);
      MixBijective(t1);
      AbsorbInjective(Mix(s1), Mix(t1), k[12..]);
    }
  }

  lemma Digits(a: Byte, b: Byte, x: nat, y: nat)
    requires a + 0x100 * x == b + 0x100 * y
    ensures a == b && x == y
  {
  }

  lemma LoadInjective(k: seq<Byte>, l: seq<Byte>, i: nat)
    requires Load(k, i) == Load(l, i)
    ensures forall j :: i <= j < i + 4 ==> ByteAt(k, j) == ByteAt(l, j)
  {
    hide ByteAt;
    var x1, y1 := ByteAt(k, i + 1) + 0x100 * ByteAt(k, i + 2) + 0x1_0000 * ByteAt(k, i + 3),
                  ByteAt(l, i + 1) + 0x100 * ByteAt(l, i + 2) + 0x1_0000 * ByteAt(l, i + 3);
    var x2, y2 := ByteAt(k, i + 2) + 0x100 * ByteAt(k, i + 3), ByteAt(l, i + 2) + 0x100 * ByteAt(l, i + 3);
    Digits(ByteAt(k, i), ByteAt(l, i), x1, y1);
    Digits(ByteAt(k, i + 1), ByteAt(l, i + 1), x2, y2);
    Digits(ByteAt(k, i + 2), ByteAt(l, i + 2), ByteAt(k, i + 3), ByteAt(l, i + 3));
  }

  lemma BlockInjective(s: Abc, x: seq<Byte>, y: seq<Byte>)
    requires |x| == |y| <= 12 && x != y
    ensures Add(s, Load(x, 0), Load(x, 4), Load(x, 8)) != Add(s, Load(y, 0), Load(y, 4), Load(y, 8))
  {
    if Load(x, 0) == Load(y, 0) && Load(x, 4) == Load(y, 4) && Load(x, 8) == Load(y, 8) {
      LoadInjective(x, y, 0);
      LoadInjective(x, y, 4);
      LoadInjective(x, y, 8);
      assert forall j :: 0 <= j < |x| ==> x[j] == ByteAt(x, j) == ByteAt(y, j) == y[j];
    }
  }

  lemma {:induction false} DifferAfterPrefix(s: Abc, p: seq<Byte>, x: seq<Byte>, y: seq<Byte>, q: seq<Byte>)
    requires |p| % 12 == 0 && |x| == |y| && x != y
    requires |x| == 12 || (0 < |x| < 12 && q == [])
    ensures Absorb(s, p + x + q) != Absorb(s, p + y + q)
    decreases |p|
  {
    hide Mix, Unmix, Add, Load;
    if p == [] {
      assert p + x + q == x + q && p + y + q == y + q;
      DifferAtOnce(s, x, y, q);
    } else {
      var r := p[12..];
      assert (p + x + q)[12..] == r + x + q && (p + y + q)[12..] == r + y + q;
      SameBlock(p, x + q, 0);
      SameBlock(p, x + q, 4);
      SameBlock(p, x + q, 8);
      SameBlock(p, y + q, 0);
      SameBlock(p, y + q, 4);
      SameBlock(p, y + q, 8);
      assert p + x + q == p + (x + q) && p + y + q == p + (y + q);
      DifferAfterPrefix(Mix(Add(s, Load(p, 0), Load(p, 4), Load(p, 8))), r, x, y, q);
    }
  }

  lemma SameBlock(p: seq<Byte>, q: seq<Byte>, i: nat)
    requires |p| >= i + 4
    ensures Load(p + q, i) == Load(p, i)
  {
  }

  lemma DifferAtOnce(s: Abc, x: seq<Byte>, y: seq<Byte>, q: seq<Byte>)
    requires |x| == |y| && x != y && (|x| == 12 || (0 < |x| < 12 && q == []))
    ensures Absorb(s, x + q) != Absorb(s, y + q)
  {
    hide Mix, Unmix, Add, Load;
    BlockInjective(s, x, y);
    if q == [] {
      assert x + q == x && y + q == y;
    } else {
      SameBlock(x, q, 0);
      SameBlock(x, q, 4);
      SameBlock(x, q, 8);
      SameBlock(y, q, 0);
      SameBlock(y, q, 4);
      SameBlock(y, q, 8);
      var s1, t1 := Add(s, Load(x, 0), Load(x, 4), Load(x, 8)), Add(s, Load(y, 0), Load(y, 4), Load(y, 8));
      MixBijective(s1);
      MixBijective(t1);
      assert (x + q)[12..] == q && (y + q)[12..] == q;
      AbsorbInjective(Mix(s1), Mix(t1), q);
    }
  }

  /** Keys of one length that differ within a single 12-byte block, the last
      and shorter one included, reach different states before and after finalisation. */
  lemma OneBlockDiffers(p: seq<Byte>, x: seq<Byte>, y: seq<Byte>, q: seq<Byte>, initval: Word)
    requires |p| % 12 == 0 && |x| == |y| && x != y && |p + x + q| < MODULUS
    requires |x| == 12 || (0 < |x| < 12 && q == [])
    ensures var s := Start(|p + x + q|, initval);
            && Absorb(s, p + x + q) != Absorb(s, p + y + q)
            && Final(Absorb(s, p + x + q)) != Final(Absorb(s, p + y + q))
  {
    hide Final, Unfinal, Absorb;
    var s := Start(|p + x + q|, initval);
    DifferAfterPrefix(s, p, x, y, q);
    FinalBijective(Absorb(s, p + x + q));
    FinalBijective(Absorb(s, p + y + q));
  }

  // ---------------------------------------------------------------- the code

  /** The macro `__jhash_mix`. */
  method MixRegisters(a0: Word, b0: Word, c0: Word) returns (a: Word, b: Word, c: Word)
    ensures Abc(a, b, c) == Mix(Abc(a0, b0, c0))
  {
    hide Plus, Minus, Xor, Rol;
    a, b, c := a0, b0, c0;
    a := Minus(a, c); a := Xor(a, Rol(c, 4)); c := Plus(c, b);
    b := Minus(b, a); b := Xor(b, Rol(a, 6)); a := Plus(a, c);
    c := Minus(c, b); c := Xor(c, Rol(b, 8)); b := Plus(b, a);
    a := Minus(a, c); a := Xor(a, Rol(c, 16)); c := Plus(c, b);
    b := Minus(b, a); b := Xor(b, Rol(a, 19)); a := Plus(a, c);
    c := Minus(c, b); c := Xor(c, Rol(b, 4)); b := Plus(b, a);
  }

  /** The macro `__jhash_final`. */
  method FinalRegisters(a0: Word, b0: Word, c0: Word) returns (a: Word, b: Word, c: Word)
    ensures Abc(a, b, c) == Final(Abc(a0, b0, c0))
  {
    hide Plus, Minus, Xor, Rol;
    a, b, c := a0, b0, c0;
    c := Xor(c, b); c := Minus(c, Rol(b, 14));
    a := Xor(a, c); a := Minus(a, Rol(c, 11));
    b := Xor(b, a); b := Minus(b, Rol(a, 25));
    c := Xor(c, b); c := Minus(c, Rol(b, 16));
    a := Xor(a, c); a := Minus(a, Rol(c, 4));
    b := Xor(b, a); b := Minus(b, Rol(a, 14));
    c := Xor(c, b); c := Minus(c, Rol(b, 24));
  }

  /** What the last block of 0 to 12 bytes adds to one register: the cases fall through from the highest byte down. */
  method AddTail(x: Word, k: seq<Byte>, i: nat) returns (r: Word)
    requires |k| <= 12
    ensures r == Plus(x, Load(k, i))
  {
    r := x;
    if |k| >= i + 4 { r := Plus(r, 0x100_0000 * (k[i + 3] as int)); }
    if |k| >= i + 3 { r := Plus(r, 0x1_0000 * (k[i + 2] as int)); }
    if |k| >= i + 2 { r := Plus(r, 0x100 * (k[i + 1] as int)); }
    if |k| >= i + 1 { r := Plus(r, k[i]); }
  }

  /** `jhash` */
  method Jhash(key: seq<Byte>, initval: Word) returns (hash: Word)
    requires |key| < MODULUS
    ensures hash == Hash(key, initval)
  {
    hide Plus, Mix, Final, Load;
    var k, length := key, |key|;
    var a := Plus(Plus(INITVAL, length), initval);
    var b, c := a, a;
    while length > 12
      invariant length == |k| && (k == [] <==> key == [])
      invariant key == [] ==> Abc(a, b, c) == Start(0, initval)
      invariant Absorb(Abc(a, b, c), k) == Absorb(Start(|key|, initval), key)
    {
      a := Plus(a, Load(k, 0));
      b := Plus(b, Load(k, 4));
      c := Plus(c, Load(k, 8));
      a, b, c := MixRegisters(a, b, c);
      length := length - 12;
      k := k[12..];
    }
    if length > 0 {
      c := AddTail(c, k, 8);
      b := AddTail(b, k, 4);
      a := AddTail(a, k, 0);
      a, b, c := FinalRegisters(a, b, c);
    }
    hash := c;
  }

  /** `jhash2` */
  method Jhash2(key: seq<Word>, initval: Word) returns (hash: Word)
    requires |key| < MODULUS
    ensures hash == HashWords(key, initval)
  {
    hide Plus, Mix, Final;
    var k, length := key, |key|;
    var a := Plus(Plus(INITVAL, (4 * length) % MODULUS), initval);
    var b, c := a, a;
    ghost var start := Abc(a, b, c);
    while length > 3
      invariant length == |k| && (k == [] <==> key == [])
      invariant key == [] ==> Abc(a, b, c) == start
      invariant AbsorbWords(Abc(a, b, c), k) == AbsorbWords(start, key)
    {
      a, b, c := Plus(a, k[0]), Plus(b, k[1]), Plus(c, k[2]);
      a, b, c := MixRegisters(a, b, c);
      length := length - 3;
      k := k[3..];
    }
    if length > 0 {
      PlusZero(b);
      PlusZero(c);
      if length == 3 { c := Plus(c, k[2]); }
      if length >= 2 { b := Plus(b, k[1]); }
      a := Plus(a, k[0]);
      a, b, c := FinalRegisters(a, b, c);
    }
    hash := c;
  }

  lemma PlusZero(x: Word)
    ensures Plus(x, 0) == x
  {
  }

  /** `__jhash_nwords` */
  function HashN(a: Word, b: Word, c: Word, initval: Word): Word {
    Final(Abc(Plus(a, initval), Plus(b, initval), Plus(c, initval))).c
  }

  function Hash3Words(a: Word, b: Word, c: Word, initval: Word): Word {
    HashN(a, b, c, Plus(Plus(initval, INITVAL), 12))
  }

  function Hash2Words(a: Word, b: Word, initval: Word): Word {
    HashN(a, b, 0, Plus(Plus(initval, INITVAL), 8))
  }

  function Hash1Word(a: Word, initval: Word): Word {
    HashN(a, 0, 0, Plus(Plus(initval, INITVAL), 4))
  }

  lemma PlusOrder(x: Word, initval: Word, n: Word)
    ensures Plus(x, Plus(Plus(initval, INITVAL), n)) == Plus(Plus(Plus(INITVAL, n), initval), x)
  {
  }

  /** The fixed-size forms are the word form on one, two and three words. */
  lemma FixedSizesAgree(a: Word, b: Word, c: Word, initval: Word)
    ensures Hash3Words(a, b, c, initval) == HashWords([a, b, c], initval)
    ensures Hash2Words(a, b, initval) == HashWords([a, b], initval)
    ensures Hash1Word(a, initval) == HashWords([a], initval)
  {
    hide Plus, Final;
    PlusOrder(a, initval, 12);
    PlusOrder(b, initval, 12);
    PlusOrder(c, initval, 12);
    PlusOrder(a, initval, 8);
    PlusOrder(b, initval, 8);
    PlusOrder(0, initval, 8);
    PlusOrder(a, initval, 4);
    PlusOrder(0, initval, 4);
  }
}

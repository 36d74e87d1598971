/** The published check value of CRC-16/CCITT-FALSE, worked out from the model: polynomial, initial value,
    bit order and byte order are the standard's. */
module CheckValue {
  import opened Bits
  import opened Crc

  /** The bit of weight `w` turned over. */
  function Flip(a: nat, w: nat): nat
    requires w > 0
  {
    if a / w % 2 == 0 then a + w else a - w
  }

  lemma {:induction false} XorBit(a: nat, k: nat)
    ensures Shl(1, k) > 0 && Xor(a, Shl(1, k)) == Flip(a, Shl(1, k))
  {
    if k == 0 {
      XorZero(a / 2);
    } else {
      var w := Shl(1, k - 1);
      XorBit(a / 2, k - 1);
      assert Xor(a, 2 * w) == 2 * Xor(a / 2, w) + a % 2;
      Halved(a, w);
    }
  }

  lemma Halved(a: nat, w: nat)
    requires w > 0
    ensures Flip(a, 2 * w) == 2 * Flip(a / 2, w) + a % 2
  {
    var q, r := a / 2 / w, a / 2 % w;
    assert a == 2 * (q * w + r) + a % 2;
    Divided(a, 2 * w, q, 2 * r + a % 2);
    Doubled(q, w);
  }

  lemma Doubled(q: nat, w: nat)
    ensures q * (2 * w) == 2 * (q * w)
  {
  }

  lemma Between(d: int, w: nat)
    requires -1 * w < d * w < w
    ensures d == 0
  {
  }

  lemma Divided(a: nat, w: nat, q: nat, r: nat)
    requires a == q * w + r && r < w
    ensures a / w == q
  {
    var d := q - a / w;
    assert d * w == q * w - a / w * w == a % w - r;
    Between(d, w);
  }

  /** Several bits, turned over one after the other. */
  lemma XorMore(a: nat, b: nat, k: nat)
    ensures Shl(1, k) > 0 && Xor(a, Xor(b, Shl(1, k))) == Flip(Xor(a, b), Shl(1, k))
  {
    XorAssoc(a, b, Shl(1, k));
    XorBit(Xor(a, b), k);
  }

  function Shifted(c: Register): Register {
    if c >= 0x8000 then Flip(Flip(Flip(2 * c, 1), 0x20), 0x1000) % 0x10000 else 2 * c
  }

  lemma ShiftIs(c: Register)
    ensures Shift(c) == Shifted(c)
  {
    Weights();
    hide Xor, Shl;
    XorBit(2 * c, 0);
    XorBit(1, 5);
    XorBit(0x21, 12);
    XorMore(2 * c, 1, 5);
    XorMore(2 * c, 0x21, 12);
  }

  lemma Weights()
    ensures Shl(1, 0) == 1 && Shl(1, 5) == 0x20 && Shl(1, 8) == 0x100 && Shl(1, 9) == 0x200 && Shl(1, 10) == 0x400
    ensures Shl(1, 11) == 0x800 && Shl(1, 12) == 0x1000 && Shl(1, 13) == 0x2000
  {
  }

  lemma Twice(c: Register, n: nat)
    ensures ShiftN(c, n + 2) == ShiftN(Shifted(Shifted(c)), n)
  {
    ShiftIs(c);
    ShiftIs(Shifted(c));
    hide Shift, Shifted;
  }

  lemma NoMore(c: Register)
    ensures ShiftN(c, 0) == c
  {
  }

  lemma EightShifts(c: Register)
    ensures ShiftN(c, 8) == Shifted(Shifted(Shifted(Shifted(Shifted(Shifted(Shifted(Shifted(c))))))))
  {
    hide *;
    var d := Shifted(Shifted(c));
    var e := Shifted(Shifted(d));
    var f := Shifted(Shifted(e));
    Twice(c, 6);
    Twice(d, 4);
    Twice(e, 2);
    Twice(f, 0);
    NoMore(Shifted(Shifted(f)));
  }

  /** A register with the code of a digit mixed into its top half: 0x30 and the bits of the digit. */
  function Mixed(c: nat, digit: nat): nat {
    var tens := Flip(Flip(c, 0x1000), 0x2000);
    FlipIf(digit / 8 % 2 == 1,
           FlipIf(digit / 4 % 2 == 1, FlipIf(digit / 2 % 2 == 1, FlipIf(digit % 2 == 1, tens, 0x100), 0x200), 0x400),
           0x800)
  }

  function FlipIf(on: bool, a: nat, w: nat): nat
    requires w > 0
  {
    if on then Flip(a, w) else a
  }

  /** A bit that `b` does not have. */
  lemma OneMoreBit(on: bool, a: nat, b: nat, k: nat, w: nat)
    requires w > 0 && w == Shl(1, k) && b / w % 2 == 0
    ensures Xor(a, b + Bit(on, w)) == FlipIf(on, Xor(a, b), w)
  {
    hide Xor, Shl;
    XorBit(b, k);
    XorMore(a, b, k);
  }

  function Bit(on: bool, w: nat): nat {
    if on then w else 0
  }

  lemma Room(e: bool, f: bool, g: bool)
    ensures var b := 0x3000 + Bit(e, 0x100); b / 0x200 % 2 == 0
    ensures var b := 0x3000 + Bit(e, 0x100) + Bit(f, 0x200); b / 0x400 % 2 == 0
    ensures var b := 0x3000 + Bit(e, 0x100) + Bit(f, 0x200) + Bit(g, 0x400); b / 0x800 % 2 == 0
  {
  }

  lemma BitsOf(digit: nat)
    requires digit < 10
    ensures Raise(0x30 + digit)
            == 0x3000 + Bit(digit % 2 == 1, 0x100) + Bit(digit / 2 % 2 == 1, 0x200) + Bit(digit / 4 % 2 == 1, 0x400)
               + Bit(digit / 8 % 2 == 1, 0x800)
  {
    FourUp(0x30 + digit);
    FourUp(16 * (0x30 + digit));
    ShlShl(0x30 + digit, 4, 4);
    hide Shl;
  }

  lemma FourUp(v: nat)
    ensures Shl(v, 4) == 16 * v
  {
    assert Shl(v, 2) == 2 * Shl(v, 1) == 4 * v;
    ShlShl(v, 2, 2);
    assert Shl(4 * v, 2) == 2 * Shl(4 * v, 1);
  }

  lemma MixedIs(c: Register, digit: nat)
    requires digit < 10
    ensures Mix(c, Raise(0x30 + digit)) == Mixed(c, digit)
  {
    hide Xor, Shl, Flip, Bit;
    var e, f, g, h := digit % 2 == 1, digit / 2 % 2 == 1, digit / 4 % 2 == 1, digit / 8 % 2 == 1;
    BitsOf(digit);
    MixedBits(c, e, f, g, h);
  }

  lemma MixedBits(c: Register, e: bool, f: bool, g: bool, h: bool)
    ensures Xor(c, 0x3000 + Bit(e, 0x100) + Bit(f, 0x200) + Bit(g, 0x400) + Bit(h, 0x800))
            == FlipIf(h, FlipIf(g, FlipIf(f, FlipIf(e, Flip(Flip(c, 0x1000), 0x2000), 0x100), 0x200), 0x400), 0x800)
  {
    hide Xor, Shl, Flip, Bit;
    Weights();
    Room(e, f, g);
    var b1 := 0x3000 + Bit(e, 0x100);
    var b2 := b1 + Bit(f, 0x200);
    var b3 := b2 + Bit(g, 0x400);
    XorZero(c);
    OneMoreBit(true, c, 0, 12, 0x1000);
    OneMoreBit(true, c, 0x1000, 13, 0x2000);
    OneMoreBit(e, c, 0x3000, 8, 0x100);
    OneMoreBit(f, c, b1, 9, 0x200);
    OneMoreBit(g, c, b2, 10, 0x400);
    OneMoreBit(h, c, b3, 11, 0x800);
    Taken(0x1000);
    Taken(0x2000);
  }

  lemma Taken(w: nat)
    ensures Bit(true, w) == w
  {
  }

  /** The code of a digit absorbed, given the register after mixing and after every shift. */
  lemma Digit(c: Register, digit: nat, mixed: Register, r1: Register, r2: Register, r3: Register, r4: Register,
              r5: Register, r6: Register, r7: Register, r8: Register)
    requires digit < 10 && Mixed(c, digit) == mixed
    requires Shifted(mixed) == r1 && Shifted(r1) == r2 && Shifted(r2) == r3 && Shifted(r3) == r4
    requires Shifted(r4) == r5 && Shifted(r5) == r6 && Shifted(r6) == r7 && Shifted(r7) == r8
    ensures Absorb(c, 0x30 + digit) == r8
  {
    hide Shifted, Mixed, ShiftN;
    MixedIs(c, digit);
    EightShifts(mixed);
  }

  lemma Digit1()
    ensures Absorb(0xFFFF, 0x31) == 0xC782
  {
    hide Absorb, Shift, ShiftN, Shl, Xor;
    Digit(0xFFFF, 1, 0xCEFF, 0x8DDF, 0x0B9F, 0x173E, 0x2E7C, 0x5CF8, 0xB9F0, 0x63C1, 0xC782);
  }

  lemma Digit2()
    ensures Absorb(0xC782, 0x32) == 0x3DBA
  {
    hide Absorb, Shift, ShiftN, Shl, Xor;
    Digit(0xC782, 2, 0xF582, 0xFB25, 0xE66B, 0xDCF7, 0xA9CF, 0x43BF, 0x877E, 0x1EDD, 0x3DBA);
  }

  lemma Digit3()
    ensures Absorb(0x3DBA, 0x33) == 0x5BCE
  {
    hide Absorb, Shift, ShiftN, Shl, Xor;
    Digit(0x3DBA, 3, 0x0EBA, 0x1D74, 0x3AE8, 0x75D0, 0xEBA0, 0xC761, 0x9EE3, 0x2DE7, 0x5BCE);
  }

  lemma Digit4()
    ensures Absorb(0x5BCE, 0x34) == 0x5349
  {
    hide Absorb, Shift, ShiftN, Shl, Xor;
    Digit(0x5BCE, 4, 0x6FCE, 0xDF9C, 0xAF19, 0x4E13, 0x9C26, 0x286D, 0x50DA, 0xA1B4, 0x5349);
  }

  lemma Digit5()
    ensures Absorb(0x5349, 0x35) == 0x4560
  {
    hide Absorb, Shift, ShiftN, Shl, Xor;
    Digit(0x5349, 5, 0x6649, 0xCC92, 0x8905, 0x022B, 0x0456, 0x08AC, 0x1158, 0x22B0, 0x4560);
  }

  lemma Digit6()
    ensures Absorb(0x4560, 0x36) == 0x2EF4
  {
    hide Absorb, Shift, ShiftN, Shl, Xor;
    Digit(0x4560, 6, 0x7360, 0xE6C0, 0xDDA1, 0xAB63, 0x46E7, 0x8DCE, 0x0BBD, 0x177A, 0x2EF4);
  }

  lemma Digit7()
    ensures Absorb(0x2EF4, 0x37) == 0x7718
  {
    hide Absorb, Shift, ShiftN, Shl, Xor;
    Digit(0x2EF4, 7, 0x19F4, 0x33E8, 0x67D0, 0xCFA0, 0x8F61, 0x0EE3, 0x1DC6, 0x3B8C, 0x7718);
  }

  lemma Digit8()
    ensures Absorb(0x7718, 0x38) == 0xA12B
  {
    hide Absorb, Shift, ShiftN, Shl, Xor;
    Digit(0x7718, 8, 0x4F18, 0x9E30, 0x2C41, 0x5882, 0xB104, 0x7229, 0xE452, 0xD885, 0xA12B);
  }

  lemma Digit9()
    ensures Absorb(0xA12B, 0x39) == 0x29B1
  {
    hide Absorb, Shift, ShiftN, Shl, Xor;
    Digit(0xA12B, 9, 0x982B, 0x2077, 0x40EE, 0x81DC, 0x1399, 0x2732, 0x4E64, 0x9CC8, 0x29B1);
  }

  /** The check value: the CRC of the text "123456789". */
  lemma CheckValue()
    ensures CrcOf([0x31, 0x32, 0x33, 0x34, 0x35, 0x36, 0x37, 0x38, 0x39]) == 0x29B1
  {
    hide Absorb;
    var data: seq<byte> := [0x31, 0x32, 0x33, 0x34, 0x35, 0x36, 0x37, 0x38, 0x39];
    Digit1();
    Digit2();
    Digit3();
    Digit4();
    Digit5();
    Digit6();
    Digit7();
    Digit8();
    Digit9();
  }
}

/** CRC-16/CCITT-FALSE as written in swarm_proto.py and swarm_protocol.h. */
module Crc {
  import opened Bits
  import Sequences

  const POLY: nat := 0x1021

  type Register = c: nat | c < 0x10000

  /** One turn of the inner loop. */
  function Shift(c: Register): Register {
    if c >= 0x8000 then Xor(2 * c, POLY) % 0x10000 else 2 * c
  }

  function ShiftN(c: Register, n: nat): Register
    decreases n
  {
    if n == 0 then c else ShiftN(Shift(c), n - 1)
  }

  /** The exclusive-or of two registers. */
  function Mix(a: Register, b: Register): (c: Register)
    ensures c == Xor(a, b)
  {
    XorWord(a, b);
    Xor(a, b)
  }

  /** A byte moved to the top half of a register. */
  function Raise(v: byte): (c: Register)
    ensures c == Shl(v, 8)
  {
    ShlMono(v, 0x100, 8);
    assert Shl(0x100, 8) == 0x10000 by { Powers(); ShlShl(1, 8, 8); }
    Shl(v, 8)
  }

  /** One turn of the outer loop: mix the byte into the top half, shift eight times. */
  function Absorb(c: Register, v: byte): Register {
    ShiftN(Mix(c, Raise(v)), 8)
  }

  function CrcFrom(c: Register, data: seq<byte>): Register
    decreases |data|
  {
    if data == [] then c else CrcFrom(Absorb(c, data[0]), data[1..])
  }

  function CrcOf(data: seq<byte>): Register {
    CrcFrom(0xFFFF, data)
  }

  lemma Powers()
    ensures Shl(1, 8) == 0x100 && Shl(1, 15) == 0x8000 && Shl(1, 16) == 0x10000
  {
    assert Shl(1, 4) == 0x10;
    ShlShl(1, 4, 4);
    assert Shl(0x10, 4) == 0x100;
    ShlShl(1, 8, 4);
    assert Shl(0x100, 4) == 0x1000;
    ShlShl(1, 12, 3);
  }

  lemma XorWord(a: nat, b: nat)
    requires a < 0x10000 && b < 0x10000
    ensures Xor(a, b) < 0x10000
  {
    Powers();
    XorBound(16, a, b);
  }

  lemma {:induction false} ShiftNSnoc(c: Register, n: nat)
    ensures ShiftN(c, n + 1) == Shift(ShiftN(c, n))
    decreases n
  {
    if n > 0 { ShiftNSnoc(Shift(c), n - 1); }
  }

  lemma {:induction false} CrcFromSnoc(c: Register, data: seq<byte>, v: byte)
    ensures CrcFrom(c, data + [v]) == Absorb(CrcFrom(c, data), v)
    decreases |data|
  {
    if data != [] {
      assert (data + [v])[1..] == data[1..] + [v];
      CrcFromSnoc(Absorb(c, data[0]), data[1..], v);
    }
  }

  method Crc16(data: seq<byte>) returns (crc: Register)
    ensures crc == CrcOf(data)
  {
    crc := 0xFFFF;
    for i := 0 to |data|
      invariant crc == CrcOf(data[..i])
    {
      ghost var before := crc;
      crc := Mix(crc, Raise(data[i]));
      for n := 0 to 8
        invariant crc == ShiftN(Mix(before, Raise(data[i])), n)
      {
        ShiftNSnoc(Mix(before, Raise(data[i])), n);
        if crc >= 0x8000 {
          crc := Xor(2 * crc, POLY) % 0x10000;
        } else {
          crc := 2 * crc;
        }
      }
      assert data[..i + 1] == data[..i] + [data[i]];
      CrcFromSnoc(0xFFFF, data[..i], data[i]);
    }
    assert data[..|data|] == data;
  }

  // ---------------------------------------------------------------- the shift step is linear and one-to-one

  function Top(e: bool): Register {
    if e then 0x8000 else 0
  }

  function Low(c: Register): (r: nat)
    ensures r < 0x8000 && c == r + Top(c >= 0x8000)
  {
    if c >= 0x8000 then c - 0x8000 else c
  }

  /** Both branches of the step have one shape: double the low part, add the polynomial on carry. */
  lemma ShiftForm(c: Register)
    ensures Shift(c) == Xor(2 * Low(c), if c >= 0x8000 then POLY else 0)
  {
    hide Xor, Shl;
    var x := 2 * Low(c);
    XorZero(x);
    if c >= 0x8000 {
      CarryForm(x);
    }
  }

  /** The bit shifted out takes no part in the exclusive or. */
  lemma CarryForm(x: nat)
    requires x < 0x10000
    ensures Xor(0x10000 + x, POLY) % 0x10000 == Xor(x, POLY) < 0x10000
  {
    hide Xor;
    Powers();
    XorSplit(16, x, POLY, 1, 0);
    ShlZero(16);
    XorZero(1);
    XorWord(x, POLY);
  }

  lemma XorHigh(a: Register, b: Register)
    ensures Xor(Low(a), Low(b)) < 0x8000
    ensures Xor(a, b) == Xor(Low(a), Low(b)) + Top((a >= 0x8000) != (b >= 0x8000))
  {
    hide Xor;
    Powers();
    ShlZero(15);
    XorBound(15, Low(a), Low(b));
    var p, q := if a >= 0x8000 then 1 else 0, if b >= 0x8000 then 1 else 0;
    XorSplit(15, Low(a), Low(b), p, q);
    XorZero(p);
    XorZero(q);
    XorSelf(1);
  }

  lemma XorDouble(x: nat, y: nat)
    ensures Xor(2 * x, 2 * y) == 2 * Xor(x, y)
  {
    Halve(0, x);
    Halve(0, y);
  }

  lemma ShiftLinear(a: Register, b: Register)
    ensures Shift(Mix(a, b)) == Mix(Shift(a), Shift(b))
  {
    XorHigh(a, b);
    ShiftForm(a);
    ShiftForm(b);
    ShiftForm(Mix(a, b));
    XorDouble(Low(a), Low(b));
    CarryLinear(2 * Low(a), a >= 0x8000, 2 * Low(b), b >= 0x8000);
  }

  lemma CarryLinear(x: nat, e: bool, y: nat, f: bool)
    ensures Xor(Xor(x, if e then POLY else 0), Xor(y, if f then POLY else 0))
            == Xor(Xor(x, y), if e != f then POLY else 0)
  {
    hide Xor;
    var p, q := if e then POLY else 0, if f then POLY else 0;
    XorSwap(x, p, y, q);
    XorZero(p);
    XorZero(q);
    XorSelf(POLY);
  }

  /** The polynomial is odd, so no register but zero is shifted out of existence. */
  lemma ShiftKernel(c: Register)
    ensures Shift(c) == 0 <==> c == 0
  {
    ShiftForm(c);
    hide Xor;
    var x := 2 * Low(c);
    XorZero(x);
    XorStep(x, POLY);
  }

  lemma {:induction false} ShiftNKernel(c: Register, n: nat)
    ensures ShiftN(c, n) == 0 <==> c == 0
    decreases n
  {
    if n > 0 {
      ShiftKernel(c);
      ShiftNKernel(Shift(c), n - 1);
    }
  }

  // ---------------------------------------------------------------- bit-serial view

  /** The register after taking in bits one at a time, first bit first. */
  function Feed(c: Register, bits: seq<bool>): Register
    decreases |bits|
  {
    if bits == [] then c else Feed(Shift(Mix(c, Top(bits[0]))), bits[1..])
  }

  /** A bit string read as a number, most significant bit first. */
  function Word(bits: seq<bool>): nat {
    if bits == [] then 0 else (if bits[0] then Shl(1, |bits| - 1) else 0) + Word(bits[1..])
  }

  /** The low `n` bits of a number, most significant first. */
  function NumberBits(v: nat, n: nat): (bits: seq<bool>)
    ensures |bits| == n
    decreases n
  {
    if n == 0 then [] else NumberBits(v / 2, n - 1) + [v % 2 == 1]
  }

  function ByteBits(v: byte): (bits: seq<bool>)
    ensures |bits| == 8
  {
    NumberBits(v, 8)
  }

  function BitsOf(data: seq<byte>): (bits: seq<bool>)
    ensures |bits| == 8 * |data|
  {
    if data == [] then [] else ByteBits(data[0]) + BitsOf(data[1..])
  }

  lemma {:induction false} WordBound(bits: seq<bool>)
    ensures Word(bits) < Shl(1, |bits|)
  {
    if bits != [] { WordBound(bits[1..]); }
  }

  /** A word of at most sixteen bits moved to the top of a register. */
  function Aligned(bits: seq<bool>): (c: Register)
    requires |bits| <= 16
    ensures c == Shl(Word(bits), 16 - |bits|)
  {
    var k := 16 - |bits|;
    assert Shl(Word(bits), k) < 0x10000 by {
      WordBound(bits);
      ShlMono(Word(bits), Shl(1, |bits|), k);
      ShlShl(1, |bits|, k);
      Powers();
    }
    Shl(Word(bits), k)
  }

  lemma TopPlace(e: bool, n: nat)
    requires 0 < n <= 16
    ensures Shl(if e then Shl(1, n - 1) else 0, 16 - n) == Top(e)
  {
    if e {
      ShlShl(1, n - 1, 16 - n);
      Powers();
    } else {
      ShlZero(16 - n);
    }
  }

  lemma LowPlace(w: nat, n: nat)
    requires 0 < n <= 16 && w < Shl(1, n - 1)
    ensures Shl(w, 16 - n) < 0x8000 && Shl(w, 17 - n) == 2 * Shl(w, 16 - n)
  {
    ShlMono(w, Shl(1, n - 1), 16 - n);
    TopPlace(true, n);
  }

  lemma WordStep(bits: seq<bool>) returns (first: nat)
    requires bits != []
    ensures first == if bits[0] then Shl(1, |bits| - 1) else 0
    ensures Word(bits) == first + Word(bits[1..])
  {
    first := if bits[0] then Shl(1, |bits| - 1) else 0;
  }

  /** The first bit is the top bit; the rest, moved up one place, is the rest aligned. */
  lemma AlignedStep(bits: seq<bool>)
    requires 0 < |bits| <= 16
    ensures var low := Shl(Word(bits[1..]), 16 - |bits|);
            low < 0x8000 && 2 * low == Aligned(bits[1..]) && Aligned(bits) == Top(bits[0]) + low
  {
    hide *;
    var first := WordStep(bits);
    WordBound(bits[1..]);
    LowPlace(Word(bits[1..]), |bits|);
    TopPlace(bits[0], |bits|);
    ShlAdd(first, Word(bits[1..]), 16 - |bits|);
  }

  lemma XorDisjoint(c: Register, e: bool, low: Register)
    requires low < 0x8000
    ensures Top(e) + low < 0x10000
    ensures Mix(c, Top(e) + low) == Mix(Mix(c, Top(e)), low)
  {
    hide Xor;
    XorAssoc(c, Top(e), low);
    XorHigh(Top(e), low);
    XorZero(low);
  }

  /** Up to sixteen bits fed one by one have the effect of one word mixed into the top. */
  lemma {:induction false} FeedWord(c: Register, bits: seq<bool>)
    requires |bits| <= 16
    ensures Feed(c, bits) == ShiftN(Mix(c, Aligned(bits)), |bits|)
    decreases |bits|
  {
    if bits == [] {
      XorZero(c);
      ShlZero(16);
    } else {
      AlignedStep(bits);
      var low: Register := Shl(Word(bits[1..]), 16 - |bits|);
      var mixed := Mix(c, Top(bits[0]));
      FeedWord(Shift(mixed), bits[1..]);
      hide Xor;
      XorDisjoint(c, bits[0], low);
      ShiftLinear(mixed, low);
    }
  }

  lemma {:induction false} WordSnoc(s: seq<bool>, e: bool)
    ensures Word(s + [e]) == 2 * Word(s) + if e then 1 else 0
  {
    if s == [] {
    } else {
      assert (s + [e])[1..] == s[1..] + [e];
      WordSnoc(s[1..], e);
    }
  }

  lemma {:induction false} NumberWord(v: nat, n: nat)
    requires v < Shl(1, n)
    ensures Word(NumberBits(v, n)) == v
    decreases n
  {
    if n > 0 {
      NumberWord(v / 2, n - 1);
      WordSnoc(NumberBits(v / 2, n - 1), v % 2 == 1);
    }
  }

  lemma ByteWord(v: byte)
    ensures Word(ByteBits(v)) == v
  {
    Powers();
    NumberWord(v, 8);
  }

  lemma AbsorbIsFeed(c: Register, v: byte)
    ensures Absorb(c, v) == Feed(c, ByteBits(v))
  {
    FeedWord(c, ByteBits(v));
    ByteWord(v);
  }

  lemma {:induction false} FeedConcat(c: Register, s: seq<bool>, t: seq<bool>)
    ensures Feed(c, s + t) == Feed(Feed(c, s), t)
    decreases |s|
  {
    if s == [] {
      assert s + t == t;
    } else {
      assert (s + t)[1..] == s[1..] + t;
      FeedConcat(Shift(Mix(c, Top(s[0]))), s[1..], t);
    }
  }

  /** The byte-wise loop of the source computes the bit-serial CRC. */
  lemma {:induction false} CrcIsFeed(c: Register, data: seq<byte>)
    ensures CrcFrom(c, data) == Feed(c, BitsOf(data))
    decreases |data|
  {
    if data != [] {
      AbsorbIsFeed(c, data[0]);
      CrcIsFeed(Absorb(c, data[0]), data[1..]);
      FeedConcat(c, ByteBits(data[0]), BitsOf(data[1..]));
    }
  }

  // ---------------------------------------------------------------- burst detection

  function Difference(s: seq<bool>, t: seq<bool>): (r: seq<bool>)
    requires |s| == |t|
    ensures |r| == |s| && forall k :: 0 <= k < |s| ==> r[k] == (s[k] != t[k])
  {
    seq(|s|, k requires 0 <= k < |s| => s[k] != t[k])
  }

  /** Two runs side by side differ by the run over the differences. */
  lemma {:induction false} FeedLinear(c: Register, d: Register, s: seq<bool>, t: seq<bool>)
    requires |s| == |t|
    ensures Mix(Feed(c, s), Feed(d, t)) == Feed(Mix(c, d), Difference(s, t))
    decreases |s|
  {
    if s != [] {
      var x, y := Mix(c, Top(s[0])), Mix(d, Top(t[0]));
      FeedLinear(Shift(x), Shift(y), s[1..], t[1..]);
      assert Difference(s, t)[1..] == Difference(s[1..], t[1..]);
      hide Xor;
      ShiftLinear(x, y);
      XorSwap(c, Top(s[0]), d, Top(t[0]));
      XorZero(0x8000);
      XorZero(0);
      XorSelf(0x8000);
    }
  }

  predicate Quiet(s: seq<bool>) {
    forall k :: 0 <= k < |s| ==> !s[k]
  }

  lemma {:induction false} FeedQuiet(c: Register, s: seq<bool>)
    requires Quiet(s)
    ensures Feed(c, s) == 0 <==> c == 0
    decreases |s|
  {
    if s != [] {
      XorZero(c);
      ShiftKernel(c);
      FeedQuiet(Shift(c), s[1..]);
    }
  }

  lemma {:induction false} WordPositive(s: seq<bool>)
    requires !Quiet(s)
    ensures Word(s) > 0
  {
    if s[0] {
      if |s| > 1 { ShlMono(0, 1, |s| - 1); ShlZero(|s| - 1); }
    } else {
      var k :| 0 <= k < |s| && s[k];
      assert s[1..][k - 1];
      WordPositive(s[1..]);
    }
  }

  /** A nonzero difference of at most sixteen consecutive bits leaves a nonzero register. */
  lemma DifferenceSurvives(before: seq<bool>, burst: seq<bool>, after: seq<bool>)
    requires Quiet(before) && Quiet(after) && !Quiet(burst) && |burst| <= 16
    ensures Feed(0, before + burst + after) != 0
  {
    FeedConcat(0, before + burst, after);
    FeedConcat(0, before, burst);
    FeedQuiet(0, before);
    FeedWord(0, burst);
    WordPositive(burst);
    ShlMono(0, Word(burst), 16 - |burst|);
    ShlZero(16 - |burst|);
    XorZero(Aligned(burst));
    ShiftNKernel(Aligned(burst), |burst|);
    FeedQuiet(Feed(0, burst), after);
  }

  lemma BurstSurvives(s: seq<bool>, t: seq<bool>, start: nat)
    requires |s| == |t| && s != t
    requires forall k :: 0 <= k < |s| && !(start <= k < start + 16) ==> s[k] == t[k]
    ensures Feed(0, Difference(s, t)) != 0
  {
    hide *;
    var d := Difference(s, t);
    var k :| 0 <= k < |s| && s[k] != t[k];
    var stop := if start + 16 <= |s| then start + 16 else |s|;
    DifferenceAt(s, t);
    QuietSlice(s, t, 0, start);
    QuietSlice(s, t, stop, |s|);
    Loud(d, start, stop, k);
    Sequences.Thirds(d, start, stop);
    DifferenceSurvives(d[0..start], d[start..stop], d[stop..|d|]);
  }

  lemma Loud(d: seq<bool>, lo: nat, hi: nat, k: nat)
    requires lo <= k < hi <= |d| && d[k]
    ensures !Quiet(d[lo..hi])
  {
    assert d[lo..hi][k - lo] == d[k];
  }

  lemma DifferenceAt(s: seq<bool>, t: seq<bool>)
    requires |s| == |t|
    ensures |Difference(s, t)| == |s| && forall i :: 0 <= i < |s| ==> Difference(s, t)[i] == (s[i] != t[i])
  {
  }

  lemma QuietSlice(s: seq<bool>, t: seq<bool>, lo: nat, hi: nat)
    requires |s| == |t| && lo <= hi <= |s| && forall k :: lo <= k < hi ==> s[k] == t[k]
    ensures |Difference(s, t)| == |s| && Quiet(Difference(s, t)[lo..hi])
  {
    DifferenceAt(s, t);
    var d := Difference(s, t);
    forall i | 0 <= i < hi - lo ensures !d[lo..hi][i] {
      assert d[lo..hi][i] == d[lo + i];
    }
  }

  lemma {:induction false} BitsInjective(a: seq<byte>, b: seq<byte>)
    requires |a| == |b| && BitsOf(a) == BitsOf(b)
    ensures a == b
    decreases |a|
  {
    if a != [] {
      assert ByteBits(a[0]) == BitsOf(a)[..8] && ByteBits(b[0]) == BitsOf(b)[..8];
      assert BitsOf(a[1..]) == BitsOf(a)[8..] && BitsOf(b[1..]) == BitsOf(b)[8..];
      ByteWord(a[0]);
      ByteWord(b[0]);
      BitsInjective(a[1..], b[1..]);
    }
  }

  /** How two CRCs differ depends only on how the payloads differ. */
  lemma CrcDifference(a: seq<byte>, b: seq<byte>)
    requires |a| == |b|
    ensures Xor(CrcOf(a), CrcOf(b)) == Feed(0, Difference(BitsOf(a), BitsOf(b)))
  {
    hide Xor, Feed;
    var init: Register := 0xFFFF;
    FeedLinear(init, init, BitsOf(a), BitsOf(b));
    XorSelf(init);
    CrcIsFeed(init, a);
    CrcIsFeed(init, b);
  }

  /** Two different payloads of one length whose differences all lie within sixteen
      consecutive bits never share a CRC, whatever their length and wherever the burst lies. */
  lemma BurstDetected(a: seq<byte>, b: seq<byte>, start: nat)
    requires |a| == |b| && a != b
    requires forall k :: 0 <= k < 8 * |a| && !(start <= k < start + 16) ==> BitsOf(a)[k] == BitsOf(b)[k]
    ensures CrcOf(a) != CrcOf(b)
  {
    if BitsOf(a) == BitsOf(b) { BitsInjective(a, b); }
    hide *;
    BurstSurvives(BitsOf(a), BitsOf(b), start);
    CrcDifference(a, b);
    XorSelf(CrcOf(a));
  }
}

/** The firmware's little-endian writers (swarm_protocol.h): they store into the caller's
    buffer what the Python side packs. */
module HeaderWriter {
  import opened Wrappers
  import opened Bits
  import opened Struct
  import Codec
  import Sequences

  /** The `n` bytes at `off` are `v`; every other byte is as before. */
  twostate predicate Stored(buf: array<byte>, off: nat, v: seq<byte>)
    reads buf
  {
    && off + |v| <= buf.Length
    && buf[off..off + |v|] == v
    && buf[..off] == old(buf[..off])
    && buf[off + |v|..] == old(buf[off + |v|..])
  }

  method PutU16(buf: array<byte>, off: nat, v: int) returns (n: nat)
    requires off + 2 <= buf.Length && 0 <= v < 0x10000
    modifies buf
    ensures n == 2 && Fits(U16, v) && Stored(buf, off, PackOne(U16, v))
  {
    BytesOfTwo(v);
    buf[off] := v % 0x100;
    buf[off + 1] := v / 0x100;
    return 2;
  }

  method PutU32(buf: array<byte>, off: nat, v: int) returns (n: nat)
    requires off + 4 <= buf.Length && 0 <= v < 0x1_0000_0000
    modifies buf
    ensures n == 4 && Fits(U32, v) && Stored(buf, off, PackOne(U32, v))
  {
    BytesOfFour(v);
    buf[off] := v % 0x100;
    buf[off + 1] := v / 0x100 % 0x100;
    buf[off + 2] := v / 0x1_0000 % 0x100;
    buf[off + 3] := v / 0x100_0000 % 0x100;
    return 4;
  }

  /** A signed value is stored by its two's complement. */
  method PutI32(buf: array<byte>, off: nat, v: int) returns (n: nat)
    requires off + 4 <= buf.Length && -0x8000_0000 <= v < 0x8000_0000
    modifies buf
    ensures n == 4 && Fits(I32, v) && Stored(buf, off, PackOne(I32, v))
  {
    SignedSpan(v);
    n := PutU32(buf, off, if v < 0 then v + 0x1_0000_0000 else v);
  }

  method HdrWrite(buf: array<byte>, msgType: byte, flags: byte, eui: array<byte>, seqNo: int) returns (n: nat)
    requires buf.Length >= Codec.HDR_LEN && eui.Length == Codec.EUI_LEN && eui != buf
    requires 0 <= seqNo < 0x1_0000_0000
    modifies buf
    ensures n == Codec.HDR_LEN
    ensures var h := Codec.PackHeader(Codec.Header(msgType, eui[..], seqNo, flags));
            h.Ok? && |h.value| == n && Stored(buf, 0, h.value)
  {
    buf[0] := 0x53;
    buf[1] := 0x01;
    buf[2] := msgType;
    buf[3] := flags;
    for i := 0 to Codec.EUI_LEN
      invariant buf[..4] == [0x53, 0x01, msgType, flags]
      invariant buf[4..4 + i] == eui[..i]
      invariant buf[Codec.HDR_LEN..] == old(buf[Codec.HDR_LEN..])
    {
      buf[4 + i] := eui[i];
    }
    ghost var front := buf[..12];
    assert front == [0x53, 0x01, msgType, flags] + eui[..];
    var m := PutU32(buf, 12, seqNo);
    HeaderBytes(msgType, flags, eui[..], seqNo);
    assert buf[..16] == front + buf[12..16];
    assert buf[0..16] == buf[..16];
    return 16;
  }

  lemma Spans()
    ensures Span(1) == 0x100 && Span(2) == 0x1_0000 && Span(4) == 0x1_0000_0000
  {
    assert Span(3) == 0x100_0000;
  }

  lemma BytesOfTwo(v: nat)
    requires v < 0x10000
    ensures Fits(U16, v) && PackOne(U16, v) == [v % 0x100, v / 0x100]
  {
    Spans();
    assert Bytes(v / 0x100, 1) == [v / 0x100];
  }

  lemma BytesOfFour(v: nat)
    requires v < 0x1_0000_0000
    ensures Fits(U32, v)
    ensures PackOne(U32, v) == [v % 0x100, v / 0x100 % 0x100, v / 0x1_0000 % 0x100, v / 0x100_0000 % 0x100]
  {
    Spans();
    var a, b, c := v / 0x100, v / 0x1_0000, v / 0x100_0000;
    assert a / 0x100 == b && b / 0x100 == c;
    assert Bytes(c, 1) == [c % 0x100];
    assert Bytes(b, 2) == [b % 0x100] + Bytes(c, 1);
    assert Bytes(a, 3) == [a % 0x100] + Bytes(b, 2);
  }

  lemma SignedSpan(v: int)
    requires -0x8000_0000 <= v < 0x8000_0000
    ensures Fits(I32, v) && var u := if v < 0 then v + 0x1_0000_0000 else v;
            Fits(U32, u) && PackOne(I32, v) == PackOne(U32, u)
  {
    Spans();
  }

  lemma HeaderBytes(msgType: byte, flags: byte, eui: seq<byte>, seqNo: int)
    requires |eui| == Codec.EUI_LEN && Fits(U32, seqNo)
    ensures var h := Codec.PackHeader(Codec.Header(msgType, eui, seqNo, flags));
            h.Ok? && h.value == [0x53, 0x01, msgType, flags] + eui + PackOne(U32, seqNo)
  {
    PrefixBytes(msgType, flags);
    SeqBytes(seqNo);
    hide Codec.TryPack, PackOne;
    Sequences.Assoc([0x53, 0x01, msgType, flags], eui, PackOne(U32, seqNo));
  }

  lemma PrefixBytes(msgType: byte, flags: byte)
    ensures Codec.TryPack(Codec.PREFIX, [Codec.MAGIC, Codec.VERSION, msgType, flags])
            == Ok([0x53, 0x01, msgType, flags])
  {
    var vs: seq<byte> := [0x53, 0x01, msgType, flags];
    PackBytes(vs);
    hide Pack;
    assert Codec.PREFIX == seq(|vs|, _ => U8);
    assert vs == [Codec.MAGIC, Codec.VERSION, msgType, flags];
  }

  lemma SeqBytes(seqNo: int)
    requires Fits(U32, seqNo)
    ensures Codec.TryPack([U32], [seqNo]) == Ok(PackOne(U32, seqNo))
  {
    hide PackOne;
    assert Pack([], []) == [];
    Sequences.Empty(PackOne(U32, seqNo));
  }

  lemma {:induction false} PackBytes(vs: seq<byte>)
    ensures var fmt := seq(|vs|, _ => U8); AllFit(fmt, vs) && Pack(fmt, vs) == vs
    decreases |vs|
  {
    Spans();
    var fmt := seq(|vs|, _ => U8);
    if vs != [] {
      PackBytes(vs[1..]);
      assert fmt[1..] == seq(|vs[1..]|, _ => U8);
      assert PackOne(U8, vs[0]) == [vs[0]];
      assert [vs[0]] + vs[1..] == vs;
    }
  }
}

/** Consistent Overhead Byte Stuffing (Cheshire and Baker), as in swarm_proto.py:
    the two loops, the block structure they produce, and what the format promises. */
module Cobs {
  import opened Wrappers
  import opened Bits
  import Sequences

  /** The most data bytes one block can hold. */
  const BLOCK: nat := 254

  /** Length of the leading run of nonzero bytes, counted up to one full block. */
  function Run(data: seq<byte>, limit: nat): (k: nat)
    ensures k <= |data| && k <= limit
    ensures forall i :: 0 <= i < k ==> data[i] != 0
    ensures k < limit && k < |data| ==> data[k] == 0
  {
    if limit == 0 || data == [] || data[0] == 0 then 0 else 1 + Run(data[1..], limit - 1)
  }

  /** The encoding, block by block: a full block stands for its bytes alone, any other
      block for its bytes and the zero after it. */
  function Encode(data: seq<byte>): (r: seq<byte>)
    ensures r != []
  {
    var k := Run(data, BLOCK);
    if k == BLOCK then [255] + data[..k] + Encode(data[k..])
    else if k == |data| then [k + 1] + data
    else [k + 1] + data[..k] + Encode(data[k + 1..])
  }

  function Decode(data: seq<byte>): Result<seq<byte>> {
    if data == [] then Ok([])
    else
      var code := data[0];
      if code == 0 || code > |data| then Err
      else Prepend(data[1..code] + Gap(code, data[code..]), Decode(data[code..]))
  }

  /** The zero that a block stands for, unless the block is full or the last one. */
  function Gap(code: byte, rest: seq<byte>): seq<byte> {
    if code < 255 && rest != [] then [0] else []
  }

  function Prepend(head: seq<byte>, tail: Result<seq<byte>>): Result<seq<byte>> {
    match tail
    case Ok(t) => Ok(head + t)
    case Err => Err
  }

  lemma PrependTwice(a: seq<byte>, b: seq<byte>, r: Result<seq<byte>>)
    ensures Prepend(a, Prepend(b, r)) == Prepend(a + b, r)
  {
    if r.Ok? { Sequences.Assoc(a, b, r.value); }
  }

  // ---------------------------------------------------------------- the encoder's loop

  predicate Nonzero(block: seq<byte>) {
    forall i :: 0 <= i < |block| ==> block[i] != 0
  }

  lemma RunIs(data: seq<byte>, k: nat)
    requires k <= |data| && k <= BLOCK && Nonzero(data[..k])
    requires k == BLOCK || k == |data| || data[k] == 0
    ensures Run(data, BLOCK) == k
  {
    var r := Run(data, BLOCK);
    assert forall i :: 0 <= i < k ==> data[i] == data[..k][i];
  }

  lemma FullBlock(block: seq<byte>, rest: seq<byte>)
    requires Nonzero(block) && |block| == BLOCK
    ensures Encode(block + rest) == [255] + block + Encode(rest)
  {
    Sequences.Parts(block, rest);
    RunIs(block + rest, BLOCK);
  }

  lemma ZeroBlock(block: seq<byte>, rest: seq<byte>)
    requires Nonzero(block) && |block| < BLOCK
    ensures Encode(block + [0] + rest) == [|block| + 1] + block + Encode(rest)
  {
    Sequences.PartsAround(block, 0, rest);
    RunIs(block + [0] + rest, |block|);
  }

  lemma LastBlock(block: seq<byte>)
    requires Nonzero(block) && |block| < BLOCK
    ensures Encode(block) == [|block| + 1] + block
  {
    assert block[..|block|] == block;
    RunIs(block, |block|);
  }

  /** Part `done` of the output is final; the open block and the input from `i` on are
      still to be encoded. */
  predicate Progress(data: seq<byte>, i: nat, done: seq<byte>, block: seq<byte>)
    requires i <= |data|
  {
    Encode(data) == done + Encode(block + data[i..])
  }

  lemma ProgressStart(data: seq<byte>)
    ensures Progress(data, 0, [], [])
  {
    Sequences.Empty(data);
    Sequences.Empty(Encode(data));
  }

  lemma ProgressByte(data: seq<byte>, i: nat, done: seq<byte>, block: seq<byte>)
    requires i < |data| && Progress(data, i, done, block)
    ensures Progress(data, i + 1, done, block + [data[i]])
  {
    Sequences.RejoinAt(data, i);
    Sequences.Assoc(block, [data[i]], data[i + 1..]);
  }

  lemma ProgressZero(data: seq<byte>, i: nat, done: seq<byte>, block: seq<byte>)
    requires i < |data| && data[i] == 0 && Progress(data, i, done, block)
    requires Nonzero(block) && |block| < BLOCK
    ensures Progress(data, i + 1, done + ([|block| + 1] + block), [])
  {
    var rest := data[i + 1..];
    ProgressByte(data, i, done, block);
    ZeroBlock(block, rest);
    hide Encode;
    Sequences.Assoc(done, [|block| + 1] + block, Encode(rest));
    Sequences.Empty(rest);
  }

  lemma ProgressFull(data: seq<byte>, i: nat, done: seq<byte>, block: seq<byte>)
    requires i <= |data| && Progress(data, i, done, block)
    requires Nonzero(block) && |block| == BLOCK
    ensures Progress(data, i, done + ([255] + block), [])
  {
    FullBlock(block, data[i..]);
    hide Encode;
    Sequences.Assoc(done, [255] + block, Encode(data[i..]));
    Sequences.Empty(data[i..]);
  }

  lemma ProgressEnd(data: seq<byte>, done: seq<byte>, block: seq<byte>)
    requires Progress(data, |data|, done, block)
    requires Nonzero(block) && |block| < BLOCK
    ensures Encode(data) == done + ([|block| + 1] + block)
  {
    assert data[|data|..] == [];
    Sequences.Empty(block);
    LastBlock(block);
  }

  method CobsEncode(data: seq<byte>) returns (out: seq<byte>)
    ensures out == Encode(data)
  {
    hide Encode, Progress;
    var codeIdx := 0;
    out := [0];
    var code: byte := 1;
    ghost var done, block: seq<byte> := [], [];
    ProgressStart(data);
    for i := 0 to |data|
      invariant out == done + [0] + block && codeIdx == |done|
      invariant Nonzero(block) && |block| + 1 == code && code < 255
      invariant Progress(data, i, done, block)
    {
      if data[i] == 0 {
        ProgressZero(data, i, done, block);
        Sequences.SetAt(done, 0, block, code);
        out := out[codeIdx := code];
        done, block := out, [];
        codeIdx := |out|;
        out := out + [0];
        code := 1;
        Sequences.Empty(out);
      } else {
        ProgressByte(data, i, done, block);
        Sequences.Assoc(done + [0], block, [data[i]]);
        out := out + [data[i]];
        block := block + [data[i]];
        code := code + 1;
        if code == 0xFF {
          ProgressFull(data, i + 1, done, block);
          Sequences.SetAt(done, 0, block, code);
          out := out[codeIdx := code];
          done, block := out, [];
          codeIdx := |out|;
          out := out + [0];
          code := 1;
          Sequences.Empty(out);
        }
      }
    }
    ProgressEnd(data, done, block);
    Sequences.SetAt(done, 0, block, code);
    out := out[codeIdx := code];
  }

  // ---------------------------------------------------------------- the decoder's loop

  /** `out` is the decoding of the input before `i`; the rest is still to be decoded. */
  predicate Decoding(data: seq<byte>, i: nat, out: seq<byte>)
    requires i <= |data|
  {
    Decode(data) == Prepend(out, Decode(data[i..]))
  }

  lemma DecodingStart(data: seq<byte>)
    ensures Decoding(data, 0, [])
  {
    assert data[0..] == data;
    if Decode(data).Ok? { Sequences.Empty(Decode(data).value); }
  }

  /** One block: its bytes and the zero it stands for. */
  lemma DecodingBlock(data: seq<byte>, i: nat, out: seq<byte>)
    requires i < |data| && data[i] != 0 && i + data[i] <= |data| && Decoding(data, i, out)
    ensures var j := i + data[i]; Decoding(data, j, out + data[i + 1..j] + Gap(data[i], data[j..]))
  {
    var j := i + data[i];
    assert data[i..][1..data[i]] == data[i + 1..j] && data[i..][data[i]..] == data[j..];
    hide Gap;
    PrependTwice(out, data[i + 1..j] + Gap(data[i], data[j..]), Decode(data[j..]));
    Sequences.Assoc(out, data[i + 1..j], Gap(data[i], data[j..]));
  }

  lemma DecodingFails(data: seq<byte>, i: nat, out: seq<byte>)
    requires i < |data| && (data[i] == 0 || i + data[i] > |data|) && Decoding(data, i, out)
    ensures Decode(data) == Err
  {
  }

  lemma DecodingEnd(data: seq<byte>, out: seq<byte>)
    requires Decoding(data, |data|, out)
    ensures Decode(data) == Ok(out)
  {
    assert data[|data|..] == [];
    Sequences.Empty(out);
  }

  method CobsDecode(data: seq<byte>) returns (r: Result<seq<byte>>)
    ensures r == Decode(data)
  {
    hide Decode, Decoding;
    var out: seq<byte> := [];
    var i := 0;
    DecodingStart(data);
    while i < |data|
      invariant 0 <= i <= |data|
      invariant Decoding(data, i, out)
    {
      var code := data[i];
      if code == 0 {
        DecodingFails(data, i, out);
        return Err;
      }
      ghost var start, before := i, out;
      i := i + 1;
      for k := 1 to code
        invariant i == start + k <= |data|
        invariant out == before + data[start + 1..i]
      {
        if i >= |data| {
          DecodingFails(data, start, before);
          return Err;
        }
        out := out + [data[i]];
        Sequences.Snoc(data, start + 1, i);
        Sequences.Assoc(before, data[start + 1..i], [data[i]]);
        i := i + 1;
      }
      DecodingBlock(data, start, before);
      Sequences.Empty(out);
      if code < 0xFF && i < |data| {
        out := out + [0];
      }
    }
    DecodingEnd(data, out);
    return Ok(out);
  }

  // ---------------------------------------------------------------- what the format promises

  lemma DecodeBlock(code: byte, block: seq<byte>, rest: seq<byte>)
    requires code == |block| + 1
    ensures Decode([code] + block + rest) == Prepend(block + Gap(code, rest), Decode(rest))
  {
    var d := [code] + block + rest;
    assert d[1..code] == block && d[code..] == rest;
  }

  lemma {:induction false} RoundTrip(data: seq<byte>)
    ensures Decode(Encode(data)) == Ok(data)
    decreases |data|
  {
    var k := Run(data, BLOCK);
    if k == BLOCK {
      RoundTrip(data[k..]);
      hide Decode;
      DecodeBlock(255, data[..k], Encode(data[k..]));
      Sequences.Empty(data[..k]);
      Sequences.Rejoin(data, k);
    } else if k == |data| {
      hide Encode;
      DecodeBlock(k + 1, data, []);
      Sequences.Empty([k + 1] + data);
      Sequences.Empty(data);
      assert Encode(data) == [k + 1] + data by { assert data[..k] == data; LastBlock(data); }
    } else {
      RoundTrip(data[k + 1..]);
      hide Decode;
      DecodeBlock(k + 1, data[..k], Encode(data[k + 1..]));
      Sequences.RejoinAt(data, k);
      Sequences.Rejoin(data, k + 1);
    }
  }

  lemma {:induction false} ZeroFree(data: seq<byte>)
    ensures 0 !in Encode(data)
    decreases |data|
  {
    var k := Run(data, BLOCK);
    if k == BLOCK {
      ZeroFree(data[k..]);
      Sequences.Absent(0, [255] + data[..k], Encode(data[k..]));
    } else if k < |data| {
      ZeroFree(data[k + 1..]);
      Sequences.Absent(0, [k + 1] + data[..k], Encode(data[k + 1..]));
    }
  }

  /** One code byte, and one more for every 254 bytes of data, is all the overhead there is. */
  lemma {:induction false} Overhead(data: seq<byte>)
    ensures |data| + 1 <= |Encode(data)| <= |data| + 1 + |data| / 254
    decreases |data|
  {
    hide Run;
    var k := Run(data, BLOCK);
    RunLength(data);
    if k == BLOCK {
      Overhead(data[k..]);
    } else if k < |data| {
      Overhead(data[k + 1..]);
    }
  }

  lemma RunLength(data: seq<byte>)
    ensures Run(data, BLOCK) <= BLOCK && Run(data, BLOCK) <= |data|
  {
  }

  /** No input, however it came about, is longer than the encoding of what it decodes to could be. */
  lemma {:induction false} DecodeOverhead(data: seq<byte>)
    requires Decode(data).Ok?
    ensures var n := |Decode(data).value|; |data| <= n + 1 + n / 254
    decreases |data|
  {
    if data != [] {
      var code := data[0];
      DecodeOverhead(data[code..]);
      assert |data[1..code]| == code - 1 && |data[code..]| == |data| - code;
    }
  }
}

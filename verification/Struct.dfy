/** Little-endian fixed-width records, as Python's `struct` packs and unpacks them. */
module Struct {
  import opened Wrappers
  import opened Bits
  import Sequences

  datatype Code = U8 | I8 | U16 | I16 | U32 | I32

  function Width(c: Code): (n: nat)
    ensures 1 <= n <= 4
  {
    match c
    case U8 | I8 => 1
    case U16 | I16 => 2
    case U32 | I32 => 4
  }

  /** One more than the largest unsigned value of a width. */
  function Span(n: nat): (s: nat)
    ensures s > 0
  {
    if n == 0 then 1 else 256 * Span(n - 1)
  }

  predicate Signed(c: Code) {
    c.I8? || c.I16? || c.I32?
  }

  /** The values that `struct.pack` accepts for a code. */
  predicate Fits(c: Code, v: int) {
    var s := Span(Width(c));
    if Signed(c) then -(s / 2) <= v < s / 2 else 0 <= v < s
  }

  function Bytes(v: nat, n: nat): (r: seq<byte>)
    ensures |r| == n
    decreases n
  {
    if n == 0 then [] else [v % 256] + Bytes(v / 256, n - 1)
  }

  function Number(r: seq<byte>): nat {
    if r == [] then 0 else r[0] + 256 * Number(r[1..])
  }

  function PackOne(c: Code, v: int): (r: seq<byte>)
    requires Fits(c, v)
    ensures |r| == Width(c)
  {
    Bytes(if v < 0 then v + Span(Width(c)) else v, Width(c))
  }

  function UnpackOne(c: Code, r: seq<byte>): int
    requires |r| == Width(c)
  {
    var u, s := Number(r), Span(Width(c));
    if Signed(c) && u >= s / 2 then u - s else u
  }

  lemma {:induction false} NumberBytes(v: nat, n: nat)
    requires v < Span(n)
    ensures Number(Bytes(v, n)) == v
    decreases n
  {
    if n > 0 { NumberBytes(v / 256, n - 1); }
  }

  lemma SpanEven(n: nat)
    requires n > 0
    ensures Span(n) / 2 * 2 == Span(n)
  {
  }

  lemma UnpackPackOne(c: Code, v: int)
    requires Fits(c, v)
    ensures UnpackOne(c, PackOne(c, v)) == v
  {
    var s := Span(Width(c));
    SpanEven(Width(c));
    NumberBytes(if v < 0 then v + s else v, Width(c));
  }

  // ---------------------------------------------------------------- records

  type Format = seq<Code>

  predicate AllFit(fmt: Format, vs: seq<int>) {
    |fmt| == |vs| && forall k :: 0 <= k < |fmt| ==> Fits(fmt[k], vs[k])
  }

  function Size(fmt: Format): nat {
    if fmt == [] then 0 else Width(fmt[0]) + Size(fmt[1..])
  }

  function Pack(fmt: Format, vs: seq<int>): (r: seq<byte>)
    requires AllFit(fmt, vs)
    ensures |r| == Size(fmt)
    decreases |fmt|
  {
    if fmt == [] then [] else PackOne(fmt[0], vs[0]) + Pack(fmt[1..], vs[1..])
  }

  datatype Taken<+T> = Taken(value: T, rest: seq<byte>)

  /** Unpacks a record from the front of the data; an error when the data are too short. */
  function Take(fmt: Format, data: seq<byte>): (r: Result<Taken<seq<int>>>)
    ensures r.Ok? ==> |r.value.value| == |fmt|
    decreases |fmt|
  {
    if fmt == [] then Ok(Taken([], data))
    else
      var n := Width(fmt[0]);
      if |data| < n then Err
      else
        var later :- Take(fmt[1..], data[n..]);
        Ok(Taken([UnpackOne(fmt[0], data[..n])] + later.value, later.rest))
  }

  lemma {:induction false} TakePack(fmt: Format, vs: seq<int>, rest: seq<byte>)
    requires AllFit(fmt, vs)
    ensures Take(fmt, Pack(fmt, vs) + rest) == Ok(Taken(vs, rest))
    decreases |fmt|
  {
    if fmt == [] {
      Sequences.Empty(rest);
    } else {
      var first, later := PackOne(fmt[0], vs[0]), Pack(fmt[1..], vs[1..]);
      Sequences.Assoc(first, later, rest);
      Sequences.Parts(first, later + rest);
      UnpackPackOne(fmt[0], vs[0]);
      TakePack(fmt[1..], vs[1..], rest);
      assert [vs[0]] + vs[1..] == vs;
    }
  }

  /** Unpacking fails exactly on data shorter than the record. */
  lemma {:induction false} TakeFails(fmt: Format, data: seq<byte>)
    ensures Take(fmt, data).Err? <==> |data| < Size(fmt)
    decreases |fmt|
  {
    if fmt != [] && |data| >= Width(fmt[0]) {
      TakeFails(fmt[1..], data[Width(fmt[0])..]);
    }
  }

  // ---------------------------------------------------------------- raw bytes

  function Min(a: nat, b: nat): nat {
    if a < b then a else b
  }

  /** A Python slice from the front: as many bytes as there are, up to `n`. */
  function TakeUpTo(data: seq<byte>, n: nat): Taken<seq<byte>> {
    Taken(data[..Min(n, |data|)], data[Min(n, |data|)..])
  }

  lemma TakeUpToExact(a: seq<byte>, rest: seq<byte>)
    ensures TakeUpTo(a + rest, |a|) == Taken(a, rest)
  {
    Sequences.Parts(a, rest);
  }
}

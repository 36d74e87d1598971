/** Serial framing: COBS(payload || CRC) and a zero delimiter, and the stream reader
    that finds the frames again. */
module Framing {
  import opened Wrappers
  import opened Bits
  import Sequences
  import Crc
  import Cobs

  /** The CRC as two bytes, low byte first. */
  function Trailer(crc: Crc.Register): (t: seq<byte>)
    ensures |t| == 2
  {
    [crc % 256, crc / 256]
  }

  function Body(payload: seq<byte>): seq<byte> {
    payload + Trailer(Crc.CrcOf(payload))
  }

  function Frame(payload: seq<byte>): seq<byte> {
    Cobs.Encode(Body(payload)) + [0]
  }

  function Unwrap(decoded: seq<byte>): Result<seq<byte>> {
    if |decoded| < 2 then Err
    else
      var payload, trailer := decoded[..|decoded| - 2], decoded[|decoded| - 2..];
      if Trailer(Crc.CrcOf(payload)) != trailer then Err else Ok(payload)
  }

  function Deframe(frame: seq<byte>): Result<seq<byte>> {
    match Cobs.Decode(frame)
    case Ok(decoded) => Unwrap(decoded)
    case Err => Err
  }

  method FrameSerial(payload: seq<byte>) returns (frame: seq<byte>)
    ensures frame == Frame(payload)
  {
    var crc := Crc.Crc16(payload);
    var body := payload + [crc % 256, crc / 256];
    var coded := Cobs.CobsEncode(body);
    frame := coded + [0];
  }

  method DeframeSerial(frame: seq<byte>) returns (r: Result<seq<byte>>)
    ensures r == Deframe(frame)
  {
    var decoded := Cobs.CobsDecode(frame);
    if decoded.Err? || |decoded.value| < 2 {
      return Err;
    }
    var n := |decoded.value| - 2;
    var payload := decoded.value[..n];
    var received: int := decoded.value[n] as int + 256 * (decoded.value[n + 1] as int);
    var crc := Crc.Crc16(payload);
    if crc != received {
      return Err;
    }
    return Ok(payload);
  }

  // ---------------------------------------------------------------- one frame

  lemma FrameRoundTrip(payload: seq<byte>)
    ensures Frame(payload) == Cobs.Encode(Body(payload)) + [0]
    ensures 0 !in Cobs.Encode(Body(payload))
    ensures Deframe(Cobs.Encode(Body(payload))) == Ok(payload)
  {
    Cobs.ZeroFree(Body(payload));
    Cobs.RoundTrip(Body(payload));
    assert Body(payload)[..|payload|] == payload;
  }

  /** Only a body that ends in its own CRC is let through. */
  lemma DeframeChecks(frame: seq<byte>, payload: seq<byte>)
    ensures Deframe(frame) == Ok(payload) <==> Cobs.Decode(frame) == Ok(Body(payload))
  {
    assert Body(payload)[..|payload|] == payload;
    if Deframe(frame) == Ok(payload) {
      var d := Cobs.Decode(frame).value;
      assert d == d[..|d| - 2] + d[|d| - 2..];
    }
  }

  /** A payload damaged by one burst of at most sixteen bits, under the original CRC, is rejected. */
  lemma BurstRejected(sent: seq<byte>, damaged: seq<byte>, start: nat)
    requires |sent| == |damaged| && sent != damaged
    requires forall k :: 0 <= k < 8 * |sent| && !(start <= k < start + 16)
                         ==> Crc.BitsOf(sent)[k] == Crc.BitsOf(damaged)[k]
    ensures Deframe(Cobs.Encode(damaged + Trailer(Crc.CrcOf(sent)))) == Err
  {
    Crc.BurstDetected(sent, damaged, start);
    Cobs.RoundTrip(damaged + Trailer(Crc.CrcOf(sent)));
    assert (damaged + Trailer(Crc.CrcOf(sent)))[..|damaged|] == damaged;
  }

  // ---------------------------------------------------------------- the stream

  function FirstZero(buf: seq<byte>): (i: nat)
    requires 0 in buf
    ensures i < |buf| && buf[i] == 0 && 0 !in buf[..i]
  {
    if buf[0] == 0 then 0 else
      assert buf == [buf[0]] + buf[1..];
      var i := 1 + FirstZero(buf[1..]);
      assert buf[..i] == [buf[0]] + buf[1..][..i - 1];
      i
  }

  /** What a complete frame contributes to the output: its payload, or nothing. */
  function Deliver(frame: seq<byte>): seq<seq<byte>> {
    if frame != [] && Deframe(frame).Ok? then [Deframe(frame).value] else []
  }

  datatype Scanned = Scanned(payloads: seq<seq<byte>>, rest: seq<byte>)

  /** Everything a buffer yields, and the undelimited bytes left over. */
  function Scan(buf: seq<byte>): Scanned {
    if 0 !in buf then Scanned([], buf)
    else
      var i := FirstZero(buf);
      var later := Scan(buf[i + 1..]);
      Scanned(Deliver(buf[..i]) + later.payloads, later.rest)
  }

  class SerialReader {
    var buf: seq<byte>

    constructor ()
      ensures buf == []
    {
      buf := [];
    }

    method Feed(chunk: seq<byte>) returns (payloads: seq<seq<byte>>)
      modifies this
      ensures Scanned(payloads, buf) == Scan(old(buf) + chunk)
    {
      payloads := [];
      buf := buf + chunk;
      ghost var whole := buf;
      Sequences.Empty(Scan(whole).payloads);
      while 0 in buf
        invariant Scan(whole) == After(payloads, Scan(buf))
        decreases |buf|
      {
        ScanStep(payloads, buf);
        hide Scan;
        var idx := FirstZero(buf);
        var frame := buf[..idx];
        buf := buf[idx + 1..];
        Sequences.Empty(payloads);
        if frame == [] {
          continue;
        }
        var r := DeframeSerial(frame);
        if r.Ok? {
          payloads := payloads + [r.value];
        }
      }
      Sequences.Empty(payloads);
    }
  }

  /** Payloads already out, followed by what a scan yields. */
  function After(payloads: seq<seq<byte>>, s: Scanned): Scanned {
    Scanned(payloads + s.payloads, s.rest)
  }

  lemma ScanStep(payloads: seq<seq<byte>>, buf: seq<byte>)
    requires 0 in buf
    ensures var i := FirstZero(buf);
            After(payloads, Scan(buf)) == After(payloads + Deliver(buf[..i]), Scan(buf[i + 1..]))
  {
    hide Deliver;
    var i := FirstZero(buf);
    Sequences.Assoc(payloads, Deliver(buf[..i]), Scan(buf[i + 1..]).payloads);
  }

  lemma FirstZeroIs(buf: seq<byte>, i: nat)
    requires i < |buf| && buf[i] == 0 && 0 !in buf[..i]
    ensures 0 in buf && FirstZero(buf) == i
  {
    var j := FirstZero(buf);
    assert forall k :: 0 <= k < i ==> buf[k] == buf[..i][k];
    assert forall k :: 0 <= k < j ==> buf[k] == buf[..j][k];
  }

  /** One frame's worth of scanning, with anything after it. */
  lemma ScanFirst(a: seq<byte>, b: seq<byte>, i: nat)
    requires i < |a| && a[i] == 0 && 0 !in a[..i]
    ensures Scan(a + b) == After(Deliver(a[..i]), Scan(a[i + 1..] + b))
  {
    hide Deliver, FirstZero;
    Sequences.CutInFront(a, b, i);
    FirstZeroIs(a + b, i);
    ScanAt(a + b, i);
  }

  lemma ScanAt(buf: seq<byte>, i: nat)
    requires 0 in buf && i < |buf| && FirstZero(buf) == i
    ensures Scan(buf) == After(Deliver(buf[..i]), Scan(buf[i + 1..]))
  {
    hide Deliver;
  }

  /** Reading may stop anywhere: the left-over bytes carry everything needed to go on. */
  lemma {:induction false} ScanResume(a: seq<byte>, b: seq<byte>)
    ensures Scan(a + b) == After(Scan(a).payloads, Scan(Scan(a).rest + b))
    decreases |a|
  {
    hide Scan, Deliver;
    if 0 !in a {
      ScanOpen(a);
      Sequences.Empty(Scan(a + b).payloads);
    } else {
      var i := FirstZero(a);
      var head, later := Deliver(a[..i]), Scan(a[i + 1..]);
      ScanResume(a[i + 1..], b);
      ScanFirst(a, b, i);
      ScanFirst(a, [], i);
      Sequences.Empty(a);
      Sequences.Empty(a[i + 1..]);
      Sequences.Assoc(head, later.payloads, Scan(later.rest + b).payloads);
    }
  }

  lemma ScanOpen(a: seq<byte>)
    requires 0 !in a
    ensures Scan(a) == Scanned([], a)
  {
  }

  function Flatten(parts: seq<seq<byte>>): seq<byte> {
    if parts == [] then [] else parts[0] + Flatten(parts[1..])
  }

  /** The reader fed chunk after chunk, by the contract of its method. */
  function FeedAll(buf: seq<byte>, chunks: seq<seq<byte>>): Scanned
    decreases |chunks|
  {
    if chunks == [] then Scanned([], buf)
    else
      var first := Scan(buf + chunks[0]);
      After(first.payloads, FeedAll(first.rest, chunks[1..]))
  }

  /** How a stream is cut into chunks makes no difference. */
  lemma {:induction false} ChunkingIrrelevant(buf: seq<byte>, chunks: seq<seq<byte>>)
    requires 0 !in buf
    ensures FeedAll(buf, chunks) == Scan(buf + Flatten(chunks))
    decreases |chunks|
  {
    if chunks == [] {
      Sequences.Empty(buf);
    } else {
      hide Scan;
      var first := Scan(buf + chunks[0]);
      RestIsOpen(buf + chunks[0]);
      ChunkingIrrelevant(first.rest, chunks[1..]);
      ScanResume(buf + chunks[0], Flatten(chunks[1..]));
      Sequences.Assoc(buf, chunks[0], Flatten(chunks[1..]));
    }
  }

  lemma {:induction false} RestIsOpen(buf: seq<byte>)
    ensures 0 !in Scan(buf).rest
    decreases |buf|
  {
    if 0 in buf { RestIsOpen(buf[FirstZero(buf) + 1..]); }
  }

  lemma ScanOne(frame: seq<byte>, rest: seq<byte>)
    requires 0 !in frame
    ensures Scan(frame + [0] + rest) == After(Deliver(frame), Scan(rest))
  {
    Sequences.PartsAround(frame, 0, rest);
    FirstZeroIs(frame + [0] + rest, |frame|);
  }

  function Frames(payloads: seq<seq<byte>>): seq<byte> {
    if payloads == [] then [] else Frame(payloads[0]) + Frames(payloads[1..])
  }

  /** Frames sent one after another come out as the payloads that went in, in order,
      and whatever follows them is read as if they had not been there. */
  lemma {:induction false} FramesDelivered(payloads: seq<seq<byte>>, rest: seq<byte>)
    ensures Scan(Frames(payloads) + rest) == After(payloads, Scan(rest))
    decreases |payloads|
  {
    if payloads == [] {
      Sequences.Empty(rest);
      Sequences.Empty(Scan(rest).payloads);
    } else {
      FramesDelivered(payloads[1..], rest);
      assert Frames(payloads) == Frame(payloads[0]) + Frames(payloads[1..]);
      hide *;
      FrameDelivered(payloads[0], Frames(payloads[1..]) + rest);
      Sequences.Assoc(Frame(payloads[0]), Frames(payloads[1..]), rest);
      AfterAfter([payloads[0]], payloads[1..], Scan(rest));
      assert [payloads[0]] + payloads[1..] == payloads;
    }
  }

  lemma AfterAfter(a: seq<seq<byte>>, b: seq<seq<byte>>, s: Scanned)
    ensures After(a, After(b, s)) == After(a + b, s)
  {
    Sequences.Assoc(a, b, s.payloads);
  }

  lemma FrameDelivered(p: seq<byte>, rest: seq<byte>)
    ensures Scan(Frame(p) + rest) == After([p], Scan(rest))
  {
    hide Scan;
    FrameRoundTrip(p);
    ScanOne(Cobs.Encode(Body(p)), rest);
  }

  /** Whatever a frame's interior is overwritten with, its neighbours still arrive, and an
      interior without zeros costs or adds at most one payload. */
  lemma DamageIsContained(before: seq<seq<byte>>, junk: seq<byte>, after: seq<seq<byte>>)
    ensures Scan(Frames(before) + ((junk + [0]) + Frames(after)))
            == Scanned(before + (Scan(junk + [0]).payloads + after), [])
    ensures 0 !in junk ==> |Scan(junk + [0]).payloads| <= 1
  {
    FramesDelivered(before, (junk + [0]) + Frames(after));
    ScanResume(junk + [0], Frames(after));
    ClosedRest(junk);
    FramesDelivered(after, []);
    assert Scan([]) == Scanned([], []);
    Sequences.Empty(Frames(after));
    Sequences.Empty(after);
    if 0 !in junk {
      ScanOne(junk, []);
      Sequences.Empty(junk + [0]);
    }
  }

  lemma ClosedRest(junk: seq<byte>)
    ensures Scan(junk + [0]).rest == []
  {
    ScanResume(junk, [0]);
    RestIsOpen(junk);
    assert Scan([]) == Scanned([], []);
    hide Scan;
    ScanOne(Scan(junk).rest, []);
    Sequences.Empty(Scan(junk).rest + [0]);
  }
}

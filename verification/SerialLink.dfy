/** The firmware's half of the serial link (serial_link.c): the same framing in buffers
    of fixed size, and how it relates to the unbounded reader and writer. */
module SerialLink {
  import opened Wrappers
  import opened Bits
  import Sequences
  import Crc
  import Cobs
  import Codec
  import Framing

  const MAX_FRAME: nat := 256
  const RX_SIZE: nat := 2 * MAX_FRAME + 4
  const DECODED_SIZE: nat := MAX_FRAME + 2
  const FRAMED_SIZE: nat := MAX_FRAME + 8

  method SwarmCrc16(data: array<byte>, len: nat) returns (crc: Crc.Register)
    requires len <= data.Length
    ensures crc == Crc.CrcOf(data[..len])
  {
    crc := 0xFFFF;
    for i := 0 to len
      invariant crc == Crc.CrcOf(data[..i])
    {
      ghost var before := crc;
      crc := Crc.Mix(crc, Crc.Raise(data[i]));
      for b := 0 to 8
        invariant crc == Crc.ShiftN(Crc.Mix(before, Crc.Raise(data[i])), b)
      {
        Crc.ShiftNSnoc(Crc.Mix(before, Crc.Raise(data[i])), b);
        crc := if crc >= 0x8000 then Xor(2 * crc, Crc.POLY) % 0x10000 else 2 * crc;
      }
      assert data[..i + 1] == data[..i] + [data[i]];
      Crc.CrcFromSnoc(0xFFFF, data[..i], data[i]);
    }
  }

  // ---------------------------------------------------------------- decoding into a bounded buffer

  /** The decoding exists and fits. */
  predicate Fits(data: seq<byte>, cap: nat) {
    Cobs.Decode(data).Ok? && |Cobs.Decode(data).value| <= cap
  }

  lemma Overflows(data: seq<byte>, i: nat, out: seq<byte>, cap: nat)
    requires i <= |data| && Cobs.Decoding(data, i, out) && |out| > cap
    ensures !Fits(data, cap)
  {
    hide Cobs.Decode;
  }

  /** A block that runs past the end of the input, or past the capacity, dooms the decoding. */
  lemma BlockOverruns(data: seq<byte>, out: seq<byte>, i: nat, k: nat, cap: nat)
    requires i < |data| && 0 < k < data[i] && Cobs.Decoding(data, i, out)
    requires i + k >= |data| || |out| + k > cap
    ensures !Fits(data, cap)
  {
    hide Cobs.Decode, Cobs.Decoding;
    if i + data[i] > |data| {
      Cobs.DecodingFails(data, i, out);
    } else {
      var j := i + data[i];
      Cobs.DecodingBlock(data, i, out);
      Overflows(data, j, out + data[i + 1..j] + Cobs.Gap(data[i], data[j..]), cap);
    }
  }

  method CobsDecode(input: array<byte>, inLen: nat, out: array<byte>, outCap: nat) returns (n: int)
    requires inLen <= input.Length && outCap <= out.Length && input != out
    modifies out
    ensures n == -1 <==> !Fits(input[..inLen], outCap)
    ensures n != -1 ==> 0 <= n <= outCap && Cobs.Decode(input[..inLen]) == Ok(out[..n])
  {
    hide Cobs.Decode, Cobs.Decoding;
    var i, o := 0, 0;
    ghost var data := input[..inLen];
    assert out[..0] == [];
    Cobs.DecodingStart(data);
    while i < inLen
      invariant 0 <= i <= inLen && 0 <= o <= outCap
      invariant Cobs.Decoding(data, i, out[..o])
    {
      var code := input[i];
      ghost var start, before := i, out[..o];
      i := i + 1;
      if code == 0 {
        Cobs.DecodingFails(data, start, before);
        return -1;
      }
      for k := 1 to code
        invariant i == start + k <= inLen && o == |before| + k - 1 <= outCap
        invariant out[..o] == before + data[start + 1..i]
      {
        if i >= inLen || o >= outCap {
          BlockOverruns(data, before, start, k, outCap);
          return -1;
        }
        Append(out, o, input[i]);
        Sequences.Snoc(data, start + 1, i);
        Sequences.Assoc(before, data[start + 1..i], [data[i]]);
        o, i := o + 1, i + 1;
      }
      Cobs.DecodingBlock(data, start, before);
      Sequences.Empty(out[..o]);
      if code < 0xFF && i < inLen {
        if o >= outCap {
          Overflows(data, i, out[..o] + [0], outCap);
          return -1;
        }
        Append(out, o, 0);
        o := o + 1;
      }
    }
    Cobs.DecodingEnd(data, out[..o]);
    return o;
  }

  /** `buf[n] = v`, seen as an append to the bytes in use. */
  method Append(buf: array<byte>, n: nat, v: byte)
    requires n < buf.Length
    modifies buf
    ensures buf[..n + 1] == old(buf[..n]) + [v]
  {
    buf[n] := v;
  }

  // ---------------------------------------------------------------- receiving

  datatype Rx = Rx(pending: seq<byte>, delivered: seq<seq<byte>>)

  /** What the firmware hands on for one frame: the payload, if it is sound and its size acceptable. */
  function Accept(frame: seq<byte>): seq<seq<byte>> {
    match Framing.Deframe(frame)
    case Ok(p) => if Codec.HDR_LEN <= |p| <= MAX_FRAME then [p] else []
    case Err => []
  }

  /** The effect of one received byte. */
  function Isr(rx: Rx, c: byte): Rx {
    if c == 0 then Rx([], if rx.pending != [] then rx.delivered + Accept(rx.pending) else rx.delivered)
    else if |rx.pending| < RX_SIZE then Rx(rx.pending + [c], rx.delivered)
    else Rx([], rx.delivered)
  }

  /** The CRC comparison on the decoded bytes. */
  method CrcMatches(decoded: array<byte>, dlen: nat) returns (ok: bool)
    requires 2 <= dlen <= decoded.Length
    ensures Framing.Unwrap(decoded[..dlen]) == if ok then Ok(decoded[..dlen - 2]) else Err
  {
    hide Crc.CrcOf;
    ghost var d := decoded[..dlen];
    var payloadLen := dlen - 2;
    var received := decoded[payloadLen] as int + 256 * (decoded[payloadLen + 1] as int);
    var crc := SwarmCrc16(decoded, payloadLen);
    assert d[..payloadLen] == decoded[..payloadLen];
    assert d[payloadLen..] == [decoded[payloadLen], decoded[payloadLen + 1]];
    ok := crc == received;
  }

  /** Returns what is handed to the mesh or the node: one payload or nothing. */
  method DispatchFrame(frame: array<byte>, flen: nat) returns (handed: seq<seq<byte>>)
    requires flen <= frame.Length
    ensures handed == Accept(frame[..flen])
  {
    var decoded := new byte[DECODED_SIZE](_ => 0);
    var dlen := CobsDecode(frame, flen, decoded, DECODED_SIZE);
    hide Cobs.Decode, Framing.Unwrap;
    if dlen < Codec.HDR_LEN + 2 {
      AcceptShort(frame[..flen]);
      return [];
    }
    var ok := CrcMatches(decoded, dlen);
    return if ok then [decoded[..dlen - 2]] else [];
  }

  class Receiver {
    const rxFrame: array<byte>
    var rxLen: nat
    var delivered: seq<seq<byte>>

    ghost predicate Valid()
      reads this
    {
      rxFrame.Length == RX_SIZE && rxLen <= RX_SIZE
    }

    ghost function State(): Rx
      reads this, rxFrame
      requires Valid()
    {
      Rx(rxFrame[..rxLen], delivered)
    }

    constructor ()
      ensures Valid() && State() == Rx([], []) && fresh(rxFrame)
    {
      rxFrame := new byte[RX_SIZE](_ => 0);
      rxLen := 0;
      delivered := [];
    }

    method Receive(c: byte)
      requires Valid()
      modifies this, rxFrame
      ensures Valid() && State() == Isr(old(State()), c)
    {
      if c == 0x00 {
        if rxLen > 0 {
          var handed := DispatchFrame(rxFrame, rxLen);
          delivered := delivered + handed;
        }
        rxLen := 0;
      } else if rxLen < RX_SIZE {
        Append(rxFrame, rxLen, c);
        rxLen := rxLen + 1;
      } else {
        rxLen := 0;
      }
    }
  }

  lemma AcceptShort(frame: seq<byte>)
    requires !Fits(frame, DECODED_SIZE) || |Cobs.Decode(frame).value| < Codec.HDR_LEN + 2
    ensures Accept(frame) == []
  {
  }

  // ---------------------------------------------------------------- the firmware against the host's reader

  function IsrAll(rx: Rx, bytes: seq<byte>): Rx
    decreases |bytes|
  {
    if bytes == [] then rx else IsrAll(Isr(rx, bytes[0]), bytes[1..])
  }

  /** The payloads of a size the firmware takes. */
  function Acceptable(payloads: seq<seq<byte>>): seq<seq<byte>> {
    if payloads == [] then []
    else (if Codec.HDR_LEN <= |payloads[0]| <= MAX_FRAME then [payloads[0]] else []) + Acceptable(payloads[1..])
  }

  lemma AcceptDelivered(frame: seq<byte>, later: seq<seq<byte>>)
    ensures Acceptable(Framing.Deliver(frame) + later)
            == (if frame != [] then Accept(frame) else []) + Acceptable(later)
  {
    hide Framing.Deframe;
    var d := Framing.Deliver(frame);
    if d == [] {
      Sequences.Empty(later);
      Sequences.Empty(Acceptable(later));
    } else {
      assert (d + later)[0] == d[0] && (d + later)[1..] == later;
    }
  }

  lemma {:induction false} Accumulates(rx: Rx, bytes: seq<byte>, rest: seq<byte>)
    requires 0 !in bytes && |rx.pending| + |bytes| <= RX_SIZE
    ensures IsrAll(rx, bytes + rest) == IsrAll(Rx(rx.pending + bytes, rx.delivered), rest)
    decreases |bytes|
  {
    if bytes == [] {
      Sequences.Empty(rest);
      Sequences.Empty(rx.pending);
    } else {
      var next := Rx(rx.pending + [bytes[0]], rx.delivered);
      assert (bytes + rest)[0] == bytes[0] && (bytes + rest)[1..] == bytes[1..] + rest;
      Accumulates(next, bytes[1..], rest);
      Sequences.Assoc(rx.pending, [bytes[0]], bytes[1..]);
      assert [bytes[0]] + bytes[1..] == bytes;
    }
  }

  /** What is left of an undelimited piece in the firmware's buffer: the 517th byte empties it. */
  function Tail(piece: seq<byte>): (r: seq<byte>)
    ensures |r| <= RX_SIZE && (|piece| <= RX_SIZE ==> r == piece)
    decreases |piece|
  {
    if |piece| <= RX_SIZE then piece else Tail(piece[RX_SIZE + 1..])
  }

  /** No piece too long for the buffer leaves a tail that the firmware would take for a frame. */
  predicate TailsRefused(bytes: seq<byte>)
    decreases |bytes|
  {
    0 in bytes ==>
      var i := Framing.FirstZero(bytes);
      (i > RX_SIZE ==> Accept(Tail(bytes[..i])) == []) && TailsRefused(bytes[i + 1..])
  }

  lemma {:induction false} Overflows517(delivered: seq<seq<byte>>, piece: seq<byte>, rest: seq<byte>)
    requires 0 !in piece
    ensures IsrAll(Rx([], delivered), piece + rest) == IsrAll(Rx(Tail(piece), delivered), rest)
    decreases |piece|
  {
    if |piece| <= RX_SIZE {
      Accumulates(Rx([], delivered), piece, rest);
      Sequences.Empty(piece);
    } else {
      var front, c, back := piece[..RX_SIZE], piece[RX_SIZE], piece[RX_SIZE + 1..];
      Accumulates(Rx([], delivered), front, [c] + (back + rest));
      Sequences.Empty(front);
      Sequences.Rejoined(front, c, back, rest);
      Sequences.RejoinAt(piece, RX_SIZE);
      Sequences.Rejoin(piece, RX_SIZE);
      OneMore(Rx(front, delivered), c, back + rest);
      Overflows517(delivered, back, rest);
    }
  }

  lemma OneMore(rx: Rx, c: byte, rest: seq<byte>)
    ensures IsrAll(rx, [c] + rest) == IsrAll(Isr(rx, c), rest)
  {
    assert ([c] + rest)[1..] == rest;
  }

  /** What the firmware hands on over a stream, piece by piece. */
  function Handed(bytes: seq<byte>): seq<seq<byte>>
    decreases |bytes|
  {
    if 0 !in bytes then []
    else
      var i := Framing.FirstZero(bytes);
      Accept(Tail(bytes[..i])) + Handed(bytes[i + 1..])
  }

  /** What the host hands on that the firmware could take, piece by piece. */
  function Hosted(bytes: seq<byte>): seq<seq<byte>>
    decreases |bytes|
  {
    if 0 !in bytes then []
    else
      var i := Framing.FirstZero(bytes);
      Accept(bytes[..i]) + Hosted(bytes[i + 1..])
  }

  lemma NothingInNothing()
    ensures Accept([]) == []
  {
  }

  /** A delimiter after the piece. */
  lemma Delimited(delivered: seq<seq<byte>>, piece: seq<byte>, rest: seq<byte>)
    requires 0 !in piece
    ensures IsrAll(Rx([], delivered), piece + ([0] + rest)) == IsrAll(Rx([], delivered + Accept(Tail(piece))), rest)
  {
    hide Accept, Tail;
    Overflows517(delivered, piece, [0] + rest);
    OneMore(Rx(Tail(piece), delivered), 0, rest);
    NothingInNothing();
    Sequences.Empty(delivered);
  }

  lemma {:induction false} FirmwareOnStream(delivered: seq<seq<byte>>, bytes: seq<byte>)
    ensures IsrAll(Rx([], delivered), bytes) == Rx(Tail(Framing.Scan(bytes).rest), delivered + Handed(bytes))
    decreases |bytes|
  {
    hide Accept, Tail, Isr, Framing.Deliver;
    if 0 !in bytes {
      Framing.ScanOpen(bytes);
      Overflows517(delivered, bytes, []);
      Sequences.Empty(bytes);
      Sequences.Empty(delivered);
    } else {
      var i := Framing.FirstZero(bytes);
      var piece, rest := bytes[..i], bytes[i + 1..];
      FirmwareOnStream(delivered + Accept(Tail(piece)), rest);
      Sequences.RejoinAt(bytes, i);
      Sequences.Rejoin(bytes, i);
      Delimited(delivered, piece, rest);
      Framing.ScanFirst(bytes, [], i);
      Sequences.Empty(bytes);
      Sequences.Empty(rest);
      Sequences.Assoc(delivered, Accept(Tail(piece)), Handed(rest));
    }
  }

  lemma {:induction false} HostOnStream(bytes: seq<byte>)
    ensures Acceptable(Framing.Scan(bytes).payloads) == Hosted(bytes)
    decreases |bytes|
  {
    hide Accept, Framing.Deliver, Acceptable;
    NothingAcceptable();
    if 0 !in bytes {
      Framing.ScanOpen(bytes);
    } else {
      var i := Framing.FirstZero(bytes);
      var piece, rest := bytes[..i], bytes[i + 1..];
      HostOnStream(rest);
      Framing.ScanFirst(bytes, [], i);
      Sequences.Empty(bytes);
      Sequences.Empty(rest);
      AcceptDelivered(piece, Framing.Scan(rest).payloads);
      NothingInNothing();
    }
  }

  lemma NothingAcceptable()
    ensures Acceptable([]) == []
  {
  }

  lemma AtMostOne(frame: seq<byte>)
    ensures |Accept(frame)| <= 1
  {
  }

  lemma Cancel<T>(a: seq<T>, b: seq<T>, c: seq<T>)
    ensures a + b == a + c <==> b == c
  {
    Sequences.Parts(a, b);
    Sequences.Parts(a, c);
  }

  /** The two lists are the same exactly when every overlong piece is refused. */
  lemma {:induction false} SameIff(bytes: seq<byte>)
    ensures Handed(bytes) == Hosted(bytes) <==> TailsRefused(bytes)
    ensures |Hosted(bytes)| <= |Handed(bytes)|
    decreases |bytes|
  {
    hide Accept, Tail, Framing.FirstZero;
    if 0 in bytes {
      var i := Framing.FirstZero(bytes);
      var piece, rest := bytes[..i], bytes[i + 1..];
      SameIff(rest);
      if i > RX_SIZE {
        LongRefused(piece);
        AtMostOne(Tail(piece));
        Longer(Accept(Tail(piece)), Handed(rest), Hosted(rest));
      } else {
        TailShort(piece);
        Cancel(Accept(piece), Handed(rest), Hosted(rest));
      }
    }
  }

  lemma Longer<T>(f: seq<T>, x: seq<T>, y: seq<T>)
    requires |y| <= |x|
    ensures f + x == [] + y <==> f == [] && x == y
  {
    Sequences.Empty(x);
    Sequences.Empty(y);
    if f == [] {
    } else {
      assert |f + x| > |y|;
    }
  }

  lemma TailShort(piece: seq<byte>)
    ensures |piece| <= RX_SIZE ==> Tail(piece) == piece
  {
  }

  /** On any stream the firmware delivers exactly the host reader's payloads of a size it takes if and
      only if no piece too long for its buffer leaves a tail it takes for a frame; what it holds back
      is the tail of what the host holds back. */
  lemma ReceiverAgreesIff(pending: seq<byte>, delivered: seq<seq<byte>>, bytes: seq<byte>)
    requires 0 !in pending && |pending| <= RX_SIZE
    ensures var s, rx := Framing.Scan(pending + bytes), IsrAll(Rx(pending, delivered), bytes);
            && rx.pending == Tail(s.rest)
            && (rx.delivered == delivered + Acceptable(s.payloads) <==> TailsRefused(pending + bytes))
  {
    hide Tail, TailsRefused, IsrAll, Framing.Scan, Acceptable, Handed, Hosted;
    Accumulates(Rx([], delivered), pending, bytes);
    Sequences.Empty(pending);
    FirmwareOnStream(delivered, pending + bytes);
    HostOnStream(pending + bytes);
    SameIff(pending + bytes);
    Cancel(delivered, Handed(pending + bytes), Hosted(pending + bytes));
  }

  /** The receive buffer never fills up: at most 516 bytes between delimiters. */
  predicate NoOverrun(pending: nat, bytes: seq<byte>)
    decreases |bytes|
  {
    bytes != [] ==>
      if bytes[0] == 0 then NoOverrun(0, bytes[1..])
      else pending < RX_SIZE && NoOverrun(pending + 1, bytes[1..])
  }

  /** Then no piece is too long. */
  lemma {:induction false} NoOverrunPieces(pending: seq<byte>, bytes: seq<byte>)
    requires 0 !in pending && |pending| <= RX_SIZE && NoOverrun(|pending|, bytes)
    ensures TailsRefused(pending + bytes) && |Framing.Scan(pending + bytes).rest| <= RX_SIZE
    decreases |bytes|
  {
    hide Accept, Tail, Framing.Deliver;
    if bytes == [] {
      Sequences.Empty(pending);
      Framing.ScanOpen(pending);
    } else {
      var c, rest := bytes[0], bytes[1..];
      Sequences.Assoc(pending, [c], rest);
      assert [c] + rest == bytes;
      if c == 0 {
        NoOverrunPieces([], rest);
        Sequences.Empty(rest);
        Sequences.PartsAround(pending, 0, rest);
        Framing.FirstZeroIs(pending + bytes, |pending|);
        Framing.ScanOne(pending, rest);
      } else {
        NoOverrunPieces(pending + [c], rest);
      }
    }
  }

  /** Without overruns the firmware delivers exactly the host reader's payloads, less those of
      a size it refuses, and is left with the same undelimited bytes. */
  lemma ReceiverRefinesReader(pending: seq<byte>, delivered: seq<seq<byte>>, bytes: seq<byte>)
    requires 0 !in pending && |pending| <= RX_SIZE && NoOverrun(|pending|, bytes)
    ensures var s := Framing.Scan(pending + bytes);
            IsrAll(Rx(pending, delivered), bytes) == Rx(s.rest, delivered + Acceptable(s.payloads))
  {
    hide Tail, TailsRefused, IsrAll, Framing.Scan, Acceptable, NoOverrun;
    NoOverrunPieces(pending, bytes);
    ReceiverAgreesIff(pending, delivered, bytes);
    TailShort(Framing.Scan(pending + bytes).rest);
  }

  /** The bound is needed. Behind 517 bytes of noise with no delimiter the firmware has just
      started afresh and takes the frame that follows; the host's reader, for which noise and
      frame are one, delivers nothing of an acceptable size. */
  lemma OverrunDiverges(noise: seq<byte>, last: byte, payload: seq<byte>)
    requires |noise| == RX_SIZE && 0 !in noise && last != 0
    requires Codec.HDR_LEN <= |payload| <= MAX_FRAME
    ensures IsrAll(Rx([], []), noise + ([last] + Framing.Frame(payload))) == Rx([], [payload])
    ensures Acceptable(Framing.Scan(noise + ([last] + Framing.Frame(payload))).payloads) == []
  {
    var coded := Cobs.Encode(Framing.Body(payload));
    Framing.FrameRoundTrip(payload);
    Cobs.Overhead(Framing.Body(payload));
    FirmwareTakes(noise, last, coded, payload);
    HostRefuses(noise + ([last] + coded));
    Sequences.Assoc([last], coded, [0]);
    Sequences.Assoc(noise, [last] + coded, [0]);
  }

  lemma FirmwareTakes(noise: seq<byte>, last: byte, coded: seq<byte>, payload: seq<byte>)
    requires |noise| == RX_SIZE && 0 !in noise && last != 0
    requires coded != [] && 0 !in coded && |coded| <= RX_SIZE
    requires Framing.Deframe(coded) == Ok(payload) && Codec.HDR_LEN <= |payload| <= MAX_FRAME
    ensures IsrAll(Rx([], []), noise + ([last] + (coded + [0]))) == Rx([], [payload])
  {
    Accumulates(Rx([], []), noise, [last] + (coded + [0]));
    Sequences.Empty(noise);
    var tail := [last] + (coded + [0]);
    assert tail[0] == last && tail[1..] == coded + [0];
    assert IsrAll(Rx(noise, []), tail) == IsrAll(Rx([], []), coded + [0]);
    Accumulates(Rx([], []), coded, [0]);
    Sequences.Empty(coded);
    Sequences.Empty([payload]);
    hide Framing.Deframe;
    assert Isr(Rx(coded, []), 0) == Rx([], [payload]);
    assert IsrAll(Rx(coded, []), [0]) == IsrAll(Isr(Rx(coded, []), 0), []);
  }

  lemma LongRefused(frame: seq<byte>)
    requires |frame| > RX_SIZE
    ensures Accept(frame) == []
  {
    hide Cobs.Decode;
    if Cobs.Decode(frame).Ok? { Cobs.DecodeOverhead(frame); }
  }

  lemma HostRefuses(frame: seq<byte>)
    requires 0 !in frame && |frame| > RX_SIZE
    ensures Acceptable(Framing.Scan(frame + [0]).payloads) == []
  {
    assert Framing.Scan([]) == Framing.Scanned([], []);
    assert Acceptable([]) == [];
    hide *;
    Framing.ScanOne(frame, []);
    Sequences.Empty(frame + [0]);
    AcceptDelivered(frame, []);
    LongRefused(frame);
    assert Framing.After(Framing.Deliver(frame), Framing.Scanned([], [])).payloads == Framing.Deliver(frame) + [] by {
      AfterPayloads(Framing.Deliver(frame));
    }
  }

  lemma AfterPayloads(ps: seq<seq<byte>>)
    ensures Framing.After(ps, Framing.Scanned([], [])).payloads == ps + []
  {
  }

  // ---------------------------------------------------------------- sending

  /** `body = payload || crc16_le`. */
  method MakeBody(payload: array<byte>, len: nat, body: array<byte>)
    requires len <= payload.Length && len + 2 <= body.Length && payload != body
    modifies body
    ensures body[..len + 2] == Framing.Body(payload[..len])
  {
    for k := 0 to len
      invariant body[..k] == payload[..k]
    {
      Append(body, k, payload[k]);
      Sequences.Snoc(payload[..], 0, k);
    }
    var crc := SwarmCrc16(payload, len);
    Append(body, len, crc % 256);
    Append(body, len + 1, crc / 256);
    Sequences.Assoc(payload[..len], [crc % 256], [crc / 256]);
  }

  /** Frames a payload into a buffer of 264 bytes; a payload that is too long is dropped. */
  method SerialLinkSend(payload: array<byte>, len: nat) returns (framed: array<byte>, n: nat)
    requires len <= payload.Length
    ensures fresh(framed) && framed.Length == FRAMED_SIZE
    ensures len > MAX_FRAME ==> n == 0
    ensures len <= MAX_FRAME ==> n <= 261 && framed[..n] == Framing.Frame(payload[..len])
  {
    var body := new byte[MAX_FRAME + 2](_ => 0);
    framed := new byte[FRAMED_SIZE](_ => 0);
    n := 0;
    if len > MAX_FRAME {
      return;
    }
    MakeBody(payload, len, body);
    var bodyLen := len + 2;
    n := EncodeInto(body, bodyLen, framed);
    Append(framed, n, 0);
    n := n + 1;
  }

  /** The encoder between two bytes: `n` bytes written, of which the last form an open block
      whose code byte is still a placeholder. */
  ghost predicate Encoding(written: seq<byte>, codeIdx: nat, code: int, data: seq<byte>, i: nat,
                           done: seq<byte>, block: seq<byte>)
  {
    && written == done + [0] + block && codeIdx == |done|
    && Cobs.Nonzero(block) && |block| + 1 == code && code < 255
    && i <= |data| && Cobs.Progress(data, i, done, block)
  }

  /** The encoding loop of the sender, in place in `framed`. */
  method EncodeInto(body: array<byte>, bodyLen: nat, framed: array<byte>) returns (n: nat)
    requires bodyLen <= body.Length && bodyLen <= MAX_FRAME + 2
    requires framed.Length == FRAMED_SIZE && framed != body
    modifies framed
    ensures n <= 260 && framed[..n] == Cobs.Encode(body[..bodyLen])
  {
    ghost var data := body[..bodyLen];
    Cobs.Overhead(data);
    hide *;
    var codeIdx, code := 0, 1;
    ghost var done, block: seq<byte> := [], [];
    EncodingStart(data);
    StartBuffer(framed);
    n := 1;
    for i := 0 to bodyLen
      invariant n <= framed.Length && Encoding(framed[..n], codeIdx, code, data, i, done, block)
    {
      RoomLeft(framed[..n], codeIdx, code, data, i, done, block);
      n, codeIdx, code, done, block := StuffByte(framed, n, codeIdx, code, body[i], data, i, done, block);
    }
    RoomLeft(framed[..n], codeIdx, code, data, bodyLen, done, block);
    LastCode(framed, n, codeIdx, code, data, done, block);
  }

  method StartBuffer(framed: array<byte>)
    requires framed.Length > 0
    modifies framed
    ensures framed[..1] == [0]
  {
    framed[0] := 0;
  }

  lemma EncodingStart(data: seq<byte>)
    ensures Encoding([0], 0, 1, data, 0, [], [])
  {
    Cobs.ProgressStart(data);
  }

  /** What is written so far and what is still to come never exceed the whole encoding. */
  lemma RoomLeft(written: seq<byte>, codeIdx: nat, code: int, data: seq<byte>, i: nat, done: seq<byte>,
                 block: seq<byte>)
    requires i <= |data| && Encoding(written, codeIdx, code, data, i, done, block)
    ensures |written| + (|data| - i) <= |Cobs.Encode(data)|
  {
    Cobs.Overhead(block + data[i..]);
  }

  /** The code byte of the last block completes the encoding. */
  method LastCode(framed: array<byte>, n: nat, codeIdx: nat, code: int,
                  ghost data: seq<byte>, ghost done: seq<byte>, ghost block: seq<byte>)
    requires n <= framed.Length && Encoding(framed[..n], codeIdx, code, data, |data|, done, block)
    modifies framed
    ensures framed[..n] == Cobs.Encode(data)
  {
    Cobs.ProgressEnd(data, done, block);
    SetCode(framed, n, codeIdx, code, done, block);
  }

  /** One turn of the loop: a zero closes the block, any other byte extends it. */
  method StuffByte(framed: array<byte>, n0: nat, codeIdx0: nat, code0: int, v: byte,
                   ghost data: seq<byte>, ghost i: nat, ghost done0: seq<byte>, ghost block0: seq<byte>)
    returns (n: nat, codeIdx: nat, code: int, ghost done: seq<byte>, ghost block: seq<byte>)
    requires n0 + 2 <= framed.Length && i < |data| && v == data[i]
    requires Encoding(framed[..n0], codeIdx0, code0, data, i, done0, block0)
    modifies framed
    ensures n <= framed.Length && Encoding(framed[..n], codeIdx, code, data, i + 1, done, block)
  {
    hide Cobs.Encode, Cobs.Progress;
    n, codeIdx, code, done, block := n0, codeIdx0, code0, done0, block0;
    if v == 0 {
      Cobs.ProgressZero(data, i, done, block);
      n := NextBlock(framed, n, codeIdx, code, done, block);
      done, block := done + ([code as byte] + block), [];
      codeIdx, code := n - 1, 1;
    } else {
      Cobs.ProgressByte(data, i, done, block);
      Sequences.Assoc(done + [0], block, [v]);
      Append(framed, n, v);
      n := n + 1;
      block := block + [v];
      code := code + 1;
      if code == 0xFF {
        Cobs.ProgressFull(data, i + 1, done, block);
        n := NextBlock(framed, n, codeIdx, code, done, block);
        done, block := done + ([code as byte] + block), [];
        codeIdx, code := n - 1, 1;
      }
    }
  }

  /** `framed[code_idx] = code` closes the open block. */
  method SetCode(framed: array<byte>, n: nat, codeIdx: nat, code: byte, ghost done: seq<byte>, ghost block: seq<byte>)
    requires n <= framed.Length && framed[..n] == done + [0] + block && codeIdx == |done|
    modifies framed
    ensures framed[..n] == done + ([code] + block)
  {
    Sequences.SetAt(done, 0, block, code);
    ghost var before := framed[..n];
    framed[codeIdx] := code;
    assert framed[..n] == before[codeIdx := code];
  }

  /** Closes the open block and leaves a placeholder for the code of the next. */
  method NextBlock(framed: array<byte>, n: nat, codeIdx: nat, code: byte, ghost done: seq<byte>, ghost block: seq<byte>)
    returns (m: nat)
    requires n < framed.Length && framed[..n] == done + [0] + block && codeIdx == |done|
    modifies framed
    ensures m == n + 1 && framed[..m] == done + ([code] + block) + [0] + []
  {
    SetCode(framed, n, codeIdx, code, done, block);
    Append(framed, n, 0);
    m := n + 1;
    Sequences.Empty(framed[..m]);
  }
}

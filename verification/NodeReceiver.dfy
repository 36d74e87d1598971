/** What the firmware reads, byte by byte at fixed offsets, out of the messages the host packs
    (swarm_coap.c, ranging.c). */
module NodeReceiver {
  import opened Wrappers
  import opened Bits
  import opened Struct
  import Codec
  import Cobs
  import Framing
  import HeaderWriter
  import Sequences
  import SerialLink

  // ---------------------------------------------------------------- fields at offsets

  /** `sys_get_le16`. */
  function Le16(b: seq<byte>, i: nat): nat
    requires i + 2 <= |b|
  {
    (b[i] as int) + 0x100 * (b[i + 1] as int)
  }

  /** `sys_get_le32`. */
  function Le32(b: seq<byte>, i: nat): nat
    requires i + 4 <= |b|
  {
    Le16(b, i) + 0x1_0000 * Le16(b, i + 2)
  }

  /** The cast to the signed type of the same width. */
  function Signed16(u: nat): int {
    if u >= 0x8000 then u - 0x1_0000 else u
  }

  function Signed32(u: nat): int {
    if u >= 0x8000_0000 then u - 0x1_0000_0000 else u
  }

  /** The value that a code has at an offset. */
  function Field(b: seq<byte>, c: Code, i: nat): int
    requires i + Width(c) <= |b|
  {
    match c
    case U8 => b[i]
    case I8 => if b[i] >= 0x80 then b[i] - 0x100 else b[i]
    case U16 => Le16(b, i)
    case I16 => Signed16(Le16(b, i))
    case U32 => Le32(b, i)
    case I32 => Signed32(Le32(b, i))
  }

  lemma FieldUnpacks(b: seq<byte>, c: Code, i: nat)
    requires i + Width(c) <= |b|
    ensures Field(b, c, i) == UnpackOne(c, b[i..i + Width(c)])
  {
    HeaderWriter.Spans();
    NumberOf(b[i..i + Width(c)]);
  }

  lemma NumberOf(r: seq<byte>)
    ensures |r| == 1 ==> Number(r) == r[0]
    ensures |r| == 2 ==> Number(r) == Le16(r, 0)
    ensures |r| == 4 ==> Number(r) == Le32(r, 0)
  {
    if |r| == 1 {
      assert Number(r[1..]) == 0;
    } else if |r| == 2 {
      NumberOf(r[1..]);
    } else if |r| == 4 {
      NumberOf(r[2..]);
      assert r[1..][1..] == r[2..];
      assert Number(r[1..]) == r[1] + 256 * Number(r[2..]);
    }
  }

  /** Where field `k` of a record starts. */
  function Offset(fmt: Format, k: nat): nat
    requires k <= |fmt|
  {
    if k == 0 then 0 else Offset(fmt, k - 1) + Width(fmt[k - 1])
  }

  /** A packed record, after anything, holds each value where its offset says. */
  lemma {:induction false} FieldAt(head: seq<byte>, fmt: Format, vs: seq<int>, rest: seq<byte>, k: nat)
    requires AllFit(fmt, vs) && k < |fmt|
    ensures var b, i := head + Pack(fmt, vs) + rest, |head| + Offset(fmt, k);
            i + Width(fmt[k]) <= |b| && Field(b, fmt[k], i) == vs[k]
    decreases k
  {
    hide Field, PackOne;
    var first, later := PackOne(fmt[0], vs[0]), Pack(fmt[1..], vs[1..]);
    var b := head + Pack(fmt, vs) + rest;
    if k == 0 {
      assert b[|head|..|head| + |first|] == first;
      FieldUnpacks(b, fmt[0], |head|);
      UnpackPackOne(fmt[0], vs[0]);
    } else {
      FieldAt(head + first, fmt[1..], vs[1..], rest, k - 1);
      OffsetShifts(fmt, k);
      Sequences.Assoc(head, first, later);
    }
  }

  lemma {:induction false} OffsetShifts(fmt: Format, k: nat)
    requires 0 < k <= |fmt|
    ensures Offset(fmt, k) == Width(fmt[0]) + Offset(fmt[1..], k - 1)
  {
    if k > 1 { OffsetShifts(fmt, k - 1); }
  }

  // ---------------------------------------------------------------- the header

  /** The body of a message of this type, if the payload is one. */
  function BodyOf(payload: seq<byte>, code: byte): Option<seq<byte>> {
    if |payload| < Codec.HDR_LEN || payload[0] != 0x53 || payload[2] != code then None
    else Some(payload[Codec.HDR_LEN..])
  }

  lemma BodyArrives(m: Codec.Message)
    requires Codec.Encode(m).Ok?
    ensures Codec.PackBody(m.body).Ok?
    ensures BodyOf(Codec.Encode(m).value, Codec.TypeCode(m.body)) == Some(Codec.PackBody(m.body).value)
  {
    hide Codec.PackBody, Codec.TypeCode, Pack, AllFit;
    var h := Codec.Header(Codec.TypeCode(m.body), m.eui, m.seqNo, m.flags);
    var header, body := Codec.PackHeader(h).value, Codec.PackBody(m.body).value;
    Codec.HeaderLength(h);
    HeaderStarts(h);
    Sequences.Parts(header, body);
  }

  lemma HeaderStarts(h: Codec.Header)
    requires Codec.PackHeader(h).Ok? && |Codec.PackHeader(h).value| == Codec.HDR_LEN
    ensures Codec.PackHeader(h).value[0] == 0x53 && Codec.PackHeader(h).value[2] == h.msgType
  {
    var vs := [Codec.MAGIC, Codec.VERSION, h.msgType, h.flags];
    var later := Codec.Pad8(h.eui) + Codec.TryPack([U32], [h.seqNo]).value;
    hide Pack, AllFit, Codec.Pad8;
    FieldAt([], Codec.PREFIX, vs, later, 0);
    FieldAt([], Codec.PREFIX, vs, later, 2);
    Sequences.Empty(Pack(Codec.PREFIX, vs));
    assert Offset(Codec.PREFIX, 2) == 2;
  }

  // ---------------------------------------------------------------- POSE_INJECT

  datatype Pose = Pose(lat: int, lon: int, alt: int, heading: int, velN: int, velE: int, posStd: int, hdgStd: int,
                       flags: byte)

  /** `apply_pose_inject`. */
  function ApplyPose(b: seq<byte>): Option<Pose> {
    if |b| < 27 then None
    else Some(Pose(Signed32(Le32(b, 0)), Signed32(Le32(b, 4)), Signed32(Le32(b, 8)), Le16(b, 12),
                   Signed16(Le16(b, 14)), Signed16(Le16(b, 16)), Le16(b, 18), Le16(b, 20), b[22]))
  }

  lemma PoseOffsets()
    ensures Offset(Codec.POSE, 1) == 4 && Offset(Codec.POSE, 2) == 8 && Offset(Codec.POSE, 3) == 12
    ensures Offset(Codec.POSE, 4) == 14 && Offset(Codec.POSE, 5) == 16 && Offset(Codec.POSE, 6) == 18
    ensures Offset(Codec.POSE, 7) == 20 && Offset(Codec.POSE, 8) == 22 && Offset(Codec.POSE, 9) == 23
  {
  }

  lemma FieldIs(b: seq<byte>, fmt: Format, vs: seq<int>, k: nat)
    requires AllFit(fmt, vs) && k < |fmt| && b == Pack(fmt, vs)
    ensures Offset(fmt, k) + Width(fmt[k]) <= |b| && Field(b, fmt[k], Offset(fmt, k)) == vs[k]
  {
    hide Pack, AllFit, Field;
    FieldAt([], fmt, vs, [], k);
    Sequences.Empty(b);
  }

  /** A limit, without naming the clamping of the encoder. */
  function Within(v: int, lo: int, hi: int): (r: int)
    requires lo <= hi
    ensures lo <= r <= hi && (lo <= v <= hi ==> r == v) && (v < lo ==> r == lo) && (v > hi ==> r == hi)
  {
    if v < lo then lo else if v > hi then hi else v
  }

  /** The pose of a message, each quantity forced into its field. */
  function Sent(b: Codec.Body): Pose
    requires b.PoseInject?
  {
    Pose(b.lat, b.lon, b.alt, b.heading % 36000, Within(b.pose.velN, -32768, 32767),
         Within(b.pose.velE, -32768, 32767), Within(b.pose.posStd, 0, 65535), Within(b.pose.hdgStd, 0, 65535),
         b.pose.ekfFlags % 256)
  }

  /** The pose the host packs is the pose the node adopts, in range or forced into it. */
  lemma PoseAdopted(m: Codec.Message)
    requires m.body.PoseInject? && Codec.Encode(m).Ok?
    ensures BodyOf(Codec.Encode(m).value, 0x06).Some?
    ensures ApplyPose(BodyOf(Codec.Encode(m).value, 0x06).value) == Some(Sent(m.body))
  {
    hide Codec.PackPose, Codec.Encode, ApplyPose, Sent, BodyOf;
    BodyArrives(m);
    PoseRead(m.body);
  }

  lemma PoseRead(b: Codec.Body)
    requires b.PoseInject? && Codec.PackPose(b).Ok?
    ensures ApplyPose(Codec.PackPose(b).value) == Some(Sent(b))
  {
    hide Pack, AllFit, Le16, Le32, Signed16, Signed32;
    var vs, r := Codec.PoseFields(b), Codec.PackPose(b).value;
    PoseOffsets();
    FieldIs(r, Codec.POSE, vs, 0);
    FieldIs(r, Codec.POSE, vs, 1);
    FieldIs(r, Codec.POSE, vs, 2);
    FieldIs(r, Codec.POSE, vs, 3);
    FieldIs(r, Codec.POSE, vs, 4);
    FieldIs(r, Codec.POSE, vs, 5);
    FieldIs(r, Codec.POSE, vs, 6);
    FieldIs(r, Codec.POSE, vs, 7);
    FieldIs(r, Codec.POSE, vs, 8);
    FieldIs(r, Codec.POSE, vs, 9);
  }

  // ---------------------------------------------------------------- ROUTE

  /** What a route changes in a node. */
  datatype Uplink = Uplink(parent: Option<Codec.Id>, role: byte)

  /** `apply_route`: all ones mean no parent, a parent not heard of is passed over, and a role of 0xFF is none. */
  function ApplyRoute(up: Uplink, known: set<Codec.Id>, b: seq<byte>): Uplink {
    if |b| < 16 then up
    else
      var primary := b[..8];
      var next := if forall i :: 0 <= i < 8 ==> primary[i] == 0xFF then up.(parent := None)
                  else if primary in known then up.(parent := Some(primary)) else up;
      if |b| >= 17 && b[16] != 0xFF then next.(role := b[16]) else next
  }

  const NO_PARENT: Codec.Id := [0xFF, 0xFF, 0xFF, 0xFF, 0xFF, 0xFF, 0xFF, 0xFF]

  /** The parent and the role the host assigns are the ones the node takes. */
  lemma RouteTaken(m: Codec.Message, up: Uplink, known: set<Codec.Id>)
    requires m.body.Route? && Codec.IdsWellFormed(m.body) && Codec.Encode(m).Ok?
    ensures BodyOf(Codec.Encode(m).value, 0x10).Some?
    ensures var next := ApplyRoute(up, known, BodyOf(Codec.Encode(m).value, 0x10).value);
            && next.parent == (if m.body.primary == NO_PARENT then None
                               else if m.body.primary in known then Some(m.body.primary) else up.parent)
            && next.role == (if m.body.roleOverride == 0xFF then up.role else m.body.roleOverride)
  {
    hide Codec.Encode, BodyOf, ApplyRoute, Codec.PackIds, Codec.AllIds;
    BodyArrives(m);
    RouteRead(m.body, up, known);
  }

  lemma RouteRead(b: Codec.Body, up: Uplink, known: set<Codec.Id>)
    requires b.Route? && |b.primary| == 8 && |b.secondary| == 8 && Codec.PackRoute(b).Ok?
    ensures var next := ApplyRoute(up, known, Codec.PackRoute(b).value);
            && next.parent == (if b.primary == NO_PARENT then None
                               else if b.primary in known then Some(b.primary) else up.parent)
            && next.role == (if b.roleOverride == 0xFF then up.role else b.roleOverride)
  {
    hide Codec.PackIds;
    var r := Codec.PackRoute(b).value;
    var later := [b.roleOverride] + ([|b.subscriptions|] + Codec.PackIds(b.subscriptions));
    assert r == b.primary + (b.secondary + later);
    assert r[..8] == b.primary;
    assert r[16] == later[0];
    AllOnes(b.primary);
  }

  lemma AllOnes(e: Codec.Id)
    requires |e| == 8
    ensures (forall i :: 0 <= i < 8 ==> e[i] == 0xFF) <==> e == NO_PARENT
  {
  }

  // ---------------------------------------------------------------- positions and times of others

  /** What `swarm_handle_payload` learns of a peer's position from its telemetry. */
  function PeerPosition(b: seq<byte>): Option<(int, int)> {
    if |b| < 10 || b[1] == 0 then None else Some((Signed32(Le32(b, 2)), Signed32(Le32(b, 6))))
  }

  /** A position is learned exactly from telemetry that has one, and it is the one reported. */
  lemma PositionLearned(m: Codec.Message)
    requires m.body.Telemetry? && Codec.Encode(m).Ok?
    ensures BodyOf(Codec.Encode(m).value, 0x02).Some?
    ensures PeerPosition(BodyOf(Codec.Encode(m).value, 0x02).value)
            == if m.body.posSource == 0 then None else Some((m.body.lat, m.body.lon))
  {
    hide Codec.Encode, BodyOf, PeerPosition, Codec.PackTelemetry;
    BodyArrives(m);
    PositionRead(m.body);
  }

  lemma TelemetryOffsets()
    ensures Offset(Codec.TELEMETRY, 1) == 1 && Offset(Codec.TELEMETRY, 2) == 2 && Offset(Codec.TELEMETRY, 3) == 6
  {
  }

  lemma PositionRead(b: Codec.Body)
    requires b.Telemetry? && Codec.PackTelemetry(b).Ok?
    ensures PeerPosition(Codec.PackTelemetry(b).value) == if b.posSource == 0 then None else Some((b.lat, b.lon))
  {
    hide Pack, AllFit, Le32, Signed32, Codec.PackReadings, Codec.PackTrailer;
    var r, vs := Codec.PackTelemetry(b).value, Codec.TelemetryFields(b);
    var later := [|b.readings|] + (Codec.PackReadings(b.readings).value + Codec.PackTrailer(b.kinematics).value);
    Sequences.Empty(Pack(Codec.TELEMETRY, vs));
    TelemetryOffsets();
    FieldAt([], Codec.TELEMETRY, vs, later, 1);
    FieldAt([], Codec.TELEMETRY, vs, later, 2);
    FieldAt([], Codec.TELEMETRY, vs, later, 3);
  }

  /** The times in a ranging answer, and whose question it answers (`swarm_ranging_handle`). */
  function RangeTimes(b: seq<byte>): Option<(Codec.Id, nat, nat, nat)> {
    if |b| < 20 then None else Some((b[..8], Le32(b, 8), Le32(b, 12), Le32(b, 16)))
  }

  lemma TimesHeard(m: Codec.Message)
    requires m.body.RangeResp? && Codec.IdsWellFormed(m.body) && Codec.Encode(m).Ok?
    ensures BodyOf(Codec.Encode(m).value, 0x05).Some?
    ensures m.body.t1 >= 0 && m.body.t2 >= 0 && m.body.t3 >= 0
    ensures RangeTimes(BodyOf(Codec.Encode(m).value, 0x05).value)
            == Some((m.body.initiator, m.body.t1, m.body.t2, m.body.t3))
  {
    hide Codec.Encode, BodyOf, RangeTimes, Codec.PackRangeResp;
    BodyArrives(m);
    TimesRead(m.body);
  }

  lemma TimesRead(b: Codec.Body)
    requires b.RangeResp? && |b.initiator| == 8 && Codec.PackRangeResp(b).Ok?
    ensures b.t1 >= 0 && b.t2 >= 0 && b.t3 >= 0
    ensures RangeTimes(Codec.PackRangeResp(b).value) == Some((b.initiator, b.t1, b.t2, b.t3))
  {
    hide Pack, AllFit, Le32;
    var r, vs := Codec.PackRangeResp(b).value, [b.t1, b.t2, b.t3];
    assert Offset(Codec.TIMES, 1) == 4 && Offset(Codec.TIMES, 2) == 8;
    Sequences.Empty(r);
    FieldAt(b.initiator, Codec.TIMES, vs, [], 0);
    FieldAt(b.initiator, Codec.TIMES, vs, [], 1);
    FieldAt(b.initiator, Codec.TIMES, vs, [], 2);
    Sequences.Parts(b.initiator, Pack(Codec.TIMES, vs));
  }

  // ---------------------------------------------------------------- CMD and BROADCAST

  /** Opcode, length and parameters as `apply_cmd` looks at them. */
  function CommandOf(b: seq<byte>): Option<(byte, byte, seq<byte>)> {
    if |b| < 2 then None else Some((b[0], b[1], b[2..]))
  }

  lemma CommandHeard(m: Codec.Message)
    requires (m.body.Cmd? || m.body.Broadcast?) && Codec.Encode(m).Ok?
    ensures var body := BodyOf(Codec.Encode(m).value, if m.body.Cmd? then 0x11 else 0x12);
            && body.Some? && 0 <= m.body.op < 256 && |m.body.params| < 256
            && CommandOf(body.value) == Some((m.body.op, |m.body.params|, m.body.params))
  {
    hide Codec.Encode, BodyOf;
    BodyArrives(m);
    var op, params := m.body.op, m.body.params;
    Sequences.Assoc([op], [|params|], params);
    assert [op] + [|params|] == [op, |params|];
    Sequences.Parts([op, |params|], params);
  }

  // ---------------------------------------------------------------- over the serial link

  /** A frame from the host, between frames, hands its payload on. */
  lemma FrameTaken(payload: seq<byte>)
    requires Codec.HDR_LEN <= |payload| <= SerialLink.MAX_FRAME
    ensures SerialLink.IsrAll(SerialLink.Rx([], []), Framing.Frame(payload)) == SerialLink.Rx([], [payload])
  {
    hide SerialLink.IsrAll, SerialLink.Tail, Framing.Deframe, Cobs.Encode;
    var coded := Cobs.Encode(Framing.Body(payload));
    Framing.FrameRoundTrip(payload);
    Cobs.Overhead(Framing.Body(payload));
    SerialLink.TailShort(coded);
    SerialLink.Delimited([], coded, []);
    Sequences.Empty([0]);
    Sequences.Empty([payload]);
    NothingMore(SerialLink.Rx([], [payload]));
  }

  lemma NothingMore(rx: SerialLink.Rx)
    ensures SerialLink.IsrAll(rx, []) == rx
  {
  }

  /** A pose that the host packs, frames and sends is adopted by the node at the other end of the wire. */
  lemma PoseArrives(m: Codec.Message)
    requires m.body.PoseInject? && Codec.Encode(m).Ok?
    ensures var rx := SerialLink.IsrAll(SerialLink.Rx([], []), Framing.Frame(Codec.Encode(m).value));
            && rx.pending == [] && |rx.delivered| == 1 && BodyOf(rx.delivered[0], 0x06).Some?
            && ApplyPose(BodyOf(rx.delivered[0], 0x06).value) == Some(Sent(m.body))
  {
    hide Codec.Encode, Codec.PackPose, BodyOf, ApplyPose, Sent, SerialLink.IsrAll, Framing.Frame;
    PoseLength(m);
    FrameTaken(Codec.Encode(m).value);
    PoseAdopted(m);
  }

  lemma PoseLength(m: Codec.Message)
    requires m.body.PoseInject? && Codec.Encode(m).Ok?
    ensures |Codec.Encode(m).value| == 43
  {
    hide Pack, AllFit, Codec.PackHeader, Codec.PoseFields, Offset, Size, Width;
    Codec.HeaderLength(Codec.Header(Codec.TypeCode(m.body), m.eui, m.seqNo, m.flags));
    PoseSize();
  }

  lemma PoseSize()
    ensures Size(Codec.POSE) == 27
  {
    hide Size;
    OffsetIsSize(Codec.POSE);
    PoseOffsets();
  }

  lemma {:induction false} OffsetIsSize(fmt: Format)
    ensures Offset(fmt, |fmt|) == Size(fmt)
    decreases |fmt|
  {
    if fmt != [] {
      OffsetIsSize(fmt[1..]);
      OffsetShifts(fmt, |fmt|);
    }
  }
}

/** The messages that the firmware writes field by field into a buffer (swarm_coap.c), and what the host's
    decoders make of them. */
module NodeMessages {
  import opened Wrappers
  import opened Bits
  import opened Struct
  import opened HeaderWriter
  import Codec
  import Framing
  import Sequences
  import SerialLink

  const MAX_READINGS: nat := 8

  type u16 = v: int | 0 <= v < 0x1_0000
  type u32 = v: int | 0 <= v < 0x1_0000_0000
  type i8 = v: int | -0x80 <= v < 0x80
  type i16 = v: int | -0x8000 <= v < 0x8000
  type i32 = v: int | -0x8000_0000 <= v < 0x8000_0000

  // ---------------------------------------------------------------- one field

  /** After `head`, the first `k` fields of a record. */
  ghost predicate Written(done: seq<byte>, head: seq<byte>, fmt: Format, vs: seq<int>, k: nat) {
    k <= |fmt| && AllFit(fmt, vs) && done == head + Pack(fmt[..k], vs[..k])
  }

  /** Field `k` of the record is `v`, written as `c`. */
  ghost predicate Slot(fmt: Format, vs: seq<int>, k: nat, c: Code, v: int) {
    k < |fmt| && k < |vs| && fmt[k] == c && vs[k] == v
  }

  lemma {:induction false} PackSnoc(fmt: Format, vs: seq<int>, c: Code, v: int)
    requires AllFit(fmt, vs) && Struct.Fits(c, v)
    ensures AllFit(fmt + [c], vs + [v]) && Pack(fmt + [c], vs + [v]) == Pack(fmt, vs) + PackOne(c, v)
    decreases |fmt|
  {
    hide PackOne;
    if fmt == [] {
      assert Pack([c], [v]) == PackOne(c, v) + Pack([], []);
    } else {
      PackSnoc(fmt[1..], vs[1..], c, v);
      assert (fmt + [c])[1..] == fmt[1..] + [c] && (vs + [v])[1..] == vs[1..] + [v];
      Sequences.Assoc(PackOne(fmt[0], vs[0]), Pack(fmt[1..], vs[1..]), PackOne(c, v));
    }
  }

  lemma FieldDone(done: seq<byte>, head: seq<byte>, fmt: Format, vs: seq<int>, k: nat)
    requires Written(done, head, fmt, vs, k) && k < |fmt|
    ensures Written(done + PackOne(fmt[k], vs[k]), head, fmt, vs, k + 1)
  {
    hide PackOne, Pack;
    PackSnoc(fmt[..k], vs[..k], fmt[k], vs[k]);
    assert fmt[..k + 1] == fmt[..k] + [fmt[k]] && vs[..k + 1] == vs[..k] + [vs[k]];
    Sequences.Assoc(head, Pack(fmt[..k], vs[..k]), PackOne(fmt[k], vs[k]));
  }

  /** Signed values as the unsigned ones they are cast to. */
  function Cast(v: int, span: nat): nat
    requires span > 0
  {
    v % span
  }

  lemma CastIs(v: int, span: int)
    requires -span <= v < span
    ensures span > 0 && Cast(v, span) == if v < 0 then v + span else v
  {
  }

  lemma OneByte(u: nat)
    requires u < 0x100
    ensures Bytes(u, 1) == [u]
  {
    assert Bytes(u / 256, 0) == [];
  }

  lemma CastsFit(c: Code, v: int)
    requires Struct.Fits(c, v)
    ensures Width(c) == 1 ==> 0 <= Cast(v, 0x100) < 0x100 && PackOne(c, v) == [Cast(v, 0x100)]
    ensures Width(c) == 2 ==> Struct.Fits(U16, Cast(v, 0x1_0000)) && PackOne(c, v) == PackOne(U16, Cast(v, 0x1_0000))
    ensures Width(c) == 4 && !Signed(c) ==> 0 <= v < 0x1_0000_0000
    ensures Width(c) == 4 && Signed(c) ==> -0x8000_0000 <= v < 0x8000_0000
  {
    hide Bytes, Cast;
    Spans();
    CastIs(v, Span(Width(c)));
    if Width(c) == 1 { OneByte(Cast(v, 0x100)); }
  }

  /** One field through the writer for its width: the next field of the record is there. */
  method PutField(buf: array<byte>, off: nat, c: Code, v: int, ghost head: seq<byte>, ghost fmt: Format,
                  ghost vs: seq<int>, ghost k: nat)
    returns (next: nat)
    requires off + Width(c) <= buf.Length && Written(buf[..off], head, fmt, vs, k) && Slot(fmt, vs, k, c, v)
    modifies buf
    ensures next == off + Width(c) && Written(buf[..next], head, fmt, vs, k + 1)
  {
    CastsFit(c, v);
    FieldDone(buf[..off], head, fmt, vs, k);
    hide PackOne, Written;
    if Width(c) == 1 {
      buf[off] := Cast(v, 0x100);
    } else if Width(c) == 2 {
      var n := PutU16(buf, off, Cast(v, 0x1_0000));
    } else if Signed(c) {
      var n := PutI32(buf, off, v);
    } else {
      var n := PutU32(buf, off, v);
    }
    next := off + Width(c);
    assert buf[..next] == buf[..off] + buf[off..next];
  }

  /** `memcpy` into the buffer. */
  method CopyBytes(buf: array<byte>, off: nat, src: seq<byte>) returns (next: nat)
    requires off + |src| <= buf.Length
    modifies buf
    ensures next == off + |src| && buf[..next] == old(buf[..off]) + src
  {
    for i := 0 to |src|
      invariant buf[..off + i] == old(buf[..off]) + src[..i]
    {
      buf[off + i] := src[i];
      assert buf[..off + i + 1] == buf[..off + i] + [src[i]];
    }
    return off + |src|;
  }

  lemma NothingWritten(head: seq<byte>, fmt: Format, vs: seq<int>)
    requires AllFit(fmt, vs)
    ensures Written(head, head, fmt, vs, 0)
  {
    assert Pack([], []) == [];
    Sequences.Empty(head);
  }

  lemma AllWritten(done: seq<byte>, head: seq<byte>, fmt: Format, vs: seq<int>)
    requires Written(done, head, fmt, vs, |fmt|)
    ensures done == head + Pack(fmt, vs)
  {
    assert fmt[..|fmt|] == fmt && vs[..|vs|] == vs;
  }

  /** What follows a header that the firmware wrote is read as the body it names. */
  lemma Heard(h: Codec.Header, rest: seq<byte>, b: Codec.Body)
    requires Codec.PackHeader(h).Ok? && |h.eui| == Codec.EUI_LEN
    requires Codec.UnpackBody(h.msgType, rest) == Ok(Some(b))
    ensures Codec.Decode(Codec.PackHeader(h).value + rest) == Ok(Some(Codec.Message(h.eui, h.seqNo, h.flags, b)))
  {
    hide Codec.PackHeader, Codec.UnpackHeader, Codec.UnpackBody;
    Codec.HeaderLength(h);
    Codec.HeaderTrip(h, rest);
    Sequences.Parts(Codec.PackHeader(h).value, rest);
  }

  // ---------------------------------------------------------------- TELEMETRY

  datatype Sample = Sample(channel: byte, bits: u32)

  datatype Motion = Motion(velN: i16, velE: i16, posStd: u16, hdgStd: u16, ekfFlags: byte)

  datatype Snapshot = Snapshot(status: byte, posSource: byte, lat: i32, lon: i32, alt: i32, heading: u16,
                               battery: byte, quality: byte, readings: seq<Sample>, motion: Option<Motion>)

  function Readings(samples: seq<Sample>): seq<Codec.Reading> {
    seq(|samples|, i requires 0 <= i < |samples| => Codec.Reading(samples[i].channel, samples[i].bits))
  }

  /** The snapshot as the host's message type has it. */
  function Reported(snap: Snapshot): Codec.Body {
    Codec.Telemetry(snap.status, snap.posSource, snap.lat, snap.lon, snap.alt, snap.heading, snap.battery,
                    snap.quality, Readings(snap.readings),
                    match snap.motion
                    case None => None
                    case Some(m) => Some(Codec.Kinematics(m.velN, m.velE, m.posStd, m.hdgStd, m.ekfFlags)))
  }

  ghost function FixedFields(snap: Snapshot): seq<int> {
    [snap.status, snap.posSource, snap.lat, snap.lon, snap.alt, snap.heading, snap.battery, snap.quality]
  }

  lemma FixedFit(snap: Snapshot)
    ensures AllFit(Codec.TELEMETRY, FixedFields(snap)) && Size(Codec.TELEMETRY) == 18
  {
    Spans();
    TelemetrySize();
  }

  lemma TelemetrySize()
    ensures Size(Codec.TELEMETRY) == 18
  {
    var f := Codec.TELEMETRY;
    assert f[1..][1..][1..][1..][1..][1..][1..][1..] == [];
    assert Size(f[1..][1..][1..][1..][1..][1..][1..]) == 1;
    assert Size(f[1..][1..][1..][1..][1..][1..]) == 2;
    assert Size(f[1..][1..][1..][1..][1..]) == 4;
    assert Size(f[1..][1..][1..][1..]) == 8;
    assert Size(f[1..][1..][1..]) == 12;
    assert Size(f[1..][1..]) == 16;
    assert Size(f[1..]) == 17;
  }

  lemma FixedSlots(snap: Snapshot)
    ensures Slot(Codec.TELEMETRY, FixedFields(snap), 0, U8, snap.status)
    ensures Slot(Codec.TELEMETRY, FixedFields(snap), 1, U8, snap.posSource)
    ensures Slot(Codec.TELEMETRY, FixedFields(snap), 2, I32, snap.lat)
    ensures Slot(Codec.TELEMETRY, FixedFields(snap), 3, I32, snap.lon)
    ensures Slot(Codec.TELEMETRY, FixedFields(snap), 4, I32, snap.alt)
    ensures Slot(Codec.TELEMETRY, FixedFields(snap), 5, U16, snap.heading)
    ensures Slot(Codec.TELEMETRY, FixedFields(snap), 6, U8, snap.battery)
    ensures Slot(Codec.TELEMETRY, FixedFields(snap), 7, U8, snap.quality)
  {
  }

  method PutFixed(buf: array<byte>, off: nat, snap: Snapshot) returns (next: nat)
    requires off + 18 <= buf.Length
    modifies buf
    ensures AllFit(Codec.TELEMETRY, FixedFields(snap))
    ensures next == off + 18 && buf[..next] == old(buf[..off]) + Pack(Codec.TELEMETRY, FixedFields(snap))
  {
    hide Pack, Written, AllFit, FixedFields;
    ghost var head, fmt, vs := buf[..off], Codec.TELEMETRY, FixedFields(snap);
    FixedFit(snap);
    NothingWritten(head, fmt, vs);
    next := PutPlace(buf, off, snap, head);
    next := PutCondition(buf, next, snap, head);
    AllWritten(buf[..next], head, fmt, vs);
  }

  /** Status, source, latitude and longitude. */
  method PutPlace(buf: array<byte>, off: nat, snap: Snapshot, ghost head: seq<byte>) returns (next: nat)
    requires off + 10 <= buf.Length && Written(buf[..off], head, Codec.TELEMETRY, FixedFields(snap), 0)
    modifies buf
    ensures next == off + 10 && Written(buf[..next], head, Codec.TELEMETRY, FixedFields(snap), 4)
  {
    hide Pack, Written, AllFit, Slot, FixedFields;
    ghost var fmt, vs := Codec.TELEMETRY, FixedFields(snap);
    FixedSlots(snap);
    next := PutField(buf, off, U8, snap.status, head, fmt, vs, 0);
    next := PutField(buf, next, U8, snap.posSource, head, fmt, vs, 1);
    next := PutField(buf, next, I32, snap.lat, head, fmt, vs, 2);
    next := PutField(buf, next, I32, snap.lon, head, fmt, vs, 3);
  }

  /** Altitude, heading, battery and quality. */
  method PutCondition(buf: array<byte>, off: nat, snap: Snapshot, ghost head: seq<byte>) returns (next: nat)
    requires off + 8 <= buf.Length && Written(buf[..off], head, Codec.TELEMETRY, FixedFields(snap), 4)
    modifies buf
    ensures next == off + 8 && Written(buf[..next], head, Codec.TELEMETRY, FixedFields(snap), 8)
  {
    hide Pack, Written, AllFit, Slot, FixedFields;
    ghost var fmt, vs := Codec.TELEMETRY, FixedFields(snap);
    FixedSlots(snap);
    next := PutField(buf, off, I32, snap.alt, head, fmt, vs, 4);
    next := PutField(buf, next, U16, snap.heading, head, fmt, vs, 5);
    next := PutField(buf, next, U8, snap.battery, head, fmt, vs, 6);
    next := PutField(buf, next, U8, snap.quality, head, fmt, vs, 7);
  }

  lemma ReadingFits(s: Sample)
    ensures AllFit(Codec.READING, [s.channel, s.bits]) && Size(Codec.READING) == 5
  {
    Spans();
    assert Size(Codec.READING[1..][1..]) == 0;
    assert Size(Codec.READING[1..]) == 4;
  }

  lemma {:induction false} ReadingsSnoc(rs: seq<Codec.Reading>, r: Codec.Reading)
    requires Codec.PackReadings(rs).Ok? && AllFit(Codec.READING, [r.channel, r.bits])
    ensures Codec.PackReadings(rs + [r])
            == Ok(Codec.PackReadings(rs).value + Pack(Codec.READING, [r.channel, r.bits]))
    decreases |rs|
  {
    hide Pack, AllFit;
    var one := Pack(Codec.READING, [r.channel, r.bits]);
    if rs == [] {
      assert ([] + [r])[1..] == [];
      Sequences.Empty(one);
    } else {
      ReadingsSnoc(rs[1..], r);
      assert (rs + [r])[1..] == rs[1..] + [r];
      var first := Codec.TryPack(Codec.READING, [rs[0].channel, rs[0].bits]).value;
      Sequences.Assoc(first, Codec.PackReadings(rs[1..]).value, one);
    }
  }

  /** The count of the readings and the readings, five bytes each. */
  method PutReadings(buf: array<byte>, off: nat, samples: seq<Sample>) returns (next: nat)
    requires |samples| <= MAX_READINGS && off + 1 + 5 * |samples| <= buf.Length
    modifies buf
    ensures Codec.PackReadings(Readings(samples)).Ok? && next == off + 1 + 5 * |samples|
    ensures buf[..next] == old(buf[..off]) + ([|samples|] + Codec.PackReadings(Readings(samples)).value)
  {
    hide Pack, Written, AllFit, Codec.PackReadings;
    buf[off] := |samples|;
    next := off + 1;
    ghost var before := old(buf[..off]);
    ghost var rs := Readings(samples);
    NoReadings();
    assert buf[..next] == before + [|samples|];
    Sequences.Empty(buf[..next]);
    for i := 0 to |samples|
      invariant next == off + 1 + 5 * i && |Readings(samples)| == |samples| && rs == Readings(samples)
      invariant Codec.PackReadings(rs[..i]).Ok?
      invariant buf[..next] == before + [|samples|] + Codec.PackReadings(rs[..i]).value
    {
      next := PutReading(buf, next, samples[i]);
      NextReading(samples, i, before + [|samples|]);
    }
    assert rs[..|samples|] == rs;
    Sequences.Assoc(before, [|samples|], Codec.PackReadings(rs).value);
  }

  lemma NoReadings()
    ensures Codec.PackReadings([]) == Ok([])
  {
  }

  lemma NextReading(samples: seq<Sample>, i: nat, head: seq<byte>)
    requires i < |samples| && Codec.PackReadings(Readings(samples)[..i]).Ok?
    ensures var rs, vs := Readings(samples), [samples[i].channel, samples[i].bits];
            && AllFit(Codec.READING, vs) && Codec.PackReadings(rs[..i + 1]).Ok?
            && head + Codec.PackReadings(rs[..i]).value + Pack(Codec.READING, vs)
               == head + Codec.PackReadings(rs[..i + 1]).value
  {
    hide Pack, AllFit, Codec.PackReadings;
    var rs := Readings(samples);
    ReadingFits(samples[i]);
    ReadingsSnoc(rs[..i], rs[i]);
    assert rs[..i + 1] == rs[..i] + [rs[i]];
    Sequences.Assoc(head, Codec.PackReadings(rs[..i]).value,
                    Pack(Codec.READING, [samples[i].channel, samples[i].bits]));
  }

  method PutReading(buf: array<byte>, off: nat, s: Sample) returns (next: nat)
    requires off + 5 <= buf.Length
    modifies buf
    ensures AllFit(Codec.READING, [s.channel, s.bits])
    ensures next == off + 5 && buf[..next] == old(buf[..off]) + Pack(Codec.READING, [s.channel, s.bits])
  {
    hide Pack, Written, AllFit;
    ghost var head, fmt, vs := buf[..off], Codec.READING, [s.channel, s.bits];
    ReadingFits(s);
    NothingWritten(head, fmt, vs);
    next := PutField(buf, off, U8, s.channel, head, fmt, vs, 0);
    next := PutField(buf, next, U32, s.bits, head, fmt, vs, 1);
    AllWritten(buf[..next], head, fmt, vs);
  }

  /** The bytes of the optional trailer. */
  ghost function TrailerBytes(m: Option<Motion>): seq<byte> {
    match m
    case None => []
    case Some(v) =>
      MotionFits(v);
      Pack(Codec.KINEMATICS, MotionFields(v))
  }

  ghost function MotionFields(m: Motion): seq<int> {
    [m.velN, m.velE, m.posStd, m.hdgStd, m.ekfFlags]
  }

  lemma MotionFits(m: Motion)
    ensures AllFit(Codec.KINEMATICS, MotionFields(m)) && Size(Codec.KINEMATICS) == 9
  {
    Spans();
    Codec.TrailerSize();
  }

  lemma MotionSlots(m: Motion)
    ensures Slot(Codec.KINEMATICS, MotionFields(m), 0, I16, m.velN)
    ensures Slot(Codec.KINEMATICS, MotionFields(m), 1, I16, m.velE)
    ensures Slot(Codec.KINEMATICS, MotionFields(m), 2, U16, m.posStd)
    ensures Slot(Codec.KINEMATICS, MotionFields(m), 3, U16, m.hdgStd)
    ensures Slot(Codec.KINEMATICS, MotionFields(m), 4, U8, m.ekfFlags)
  {
  }

  method PutTrailer(buf: array<byte>, off: nat, motion: Option<Motion>) returns (next: nat)
    requires off + 9 <= buf.Length
    modifies buf
    ensures next == off + if motion.Some? then 9 else 0
    ensures buf[..next] == old(buf[..off]) + TrailerBytes(motion)
  {
    hide Pack, Written, AllFit, Slot, MotionFields;
    next := off;
    if motion.Some? {
      var m := motion.value;
      ghost var head, fmt, vs := buf[..off], Codec.KINEMATICS, MotionFields(m);
      MotionFits(m);
      MotionSlots(m);
      NothingWritten(head, fmt, vs);
      next := PutField(buf, off, I16, m.velN, head, fmt, vs, 0);
      next := PutField(buf, next, I16, m.velE, head, fmt, vs, 1);
      next := PutField(buf, next, U16, m.posStd, head, fmt, vs, 2);
      next := PutField(buf, next, U16, m.hdgStd, head, fmt, vs, 3);
      next := PutField(buf, next, U8, m.ekfFlags, head, fmt, vs, 4);
      AllWritten(buf[..next], head, fmt, vs);
    } else {
      Sequences.Empty(buf[..off]);
    }
  }

  lemma TrailerRead(m: Option<Motion>)
    ensures Codec.UnpackTrailer(TrailerBytes(m))
            == match m { case None => None
                         case Some(v) => Some(Codec.Kinematics(v.velN, v.velE, v.posStd, v.hdgStd, v.ekfFlags)) }
  {
    hide Pack, Take, AllFit;
    match m
    case None =>
      Codec.NoTrailer([]);
      Sequences.Empty<byte>([]);
    case Some(v) =>
      MotionFits(v);
      TakePack(Codec.KINEMATICS, MotionFields(v), []);
      Sequences.Empty(TrailerBytes(m));
  }

  ghost function FixedBytes(snap: Snapshot): seq<byte> {
    FixedFit(snap);
    Pack(Codec.TELEMETRY, FixedFields(snap))
  }

  ghost function ReadingsBytes(samples: seq<Sample>): seq<byte>
    requires |samples| <= MAX_READINGS && Codec.PackReadings(Readings(samples)).Ok?
  {
    [|samples|] + Codec.PackReadings(Readings(samples)).value
  }

  /** The host reads the body back. */
  lemma SnapshotRead(snap: Snapshot)
    requires |snap.readings| <= MAX_READINGS && Codec.PackReadings(Readings(snap.readings)).Ok?
    ensures Codec.UnpackBody(0x02, FixedBytes(snap) + (ReadingsBytes(snap.readings) + TrailerBytes(snap.motion)))
            == Ok(Some(Reported(snap)))
  {
    hide Codec.PackReadings, Codec.TakeReadings, Codec.UnpackTelemetry, TrailerBytes, FixedBytes, Reported, Readings;
    var rs, n, trailer := Readings(snap.readings), |snap.readings|, TrailerBytes(snap.motion);
    var readings := Codec.PackReadings(rs).value;
    Sequences.Assoc([n], readings, trailer);
    ReadingsCount(snap.readings);
    Codec.ReadingsTrip(rs, trailer);
    TelemetryRead(snap, FixedBytes(snap) + ([n] + (readings + trailer)), readings + trailer, trailer);
    AsReported(snap);
  }

  lemma ReadingsCount(samples: seq<Sample>)
    ensures |Readings(samples)| == |samples|
  {
  }

  lemma AsReported(snap: Snapshot)
    ensures Reported(snap)
            == Codec.Telemetry(snap.status, snap.posSource, snap.lat, snap.lon, snap.alt, snap.heading, snap.battery,
                               snap.quality, Readings(snap.readings), Codec.UnpackTrailer(TrailerBytes(snap.motion)))
  {
    hide Readings, TrailerBytes, Codec.UnpackTrailer;
    TrailerRead(snap.motion);
  }

  /** The fixed fields and the count, before whatever the readings and the trailer turn out to be. */
  lemma TelemetryRead(snap: Snapshot, body: seq<byte>, rest: seq<byte>, trailer: seq<byte>)
    requires |snap.readings| <= MAX_READINGS && body == FixedBytes(snap) + ([|snap.readings|] + rest)
    requires Codec.TakeReadings(rest, |snap.readings|) == Ok(Taken(Readings(snap.readings), trailer))
    ensures Codec.UnpackTelemetry(body)
            == Ok(Codec.Telemetry(snap.status, snap.posSource, snap.lat, snap.lon, snap.alt, snap.heading, snap.battery,
                                  snap.quality, Readings(snap.readings), Codec.UnpackTrailer(trailer)))
  {
    hide Pack, Take, AllFit, Codec.TakeReadings, Codec.UnpackTrailer, Codec.TakeByte, Readings;
    FixedFit(snap);
    TakePack(Codec.TELEMETRY, FixedFields(snap), [|snap.readings|] + rest);
    Codec.TakeOne(|snap.readings|, rest);
  }

  /** `build_telemetry`: at most 84 bytes, which the host decodes to the snapshot. */
  method BuildTelemetry(buf: array<byte>, snap: Snapshot, flags: byte, eui: array<byte>, seqNo: u32) returns (n: nat)
    requires buf.Length == SerialLink.MAX_FRAME && eui.Length == Codec.EUI_LEN && eui != buf
    requires |snap.readings| <= MAX_READINGS
    modifies buf
    ensures 35 <= n <= 84
    ensures Codec.Decode(buf[..n]) == Ok(Some(Codec.Message(eui[..], seqNo, flags, Reported(snap))))
  {
    hide Pack, AllFit, Codec.PackReadings, Codec.Decode, Codec.PackHeader, Codec.UnpackBody, TrailerBytes, Reported,
         Readings, FixedFields;
    var off := HdrWrite(buf, 0x02, flags, eui, seqNo);
    ghost var h := Codec.Header(0x02, eui[..], seqNo, flags);
    ghost var header := buf[..off];
    assert header == Codec.PackHeader(h).value;
    off := PutFixed(buf, off, snap);
    off := PutReadings(buf, off, snap.readings);
    n := PutTrailer(buf, off, snap.motion);
    SnapshotRead(snap);
    ghost var fixed, readings, trailer := FixedBytes(snap), ReadingsBytes(snap.readings), TrailerBytes(snap.motion);
    Sequences.Assoc(header, fixed, readings);
    Sequences.Assoc(header, fixed + readings, trailer);
    Sequences.Assoc(fixed, readings, trailer);
    Heard(h, fixed + (readings + trailer), Reported(snap));
  }

  // ---------------------------------------------------------------- HELLO

  /** What a node says of itself; the two names fit their fields. */
  datatype Self = Self(role: byte, mount: byte, sensors: u16, fwVersion: u16, battery: byte, uptime: u32,
                       name: seq<byte>, attachedTo: seq<byte>, capabilities: u16)

  predicate NamesFit(node: Self) {
    |node.name| <= 24 && |node.attachedTo| <= 32
  }

  function Introduced(node: Self): (b: Codec.Body)
    ensures b.Hello?
  {
    Codec.Hello(node.role, node.mount, node.sensors, node.fwVersion, node.battery, node.uptime, node.name,
                node.attachedTo, node.capabilities)
  }

  lemma SelfFits(node: Self)
    ensures AllFit(Codec.HELLO, Codec.HelloFields(Introduced(node))) && Size(Codec.HELLO) == 11
  {
    Spans();
    var f := Codec.HELLO;
    assert f[1..][1..][1..][1..][1..][1..] == [];
    assert Size(f[1..][1..][1..][1..][1..]) == 4;
    assert Size(f[1..][1..][1..][1..]) == 5;
    assert Size(f[1..][1..][1..]) == 7;
    assert Size(f[1..][1..]) == 9;
    assert Size(f[1..]) == 10;
  }

  ghost function SelfBytes(node: Self): (r: seq<byte>)
    ensures |r| == 11
  {
    SelfFits(node);
    Pack(Codec.HELLO, Codec.HelloFields(Introduced(node)))
  }

  lemma CapabilitiesFit(node: Self)
    ensures AllFit([U16], [node.capabilities]) && Size([U16]) == 2
  {
    Spans();
    assert Size([U16][1..]) == 0;
  }

  ghost function CapabilityBytes(node: Self): (r: seq<byte>)
    ensures |r| == 2
  {
    CapabilitiesFit(node);
    Pack([U16], [node.capabilities])
  }

  lemma SelfSlots(node: Self)
    ensures Slot(Codec.HELLO, Codec.HelloFields(Introduced(node)), 0, U8, node.role)
    ensures Slot(Codec.HELLO, Codec.HelloFields(Introduced(node)), 1, U8, node.mount)
    ensures Slot(Codec.HELLO, Codec.HelloFields(Introduced(node)), 2, U16, node.sensors)
    ensures Slot(Codec.HELLO, Codec.HelloFields(Introduced(node)), 3, U16, node.fwVersion)
    ensures Slot(Codec.HELLO, Codec.HelloFields(Introduced(node)), 4, U8, node.battery)
    ensures Slot(Codec.HELLO, Codec.HelloFields(Introduced(node)), 5, U32, node.uptime)
  {
  }

  method PutSelf(buf: array<byte>, off: nat, node: Self) returns (next: nat)
    requires off + 11 <= buf.Length
    modifies buf
    ensures next == off + 11 && buf[..next] == old(buf[..off]) + SelfBytes(node)
  {
    hide Pack, Written, AllFit, Introduced, Codec.HelloFields;
    ghost var head, fmt, vs := buf[..off], Codec.HELLO, Codec.HelloFields(Introduced(node));
    SelfFits(node);
    NothingWritten(head, fmt, vs);
    next := PutKind(buf, off, node, head);
    next := PutVersion(buf, next, node, head);
    AllWritten(buf[..next], head, fmt, vs);
  }

  /** Role, mount and sensors. */
  method PutKind(buf: array<byte>, off: nat, node: Self, ghost head: seq<byte>) returns (next: nat)
    requires off + 4 <= buf.Length
    requires Written(buf[..off], head, Codec.HELLO, Codec.HelloFields(Introduced(node)), 0)
    modifies buf
    ensures next == off + 4 && Written(buf[..next], head, Codec.HELLO, Codec.HelloFields(Introduced(node)), 3)
  {
    hide Pack, Written, AllFit, Slot, Introduced, Codec.HelloFields;
    ghost var fmt, vs := Codec.HELLO, Codec.HelloFields(Introduced(node));
    SelfSlots(node);
    next := PutField(buf, off, U8, node.role, head, fmt, vs, 0);
    next := PutField(buf, next, U8, node.mount, head, fmt, vs, 1);
    next := PutField(buf, next, U16, node.sensors, head, fmt, vs, 2);
  }

  /** Version, battery and uptime. */
  method PutVersion(buf: array<byte>, off: nat, node: Self, ghost head: seq<byte>) returns (next: nat)
    requires off + 7 <= buf.Length
    requires Written(buf[..off], head, Codec.HELLO, Codec.HelloFields(Introduced(node)), 3)
    modifies buf
    ensures next == off + 7 && Written(buf[..next], head, Codec.HELLO, Codec.HelloFields(Introduced(node)), 6)
  {
    hide Pack, Written, AllFit, Slot, Introduced, Codec.HelloFields;
    ghost var fmt, vs := Codec.HELLO, Codec.HelloFields(Introduced(node));
    SelfSlots(node);
    next := PutField(buf, off, U16, node.fwVersion, head, fmt, vs, 3);
    next := PutField(buf, next, U8, node.battery, head, fmt, vs, 4);
    next := PutField(buf, next, U32, node.uptime, head, fmt, vs, 5);
  }

  /** A name behind its length. */
  method PutText(buf: array<byte>, off: nat, s: seq<byte>) returns (next: nat)
    requires |s| < 0x100 && off + 1 + |s| <= buf.Length
    modifies buf
    ensures next == off + 1 + |s| && buf[..next] == old(buf[..off]) + ([|s|] + s)
  {
    buf[off] := |s|;
    ghost var before := buf[..off];
    assert buf[..off + 1] == before + [|s|];
    next := CopyBytes(buf, off + 1, s);
    Sequences.Assoc(before, [|s|], s);
  }

  method PutCapabilities(buf: array<byte>, off: nat, node: Self) returns (next: nat)
    requires off + 2 <= buf.Length
    modifies buf
    ensures next == off + 2 && buf[..next] == old(buf[..off]) + CapabilityBytes(node)
  {
    hide Pack, Written, AllFit;
    ghost var head, vs := buf[..off], [node.capabilities];
    CapabilitiesFit(node);
    NothingWritten(head, [U16], vs);
    next := PutField(buf, off, U16, node.capabilities, head, [U16], vs, 0);
    AllWritten(buf[..next], head, [U16], vs);
  }

  lemma SelfRead(node: Self)
    requires NamesFit(node)
    ensures var names := ([|node.name|] + node.name) + ([|node.attachedTo|] + node.attachedTo);
            Codec.UnpackBody(0x01, SelfBytes(node) + names + CapabilityBytes(node)) == Ok(Some(Introduced(node)))
  {
    hide Pack, Take, AllFit, Codec.UnpackHello;
    SelfFits(node);
    CapabilitiesFit(node);
    var name, attached := [|node.name|] + node.name, [|node.attachedTo|] + node.attachedTo;
    assert node.name[..|node.name|] == node.name && node.attachedTo[..|node.attachedTo|] == node.attachedTo;
    assert Codec.Str(node.name, 24) == name && Codec.Str(node.attachedTo, 32) == attached;
    Codec.HelloTrip(Introduced(node), []);
    Sequences.Assoc(SelfBytes(node), name + attached, CapabilityBytes(node));
    Sequences.Assoc(name, attached, CapabilityBytes(node));
    Sequences.Empty(SelfBytes(node) + (name + (attached + CapabilityBytes(node))));
  }

  /** `swarm_coap_send_hello` up to sending: at most 87 bytes, which the host decodes to the node itself. */
  method BuildHello(buf: array<byte>, node: Self, flags: byte, eui: array<byte>, seqNo: u32) returns (n: nat)
    requires buf.Length == SerialLink.MAX_FRAME && eui.Length == Codec.EUI_LEN && eui != buf && NamesFit(node)
    modifies buf
    ensures 31 <= n <= 87
    ensures Codec.Decode(buf[..n]) == Ok(Some(Codec.Message(eui[..], seqNo, flags, Introduced(node))))
  {
    hide Pack, AllFit, Codec.Decode, Codec.PackHeader, Codec.UnpackBody, SelfBytes, CapabilityBytes, Introduced;
    var off := HdrWrite(buf, 0x01, flags, eui, seqNo);
    ghost var h := Codec.Header(0x01, eui[..], seqNo, flags);
    ghost var header := buf[..off];
    assert header == Codec.PackHeader(h).value;
    off := PutSelf(buf, off, node);
    off := PutText(buf, off, node.name);
    off := PutText(buf, off, node.attachedTo);
    n := PutCapabilities(buf, off, node);
    SelfRead(node);
    ghost var name, attached := [|node.name|] + node.name, [|node.attachedTo|] + node.attachedTo;
    Joined(header, SelfBytes(node), name, attached, CapabilityBytes(node));
    Heard(h, SelfBytes(node) + (name + attached) + CapabilityBytes(node), Introduced(node));
  }

  lemma Joined<T>(a: seq<T>, b: seq<T>, c: seq<T>, d: seq<T>, e: seq<T>)
    ensures a + b + c + d + e == a + (b + (c + d) + e)
  {
  }

  // ---------------------------------------------------------------- NEIGHBORS

  /** An entry of the radio's neighbor table: link quality runs from 0 to 3. */
  datatype Neighbor = Neighbor(eui: seq<byte>, rssi: i8, rangeCm: u16, quality: byte)

  /** How many entries there is room for. */
  const MOST_LINKS: nat := 19

  function LinkOf(nbr: Neighbor): Codec.Link {
    Codec.Link(nbr.eui, nbr.rssi, nbr.rangeCm, nbr.quality * 85 % 0x100)
  }

  function Links(nbrs: seq<Neighbor>): (ls: seq<Codec.Link>)
    ensures |ls| == |nbrs| && forall i :: 0 <= i < |nbrs| ==> ls[i] == LinkOf(nbrs[i])
  {
    seq(|nbrs|, i requires 0 <= i < |nbrs| => LinkOf(nbrs[i]))
  }

  predicate AllEuis(nbrs: seq<Neighbor>) {
    forall i :: 0 <= i < |nbrs| ==> |nbrs[i].eui| == Codec.EUI_LEN
  }

  ghost function LinkFields(l: Codec.Link): seq<int> {
    [l.rssi, l.rangeCm, l.quality]
  }

  lemma LinkFits(nbr: Neighbor)
    ensures AllFit(Codec.LINK, LinkFields(LinkOf(nbr))) && Size(Codec.LINK) == 4
  {
    Spans();
    assert Size(Codec.LINK[1..][1..][1..]) == 0;
    assert Size(Codec.LINK[1..][1..]) == 1;
    assert Size(Codec.LINK[1..]) == 3;
  }

  ghost function LinkBytes(nbr: Neighbor): seq<byte> {
    LinkFits(nbr);
    nbr.eui + Pack(Codec.LINK, LinkFields(LinkOf(nbr)))
  }

  lemma {:induction false} LinksSnoc(ls: seq<Codec.Link>, nbr: Neighbor)
    requires Codec.PackLinks(ls).Ok?
    ensures Codec.PackLinks(ls + [LinkOf(nbr)]) == Ok(Codec.PackLinks(ls).value + LinkBytes(nbr))
    decreases |ls|
  {
    hide Pack, AllFit;
    var l := LinkOf(nbr);
    LinkFits(nbr);
    if ls == [] {
      assert ([] + [l])[1..] == [];
      Sequences.Empty(Pack(Codec.LINK, LinkFields(l)));
      Sequences.Empty(LinkBytes(nbr));
    } else {
      LinksSnoc(ls[1..], nbr);
      assert (ls + [l])[1..] == ls[1..] + [l];
      var first := Codec.TryPack(Codec.LINK, LinkFields(ls[0])).value;
      var later := Codec.PackLinks(ls[1..]).value;
      Sequences.Assoc(first, later, LinkBytes(nbr));
      Sequences.Assoc(ls[0].eui, first + later, LinkBytes(nbr));
    }
  }

  method PutLink(buf: array<byte>, off: nat, nbr: Neighbor) returns (next: nat)
    requires off + 12 <= buf.Length && |nbr.eui| == Codec.EUI_LEN
    modifies buf
    ensures next == off + 12 && buf[..next] == old(buf[..off]) + LinkBytes(nbr)
  {
    hide Pack, Written, AllFit;
    next := CopyBytes(buf, off, nbr.eui);
    ghost var head, fmt, vs := buf[..next], Codec.LINK, LinkFields(LinkOf(nbr));
    LinkFits(nbr);
    NothingWritten(head, fmt, vs);
    next := PutField(buf, next, I8, nbr.rssi, head, fmt, vs, 0);
    next := PutField(buf, next, U16, nbr.rangeCm, head, fmt, vs, 1);
    next := PutField(buf, next, U8, nbr.quality * 85 % 0x100, head, fmt, vs, 2);
    AllWritten(buf[..next], head, fmt, vs);
    Sequences.Assoc(old(buf[..off]), nbr.eui, Pack(fmt, vs));
  }

  /** What fits of the neighbor table. */
  function Room(nbrs: seq<Neighbor>): (sent: seq<Neighbor>)
    ensures |sent| <= MOST_LINKS
  {
    nbrs[..Min(|nbrs|, MOST_LINKS)]
  }

  lemma NoLinks()
    ensures Codec.PackLinks([]) == Ok([])
  {
  }

  lemma NextLink(nbrs: seq<Neighbor>, i: nat, head: seq<byte>)
    requires i < |nbrs| && Codec.PackLinks(Links(nbrs[..i])).Ok?
    ensures Codec.PackLinks(Links(nbrs[..i + 1])).Ok?
    ensures head + Codec.PackLinks(Links(nbrs[..i])).value + LinkBytes(nbrs[i])
            == head + Codec.PackLinks(Links(nbrs[..i + 1])).value
  {
    hide LinkBytes, Codec.PackLinks, LinkOf;
    LinksSnoc(Links(nbrs[..i]), nbrs[i]);
    assert Links(nbrs[..i + 1]) == Links(nbrs[..i]) + [LinkOf(nbrs[i])];
    Sequences.Assoc(head, Codec.PackLinks(Links(nbrs[..i])).value, LinkBytes(nbrs[i]));
  }

  /** The entries one after another while there is room, twelve bytes each. */
  method PutLinks(buf: array<byte>, off: nat, nbrs: seq<Neighbor>) returns (next: nat, count: byte)
    requires buf.Length == SerialLink.MAX_FRAME && off == Codec.HDR_LEN + 1 && AllEuis(nbrs)
    modifies buf
    ensures count == |Room(nbrs)| && next == off + 12 * count
    ensures Codec.PackLinks(Links(Room(nbrs))).Ok?
    ensures buf[..next] == old(buf[..off]) + Codec.PackLinks(Links(Room(nbrs))).value
  {
    hide LinkBytes, Codec.PackLinks, LinkOf;
    ghost var before := buf[..off];
    next, count := off, 0;
    NoLinks();
    Sequences.Empty(before);
    assert Links(nbrs[..0]) == [];
    while count < |nbrs| && next + 12 <= buf.Length
      invariant count <= Min(|nbrs|, MOST_LINKS) && next == off + 12 * count
      invariant Codec.PackLinks(Links(nbrs[..count])).Ok?
      invariant buf[..next] == before + Codec.PackLinks(Links(nbrs[..count])).value
    {
      next := PutLink(buf, next, nbrs[count]);
      NextLink(nbrs, count, before);
      count := count + 1;
    }
  }

  lemma LinksRead(nbrs: seq<Neighbor>)
    requires AllEuis(nbrs) && |nbrs| <= MOST_LINKS && Codec.PackLinks(Links(nbrs)).Ok?
    ensures Codec.UnpackBody(0x03, [|nbrs|] + Codec.PackLinks(Links(nbrs)).value)
            == Ok(Some(Codec.Neighbors(Links(nbrs))))
  {
    hide Codec.PackLinks, Codec.UnpackNeighbors;
    Codec.NeighborsTrip(Codec.Neighbors(Links(nbrs)), []);
    Sequences.Empty([|nbrs|] + Codec.PackLinks(Links(nbrs)).value);
  }

  lemma CountPatched(header: seq<byte>, links: seq<byte>, count: byte)
    requires |header| == Codec.HDR_LEN
    ensures (header + [0] + links)[Codec.HDR_LEN := count] == header + ([count] + links)
  {
    Sequences.SetAt(header, 0, links, count);
  }

  /** `swarm_coap_send_neighbors` up to sending: at most 245 bytes, which the host decodes to the first
      nineteen entries of the table. */
  method BuildNeighbors(buf: array<byte>, nbrs: seq<Neighbor>, flags: byte, eui: array<byte>, seqNo: u32)
    returns (n: nat)
    requires buf.Length == SerialLink.MAX_FRAME && eui.Length == Codec.EUI_LEN && eui != buf && AllEuis(nbrs)
    modifies buf
    ensures 17 <= n <= 245
    ensures var sent := nbrs[..if |nbrs| < 19 then |nbrs| else 19];
            Codec.Decode(buf[..n]) == Ok(Some(Codec.Message(eui[..], seqNo, flags, Codec.Neighbors(Links(sent)))))
  {
    hide AllFit, Codec.Decode, Codec.PackHeader, Codec.UnpackBody, Codec.PackLinks, Links;
    var off := HdrWrite(buf, 0x03, flags, eui, seqNo);
    ghost var h := Codec.Header(0x03, eui[..], seqNo, flags);
    ghost var header := buf[..off];
    assert header == Codec.PackHeader(h).value;
    buf[off] := 0;
    assert buf[..off + 1] == header + [0];
    var count: byte;
    n, count := PutLinks(buf, off + 1, nbrs);
    ghost var written := buf[..n];
    buf[off] := count;
    assert buf[..n] == written[off := count];
    ghost var links := Codec.PackLinks(Links(Room(nbrs))).value;
    CountPatched(header, links, count);
    LinksRead(Room(nbrs));
    Heard(h, [count] + links, Codec.Neighbors(Links(Room(nbrs))));
  }

  // ---------------------------------------------------------------- over the serial link

  /** A snapshot built and sent up the serial link: the host's reader delivers one payload, and the host
      decodes it to the snapshot. */
  method SendTelemetry(snap: Snapshot, flags: byte, eui: array<byte>, seqNo: u32)
    returns (framed: array<byte>, n: nat)
    requires eui.Length == Codec.EUI_LEN && |snap.readings| <= MAX_READINGS
    ensures fresh(framed) && n <= framed.Length
    ensures var s := Framing.Scan(framed[..n]);
            && |s.payloads| == 1 && s.rest == []
            && Codec.Decode(s.payloads[0]) == Ok(Some(Codec.Message(eui[..], seqNo, flags, Reported(snap))))
  {
    hide Codec.Decode, Framing.Frame, Framing.Scan, Reported;
    var buf := new byte[SerialLink.MAX_FRAME];
    var len := BuildTelemetry(buf, snap, flags, eui, seqNo);
    framed, n := SerialLink.SerialLinkSend(buf, len);
    AloneOnWire(buf[..len]);
  }

  lemma AloneOnWire(payload: seq<byte>)
    ensures Framing.Scan(Framing.Frame(payload)) == Framing.Scanned([payload], [])
  {
    hide Framing.Frame;
    Framing.FrameDelivered(payload, []);
    Sequences.Empty(Framing.Frame(payload));
    Sequences.Empty([payload]);
  }
}

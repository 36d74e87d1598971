/** The ten swarm messages and their wire form (swarm_proto.py). Quantities that the source
    keeps as floats appear here as the integers they are rounded to before packing; an f32
    reading is its 32-bit pattern; text is its UTF-8 bytes. */
module Codec {
  import opened Wrappers
  import opened Bits
  import opened Struct
  import Sequences

  const MAGIC: int := 0x53
  const VERSION: int := 0x01
  const HDR_LEN: nat := 16
  const EUI_LEN: nat := 8

  const PREFIX: Format := [U8, U8, U8, U8]
  const HELLO: Format := [U8, U8, U16, U16, U8, U32]
  const TELEMETRY: Format := [U8, U8, I32, I32, I32, U16, U8, U8]
  const READING: Format := [U8, U32]
  const KINEMATICS: Format := [I16, I16, U16, U16, U8]
  const LINK: Format := [I8, U16, U8]
  const TIMES: Format := [U32, U32, U32]
  const POSE: Format := [I32, I32, I32, U16, I16, I16, U16, U16, U8, U32]

  type Id = seq<byte>

  datatype Reading = Reading(channel: int, bits: int)

  datatype Kinematics = Kinematics(velN: int, velE: int, posStd: int, hdgStd: int, ekfFlags: int)

  datatype Link = Link(eui: Id, rssi: int, rangeCm: int, quality: int)

  datatype Body =
    | Hello(role: int, mount: int, sensors: int, fwVersion: int, battery: int, uptime: int,
            name: seq<byte>, attachedTo: seq<byte>, capabilities: int)
    | Telemetry(status: int, posSource: int, lat: int, lon: int, alt: int, heading: int,
                batteryPct: int, posQuality: int, readings: seq<Reading>, kinematics: Option<Kinematics>)
    | Neighbors(links: seq<Link>)
    | RangeReq(target: Id, t1: int)
    | RangeResp(initiator: Id, t1: int, t2: int, t3: int)
    | PoseInject(lat: int, lon: int, alt: int, heading: int, pose: Kinematics, tsMs: int)
    | MeshSend(payload: seq<byte>)
    | Route(primary: Id, secondary: Id, roleOverride: int, subscriptions: seq<Id>)
    | Cmd(op: int, params: seq<byte>)
    | Broadcast(op: int, params: seq<byte>)

  datatype Message = Message(eui: Id, seqNo: int, flags: int, body: Body)

  datatype Header = Header(msgType: int, eui: Id, seqNo: int, flags: int)

  // ---------------------------------------------------------------- small encoders

  /** `struct.pack`, which raises on a value out of range. */
  function TryPack(fmt: Format, vs: seq<int>): Result<seq<byte>> {
    if AllFit(fmt, vs) then Ok(Pack(fmt, vs)) else Err
  }

  /** `bytes([n])`, which raises unless n is a byte. */
  function TryByte(n: int): Result<seq<byte>> {
    if 0 <= n < 256 then Ok([n]) else Err
  }

  function TakeByte(data: seq<byte>): Result<Taken<byte>> {
    if data == [] then Err else Ok(Taken(data[0], data[1..]))
  }

  function Clamp(v: int, lo: int, hi: int): int {
    if v < lo then lo else if v > hi then hi else v
  }

  /** `_pack_str`: cut to length, then length-prefixed. */
  function Str(s: seq<byte>, limit: byte): seq<byte> {
    var raw := s[..Min(limit, |s|)];
    [|raw|] + raw
  }

  function TakeStr(data: seq<byte>): Result<Taken<seq<byte>>> {
    var n :- TakeByte(data);
    Ok(TakeUpTo(n.rest, n.value))
  }

  /** The `8s` code of `struct.pack`: cut or zero-padded to eight bytes. */
  function Pad8(e: Id): (r: Id)
    ensures |r| == EUI_LEN
    ensures |e| == EUI_LEN ==> r == e
  {
    if |e| >= EUI_LEN then e[..EUI_LEN] else e + seq(EUI_LEN - |e|, _ => 0)
  }

  lemma TakeOne(b: byte, rest: seq<byte>)
    ensures TakeByte([b] + rest) == Ok(Taken(b, rest))
  {
    Sequences.Parts([b], rest);
  }

  lemma StrTrip(s: seq<byte>, limit: byte, rest: seq<byte>)
    ensures TakeStr(Str(s, limit) + rest) == Ok(Taken(s[..Min(limit, |s|)], rest))
  {
    var raw := s[..Min(limit, |s|)];
    Sequences.Assoc([|raw|], raw, rest);
    TakeOne(|raw|, raw + rest);
    TakeUpToExact(raw, rest);
  }

  lemma PackTrip(fmt: Format, vs: seq<int>, rest: seq<byte>)
    requires TryPack(fmt, vs).Ok?
    ensures Take(fmt, TryPack(fmt, vs).value + rest) == Ok(Taken(vs, rest))
  {
    TakePack(fmt, vs, rest);
  }

  // ---------------------------------------------------------------- header

  function PackHeader(h: Header): Result<seq<byte>> {
    var prefix :- TryPack(PREFIX, [MAGIC, VERSION, h.msgType, h.flags]);
    var number :- TryPack([U32], [h.seqNo]);
    Ok(prefix + (Pad8(h.eui) + number))
  }

  /** A newer version than ours is refused, an older one accepted. */
  function UnpackHeader(data: seq<byte>): Result<Header> {
    if |data| < HDR_LEN then Err
    else
      var prefix :- Take(PREFIX, data);
      var eui := TakeUpTo(prefix.rest, EUI_LEN);
      var number :- Take([U32], eui.rest);
      var v := prefix.value;
      if v[0] != MAGIC || v[1] > VERSION then Err
      else Ok(Header(v[2], eui.value, number.value[0], v[3]))
  }

  lemma HeaderLength(h: Header)
    requires PackHeader(h).Ok?
    ensures |PackHeader(h).value| == HDR_LEN
  {
    HeaderSizes();
  }

  lemma HeaderTrip(h: Header, rest: seq<byte>)
    requires PackHeader(h).Ok?
    ensures UnpackHeader(PackHeader(h).value + rest) == Ok(h.(eui := Pad8(h.eui)))
  {
    hide TryPack, Take, Pad8;
    HeaderLength(h);
    var vs := [MAGIC, VERSION, h.msgType, h.flags];
    var prefix, number := TryPack(PREFIX, vs).value, TryPack([U32], [h.seqNo]).value;
    Sequences.Assoc(prefix, Pad8(h.eui) + number, rest);
    Sequences.Assoc(Pad8(h.eui), number, rest);
    PackTrip(PREFIX, vs, Pad8(h.eui) + (number + rest));
    TakeUpToExact(Pad8(h.eui), number + rest);
    PackTrip([U32], [h.seqNo], rest);
  }

  lemma HeaderSizes()
    ensures Size(PREFIX) == 4 && Size([U32]) == 4
  {
    assert Size([U32][1..]) == 0;
    assert PREFIX[1..][1..][1..][1..] == [];
    assert Size(PREFIX[1..][1..][1..]) == 1;
    assert Size(PREFIX[1..][1..]) == 2;
    assert Size(PREFIX[1..]) == 3;
  }

  // ---------------------------------------------------------------- HELLO

  function PackHello(b: Body): Result<seq<byte>>
    requires b.Hello?
  {
    var fixed :- TryPack(HELLO, HelloFields(b));
    var caps :- TryPack([U16], [b.capabilities]);
    Ok(fixed + (Str(b.name, 24) + (Str(b.attachedTo, 32) + caps)))
  }

  function HelloFields(b: Body): seq<int>
    requires b.Hello?
  {
    [b.role, b.mount, b.sensors, b.fwVersion, b.battery, b.uptime]
  }

  function UnpackHello(data: seq<byte>): Result<Body> {
    var fixed :- Take(HELLO, data);
    var name :- TakeStr(fixed.rest);
    var attached :- TakeStr(name.rest);
    var caps := Take([U16], attached.rest);
    var v := fixed.value;
    Ok(Hello(v[0], v[1], v[2], v[3], v[4], v[5], name.value, attached.value,
             if caps.Ok? then caps.value.value[0] else 0))
  }

  lemma HelloTrip(b: Body, extra: seq<byte>)
    requires b.Hello? && PackHello(b).Ok?
    ensures UnpackHello(PackHello(b).value + extra) == Ok(Normal(b))
  {
    hide TryPack, Take, Str, TakeStr;
    var fixed, caps := TryPack(HELLO, HelloFields(b)).value, TryPack([U16], [b.capabilities]).value;
    var name, attached := Str(b.name, 24), Str(b.attachedTo, 32);
    Sequences.Assoc(fixed, name + (attached + caps), extra);
    Sequences.Assoc(name, attached + caps, extra);
    Sequences.Assoc(attached, caps, extra);
    PackTrip(HELLO, HelloFields(b), name + (attached + (caps + extra)));
    StrTrip(b.name, 24, attached + (caps + extra));
    StrTrip(b.attachedTo, 32, caps + extra);
    PackTrip([U16], [b.capabilities], extra);
  }

  // ---------------------------------------------------------------- TELEMETRY

  function PackReadings(rs: seq<Reading>): Result<seq<byte>> {
    if rs == [] then Ok([])
    else
      var first :- TryPack(READING, [rs[0].channel, rs[0].bits]);
      var later :- PackReadings(rs[1..]);
      Ok(first + later)
  }

  function TakeReadings(data: seq<byte>, count: nat): Result<Taken<seq<Reading>>>
    decreases count
  {
    if count == 0 then Ok(Taken([], data))
    else
      var first :- Take(READING, data);
      var later :- TakeReadings(first.rest, count - 1);
      Ok(Taken([Reading(first.value[0], first.value[1])] + later.value, later.rest))
  }

  lemma {:induction false} ReadingsTrip(rs: seq<Reading>, rest: seq<byte>)
    requires PackReadings(rs).Ok?
    ensures TakeReadings(PackReadings(rs).value + rest, |rs|) == Ok(Taken(rs, rest))
    decreases |rs|
  {
    if rs == [] {
      Sequences.Empty(rest);
    } else {
      var vs := [rs[0].channel, rs[0].bits];
      var first, later := TryPack(READING, vs).value, PackReadings(rs[1..]).value;
      Sequences.Assoc(first, later, rest);
      PackTrip(READING, vs, later + rest);
      ReadingsTrip(rs[1..], rest);
      assert [rs[0]] + rs[1..] == rs;
    }
  }

  /** Velocities, deviations and flags forced into their fields before packing. */
  function Bounded(k: Kinematics): Kinematics {
    Kinematics(Clamp(k.velN, -32768, 32767), Clamp(k.velE, -32768, 32767),
               Clamp(k.posStd, 0, 65535), Clamp(k.hdgStd, 0, 65535), k.ekfFlags % 256)
  }

  function KinFields(k: Kinematics): seq<int> {
    [k.velN, k.velE, k.posStd, k.hdgStd, k.ekfFlags]
  }

  function PackTrailer(k: Option<Kinematics>): Result<seq<byte>> {
    if k.None? then Ok([]) else TryPack(KINEMATICS, KinFields(Bounded(k.value)))
  }

  function UnpackTrailer(data: seq<byte>): Option<Kinematics> {
    match Take(KINEMATICS, data)
    case Ok(t) => Some(Kinematics(t.value[0], t.value[1], t.value[2], t.value[3], t.value[4]))
    case Err => None
  }

  function TelemetryFields(b: Body): seq<int>
    requires b.Telemetry?
  {
    [b.status, b.posSource, b.lat, b.lon, b.alt, b.heading % 36000, b.batteryPct, b.posQuality]
  }

  function PackTelemetry(b: Body): Result<seq<byte>>
    requires b.Telemetry?
  {
    var fixed :- TryPack(TELEMETRY, TelemetryFields(b));
    var count :- TryByte(|b.readings|);
    var readings :- PackReadings(b.readings);
    var trailer :- PackTrailer(b.kinematics);
    Ok(fixed + (count + (readings + trailer)))
  }

  function UnpackTelemetry(data: seq<byte>): Result<Body> {
    var fixed :- Take(TELEMETRY, data);
    var count :- TakeByte(fixed.rest);
    var readings :- TakeReadings(count.rest, count.value);
    var v := fixed.value;
    Ok(Telemetry(v[0], v[1], v[2], v[3], v[4], v[5], v[6], v[7], readings.value, UnpackTrailer(readings.rest)))
  }

  lemma TelemetryTrip(b: Body, extra: seq<byte>)
    requires b.Telemetry? && PackTelemetry(b).Ok?
    ensures PackTrailer(b.kinematics).Ok?
    ensures UnpackTelemetry(PackTelemetry(b).value + extra)
            == Ok(b.(heading := b.heading % 36000,
                     kinematics := UnpackTrailer(PackTrailer(b.kinematics).value + extra)))
  {
    hide TryPack, Take, PackReadings, TakeReadings, PackTrailer, UnpackTrailer, TakeByte;
    var fixed, n := TryPack(TELEMETRY, TelemetryFields(b)).value, |b.readings|;
    var readings, trailer := PackReadings(b.readings).value, PackTrailer(b.kinematics).value;
    Sequences.Assoc(fixed, [n] + (readings + trailer), extra);
    Sequences.Assoc([n], readings + trailer, extra);
    Sequences.Assoc(readings, trailer, extra);
    PackTrip(TELEMETRY, TelemetryFields(b), [n] + (readings + (trailer + extra)));
    TakeOne(n, readings + (trailer + extra));
    ReadingsTrip(b.readings, trailer + extra);
  }

  lemma TrailerTrip(k: Kinematics, extra: seq<byte>)
    requires PackTrailer(Some(k)).Ok?
    ensures UnpackTrailer(PackTrailer(Some(k)).value + extra) == Some(Bounded(k))
  {
    hide TryPack, Take, Bounded;
    PackTrip(KINEMATICS, KinFields(Bounded(k)), extra);
  }

  /** Without a trailer of its own, a message takes nine appended bytes for one. */
  lemma NoTrailer(extra: seq<byte>)
    ensures UnpackTrailer(PackTrailer(None).value + extra) == None <==> |extra| < 9
  {
    Sequences.Empty(extra);
    TakeFails(KINEMATICS, extra);
    TrailerSize();
  }

  lemma TrailerSize()
    ensures Size(KINEMATICS) == 9
  {
    var f := KINEMATICS;
    assert f[1..][1..][1..][1..][1..] == [];
    assert Size(f[1..][1..][1..][1..]) == 1;
    assert Size(f[1..][1..][1..]) == 3;
    assert Size(f[1..][1..]) == 5;
    assert Size(f[1..]) == 7;
  }

  // ---------------------------------------------------------------- NEIGHBORS

  function PackLinks(ls: seq<Link>): Result<seq<byte>> {
    if ls == [] then Ok([])
    else
      var first :- TryPack(LINK, [ls[0].rssi, ls[0].rangeCm, ls[0].quality]);
      var later :- PackLinks(ls[1..]);
      Ok(ls[0].eui + (first + later))
  }

  function TakeLinks(data: seq<byte>, count: nat): Result<Taken<seq<Link>>>
    decreases count
  {
    if count == 0 then Ok(Taken([], data))
    else
      var eui := TakeUpTo(data, EUI_LEN);
      var first :- Take(LINK, eui.rest);
      var later :- TakeLinks(first.rest, count - 1);
      var v := first.value;
      Ok(Taken([Link(eui.value, v[0], v[1], v[2])] + later.value, later.rest))
  }

  predicate LinkIds(ls: seq<Link>) {
    forall k :: 0 <= k < |ls| ==> |ls[k].eui| == EUI_LEN
  }

  lemma {:induction false} LinksTrip(ls: seq<Link>, rest: seq<byte>)
    requires LinkIds(ls) && PackLinks(ls).Ok?
    ensures TakeLinks(PackLinks(ls).value + rest, |ls|) == Ok(Taken(ls, rest))
    decreases |ls|
  {
    if ls == [] {
      Sequences.Empty(rest);
    } else {
      var vs := [ls[0].rssi, ls[0].rangeCm, ls[0].quality];
      var first, later := TryPack(LINK, vs).value, PackLinks(ls[1..]).value;
      LinksTrip(ls[1..], rest);
      hide TryPack, Take;
      Sequences.Assoc(ls[0].eui, first + later, rest);
      Sequences.Assoc(first, later, rest);
      TakeUpToExact(ls[0].eui, first + (later + rest));
      PackTrip(LINK, vs, later + rest);
      assert [ls[0]] + ls[1..] == ls;
    }
  }

  function PackNeighbors(b: Body): Result<seq<byte>>
    requires b.Neighbors?
  {
    var count :- TryByte(|b.links|);
    var links :- PackLinks(b.links);
    Ok(count + links)
  }

  function UnpackNeighbors(data: seq<byte>): Result<Body> {
    var count :- TakeByte(data);
    var links :- TakeLinks(count.rest, count.value);
    Ok(Neighbors(links.value))
  }

  lemma NeighborsTrip(b: Body, extra: seq<byte>)
    requires b.Neighbors? && LinkIds(b.links) && PackNeighbors(b).Ok?
    ensures UnpackNeighbors(PackNeighbors(b).value + extra) == Ok(b)
  {
    hide PackLinks, TakeLinks, TakeByte;
    var links := PackLinks(b.links).value;
    Sequences.Assoc([|b.links|], links, extra);
    TakeOne(|b.links|, links + extra);
    LinksTrip(b.links, extra);
  }

  // ---------------------------------------------------------------- ranging

  function PackRangeReq(b: Body): Result<seq<byte>>
    requires b.RangeReq?
  {
    var t :- TryPack([U32], [b.t1]);
    Ok(b.target + t)
  }

  function UnpackRangeReq(data: seq<byte>): Result<Body> {
    var target := TakeUpTo(data, EUI_LEN);
    var t :- Take([U32], target.rest);
    Ok(RangeReq(target.value, t.value[0]))
  }

  function PackRangeResp(b: Body): Result<seq<byte>>
    requires b.RangeResp?
  {
    var t :- TryPack(TIMES, [b.t1, b.t2, b.t3]);
    Ok(b.initiator + t)
  }

  function UnpackRangeResp(data: seq<byte>): Result<Body> {
    var initiator := TakeUpTo(data, EUI_LEN);
    var t :- Take(TIMES, initiator.rest);
    Ok(RangeResp(initiator.value, t.value[0], t.value[1], t.value[2]))
  }

  lemma RangeReqTrip(b: Body, extra: seq<byte>)
    requires b.RangeReq? && |b.target| == EUI_LEN && PackRangeReq(b).Ok?
    ensures UnpackRangeReq(PackRangeReq(b).value + extra) == Ok(b)
  {
    hide TryPack, Take;
    var t := TryPack([U32], [b.t1]).value;
    Sequences.Assoc(b.target, t, extra);
    TakeUpToExact(b.target, t + extra);
    PackTrip([U32], [b.t1], extra);
  }

  lemma RangeRespTrip(b: Body, extra: seq<byte>)
    requires b.RangeResp? && |b.initiator| == EUI_LEN && PackRangeResp(b).Ok?
    ensures UnpackRangeResp(PackRangeResp(b).value + extra) == Ok(b)
  {
    hide TryPack, Take;
    var vs := [b.t1, b.t2, b.t3];
    var t := TryPack(TIMES, vs).value;
    Sequences.Assoc(b.initiator, t, extra);
    TakeUpToExact(b.initiator, t + extra);
    PackTrip(TIMES, vs, extra);
  }

  // ---------------------------------------------------------------- POSE_INJECT

  function PoseFields(b: Body): seq<int>
    requires b.PoseInject?
  {
    var k := Bounded(b.pose);
    [b.lat, b.lon, b.alt, b.heading % 36000, k.velN, k.velE, k.posStd, k.hdgStd, k.ekfFlags, b.tsMs % 0x1_0000_0000]
  }

  function PackPose(b: Body): Result<seq<byte>>
    requires b.PoseInject?
  {
    TryPack(POSE, PoseFields(b))
  }

  function UnpackPose(data: seq<byte>): Result<Body> {
    var t :- Take(POSE, data);
    var v := t.value;
    Ok(PoseInject(v[0], v[1], v[2], v[3], Kinematics(v[4], v[5], v[6], v[7], v[8]), v[9]))
  }

  lemma PoseTrip(b: Body, extra: seq<byte>)
    requires b.PoseInject? && PackPose(b).Ok?
    ensures UnpackPose(PackPose(b).value + extra) == Ok(Normal(b))
  {
    hide TryPack, Take, Bounded;
    PackTrip(POSE, PoseFields(b), extra);
  }

  // ---------------------------------------------------------------- ROUTE

  function PackIds(ids: seq<Id>): seq<byte> {
    if ids == [] then [] else ids[0] + PackIds(ids[1..])
  }

  /** Slices never fail: a truncated message yields short identifiers. */
  function TakeIds(data: seq<byte>, count: nat): seq<Id>
    decreases count
  {
    if count == 0 then []
    else
      var first := TakeUpTo(data, EUI_LEN);
      [first.value] + TakeIds(first.rest, count - 1)
  }

  predicate AllIds(ids: seq<Id>) {
    forall k :: 0 <= k < |ids| ==> |ids[k]| == EUI_LEN
  }

  lemma {:induction false} IdsTrip(ids: seq<Id>, rest: seq<byte>)
    requires AllIds(ids)
    ensures TakeIds(PackIds(ids) + rest, |ids|) == ids
    decreases |ids|
  {
    if ids != [] {
      Sequences.Assoc(ids[0], PackIds(ids[1..]), rest);
      TakeUpToExact(ids[0], PackIds(ids[1..]) + rest);
      IdsTrip(ids[1..], rest);
      assert [ids[0]] + ids[1..] == ids;
    }
  }

  function PackRoute(b: Body): Result<seq<byte>>
    requires b.Route?
  {
    var role :- TryByte(b.roleOverride);
    var count :- TryByte(|b.subscriptions|);
    Ok(b.primary + (b.secondary + (role + (count + PackIds(b.subscriptions)))))
  }

  function UnpackRoute(data: seq<byte>): Result<Body> {
    var primary := TakeUpTo(data, EUI_LEN);
    var secondary := TakeUpTo(primary.rest, EUI_LEN);
    var role :- TakeByte(secondary.rest);
    var count :- TakeByte(role.rest);
    Ok(Route(primary.value, secondary.value, role.value, TakeIds(count.rest, count.value)))
  }

  lemma RouteTrip(b: Body, extra: seq<byte>)
    requires b.Route? && |b.primary| == EUI_LEN && |b.secondary| == EUI_LEN && AllIds(b.subscriptions)
    requires PackRoute(b).Ok?
    ensures UnpackRoute(PackRoute(b).value + extra) == Ok(b)
  {
    hide PackIds, TakeIds, TakeByte, AllIds;
    var ids, n := PackIds(b.subscriptions), |b.subscriptions|;
    Sequences.Assoc(b.primary, b.secondary + ([b.roleOverride] + ([n] + ids)), extra);
    Sequences.Assoc(b.secondary, [b.roleOverride] + ([n] + ids), extra);
    Sequences.Assoc([b.roleOverride], [n] + ids, extra);
    Sequences.Assoc([n], ids, extra);
    TakeUpToExact(b.primary, b.secondary + ([b.roleOverride] + ([n] + (ids + extra))));
    TakeUpToExact(b.secondary, [b.roleOverride] + ([n] + (ids + extra)));
    TakeOne(b.roleOverride, [n] + (ids + extra));
    TakeOne(n, ids + extra);
    IdsTrip(b.subscriptions, extra);
  }

  // ---------------------------------------------------------------- CMD and BROADCAST

  function PackCommand(op: int, params: seq<byte>): Result<seq<byte>> {
    var o :- TryByte(op);
    var n :- TryByte(|params|);
    Ok(o + (n + params))
  }

  function TakeCommand(data: seq<byte>): Result<(int, seq<byte>)> {
    var o :- TakeByte(data);
    var n :- TakeByte(o.rest);
    Ok((o.value, TakeUpTo(n.rest, n.value).value))
  }

  lemma CommandTrip(op: int, params: seq<byte>, extra: seq<byte>)
    requires PackCommand(op, params).Ok?
    ensures TakeCommand(PackCommand(op, params).value + extra) == Ok((op, params))
  {
    hide TakeByte;
    Sequences.Assoc([op], [|params|] + params, extra);
    Sequences.Assoc([|params|], params, extra);
    TakeOne(op, [|params|] + (params + extra));
    TakeOne(|params|, params + extra);
    TakeUpToExact(params, extra);
  }

  // ---------------------------------------------------------------- whole messages

  function TypeCode(b: Body): int {
    match b
    case Hello(_, _, _, _, _, _, _, _, _) => 0x01
    case Telemetry(_, _, _, _, _, _, _, _, _, _) => 0x02
    case Neighbors(_) => 0x03
    case RangeReq(_, _) => 0x04
    case RangeResp(_, _, _, _) => 0x05
    case PoseInject(_, _, _, _, _, _) => 0x06
    case MeshSend(_) => 0x07
    case Route(_, _, _, _) => 0x10
    case Cmd(_, _) => 0x11
    case Broadcast(_, _) => 0x12
  }

  function PackBody(b: Body): Result<seq<byte>> {
    match b
    case Hello(_, _, _, _, _, _, _, _, _) => PackHello(b)
    case Telemetry(_, _, _, _, _, _, _, _, _, _) => PackTelemetry(b)
    case Neighbors(_) => PackNeighbors(b)
    case RangeReq(_, _) => PackRangeReq(b)
    case RangeResp(_, _, _, _) => PackRangeResp(b)
    case PoseInject(_, _, _, _, _, _) => PackPose(b)
    case MeshSend(p) => Ok(p)
    case Route(_, _, _, _) => PackRoute(b)
    case Cmd(op, params) => PackCommand(op, params)
    case Broadcast(op, params) => PackCommand(op, params)
  }

  /** `None` for a message type this side does not know. */
  function UnpackBody(code: int, data: seq<byte>): Result<Option<Body>> {
    if code == 0x01 then Known(UnpackHello(data))
    else if code == 0x02 then Known(UnpackTelemetry(data))
    else if code == 0x03 then Known(UnpackNeighbors(data))
    else if code == 0x04 then Known(UnpackRangeReq(data))
    else if code == 0x05 then Known(UnpackRangeResp(data))
    else if code == 0x06 then Known(UnpackPose(data))
    else if code == 0x07 then Ok(Some(MeshSend(data)))
    else if code == 0x10 then Known(UnpackRoute(data))
    else if code == 0x11 then
      var c :- TakeCommand(data);
      Ok(Some(Cmd(c.0, c.1)))
    else if code == 0x12 then
      var c :- TakeCommand(data);
      Ok(Some(Broadcast(c.0, c.1)))
    else Ok(None)
  }

  function Known(r: Result<Body>): Result<Option<Body>> {
    match r
    case Ok(b) => Ok(Some(b))
    case Err => Err
  }

  function Encode(m: Message): Result<seq<byte>> {
    var body :- PackBody(m.body);
    var header :- PackHeader(Header(TypeCode(m.body), m.eui, m.seqNo, m.flags));
    Ok(header + body)
  }

  function Decode(payload: seq<byte>): Result<Option<Message>> {
    var h :- UnpackHeader(payload);
    var b :- UnpackBody(h.msgType, payload[HDR_LEN..]);
    Ok(if b.None? then None else Some(Message(h.eui, h.seqNo, h.flags, b.value)))
  }

  /** The form in which an encoded body arrives: text cut, angles wrapped, quantities clamped. */
  function Normal(b: Body): Body {
    match b
    case Hello(_, _, _, _, _, _, name, attached, _) =>
      b.(name := name[..Min(24, |name|)], attachedTo := attached[..Min(32, |attached|)])
    case Telemetry(_, _, _, _, _, h, _, _, _, k) =>
      b.(heading := h % 36000, kinematics := if k.None? then None else Some(Bounded(k.value)))
    case PoseInject(_, _, _, h, k, ts) =>
      b.(heading := h % 36000, pose := Bounded(k), tsMs := ts % 0x1_0000_0000)
    case _ => b
  }

  /** Identifiers inside the body have their eight bytes. */
  predicate IdsWellFormed(b: Body) {
    match b
    case Neighbors(links) => LinkIds(links)
    case RangeReq(target, _) => |target| == EUI_LEN
    case RangeResp(initiator, _, _, _) => |initiator| == EUI_LEN
    case Route(p, s, _, subs) => |p| == EUI_LEN && |s| == EUI_LEN && AllIds(subs)
    case _ => true
  }

  /** Bytes appended to a body of this shape are ignored. */
  predicate IgnoresTail(b: Body, extra: seq<byte>) {
    match b
    case MeshSend(_) => extra == []
    case Telemetry(_, _, _, _, _, _, _, _, _, k) => k.Some? || |extra| < 9
    case _ => true
  }

  lemma BodyTrip(b: Body, extra: seq<byte>)
    requires IdsWellFormed(b) && PackBody(b).Ok?
    ensures UnpackBody(TypeCode(b), PackBody(b).value + extra) == Ok(Some(Normal(b))) <==> IgnoresTail(b, extra)
  {
    hide PackHello, UnpackHello, PackTelemetry, UnpackTelemetry, PackTrailer, UnpackTrailer, PackNeighbors,
         UnpackNeighbors, PackRangeReq, UnpackRangeReq, PackRangeResp, UnpackRangeResp, PackPose, UnpackPose,
         PackRoute, UnpackRoute, PackCommand, TakeCommand, LinkIds, AllIds, Bounded;
    match b
    case Hello(_, _, _, _, _, _, _, _, _) => HelloTrip(b, extra);
    case Telemetry(_, _, _, _, _, _, _, _, _, k) =>
      TelemetryTrip(b, extra);
      if k.Some? { TrailerTrip(k.value, extra); } else { NoTrailer(extra); }
    case Neighbors(_) => NeighborsTrip(b, extra);
    case RangeReq(_, _) => RangeReqTrip(b, extra);
    case RangeResp(_, _, _, _) => RangeRespTrip(b, extra);
    case PoseInject(_, _, _, _, _, _) => PoseTrip(b, extra);
    case MeshSend(p) => assert |p + extra| == |p| + |extra|; Sequences.Empty(p);
    case Route(_, _, _, _) => RouteTrip(b, extra);
    case Cmd(op, params) => CommandTrip(op, params, extra);
    case Broadcast(op, params) => CommandTrip(op, params, extra);
  }

  /** Encoding and decoding, with anything appended in between: the message comes back, in
      normal form, exactly when its shape ignores what was appended. */
  lemma DecodeEncode(m: Message, extra: seq<byte>)
    requires IdsWellFormed(m.body) && Encode(m).Ok?
    ensures Decode(Encode(m).value + extra) == Ok(Some(m.(eui := Pad8(m.eui), body := Normal(m.body))))
            <==> IgnoresTail(m.body, extra)
  {
    hide PackBody, UnpackBody, PackHeader, UnpackHeader, Pad8, Normal, IgnoresTail, IdsWellFormed, TypeCode;
    var h := Header(TypeCode(m.body), m.eui, m.seqNo, m.flags);
    var header, body := PackHeader(h).value, PackBody(m.body).value;
    Sequences.Assoc(header, body, extra);
    HeaderLength(h);
    HeaderTrip(h, body + extra);
    Sequences.Parts(header, body + extra);
    BodyTrip(m.body, extra);
  }

  /** Fields already within the bounds of the wire form. */
  predicate InRange(b: Body) {
    match b
    case Hello(_, _, _, _, _, _, name, attached, _) => |name| <= 24 && |attached| <= 32
    case Telemetry(_, _, _, _, _, h, _, _, _, k) => 0 <= h < 36000 && (k.Some? ==> KinInRange(k.value))
    case PoseInject(_, _, _, h, k, ts) => 0 <= h < 36000 && KinInRange(k) && 0 <= ts < 0x1_0000_0000
    case _ => true
  }

  predicate KinInRange(k: Kinematics) {
    && -32768 <= k.velN <= 32767 && -32768 <= k.velE <= 32767
    && 0 <= k.posStd <= 65535 && 0 <= k.hdgStd <= 65535 && 0 <= k.ekfFlags < 256
  }

  /** Nothing is lost exactly when the fields were in range to begin with. */
  lemma NormalIsIdentity(b: Body)
    ensures Normal(b) == b <==> InRange(b)
  {
    match b
    case Hello(_, _, _, _, _, _, name, attached, _) =>
      assert |name| <= 24 ==> name[..Min(24, |name|)] == name;
      assert |attached| <= 32 ==> attached[..Min(32, |attached|)] == attached;
    case Telemetry(_, _, _, _, _, _, _, _, _, k) =>
      if k.Some? { BoundedIsIdentity(k.value); }
    case PoseInject(_, _, _, _, k, _) => BoundedIsIdentity(k);
    case _ =>
  }

  lemma BoundedIsIdentity(k: Kinematics)
    ensures Bounded(k) == k <==> KinInRange(k)
  {
  }

  /** The round trip the format is for: a well-formed message in range is decoded unchanged. */
  lemma RoundTrip(m: Message)
    requires |m.eui| == EUI_LEN && IdsWellFormed(m.body) && InRange(m.body) && Encode(m).Ok?
    ensures Decode(Encode(m).value) == Ok(Some(m))
  {
    hide Encode, Decode, Normal, IdsWellFormed, InRange;
    DecodeEncode(m, []);
    Sequences.Empty(Encode(m).value);
    NormalIsIdentity(m.body);
  }
}

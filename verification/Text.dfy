/** Text in messages (swarm_proto.py): names travel as UTF-8, cut at a number of bytes, and are read
    back with a replacement character for what does not decode. */
module Text {
  import opened Bits
  import opened Wrappers
  import Codec
  import Struct

  /** A Unicode scalar value: a code point that UTF-8 has a form for. */
  type Scalar = c: int | 0 <= c < 0xD800 || 0xE000 <= c <= 0x10FFFF

  const REPLACEMENT: Scalar := 0xFFFD

  // ---------------------------------------------------------------- writing

  function Width(c: Scalar): (n: nat)
    ensures 1 <= n <= 4
  {
    if c < 0x80 then 1 else if c < 0x800 then 2 else if c < 0x1_0000 then 3 else 4
  }

  function Utf8Char(c: Scalar): (r: seq<byte>)
    ensures |r| == Width(c)
  {
    if c < 0x80 then [c]
    else if c < 0x800 then [0xC0 + c / 64, 0x80 + c % 64]
    else if c < 0x1_0000 then [0xE0 + c / 4096, 0x80 + c / 64 % 64, 0x80 + c % 64]
    else [0xF0 + c / 262144, 0x80 + c / 4096 % 64, 0x80 + c / 64 % 64, 0x80 + c % 64]
  }

  /** `str.encode("utf-8")`. */
  function Utf8(s: seq<Scalar>): seq<byte>
    decreases |s|
  {
    if s == [] then [] else Utf8Char(s[0]) + Utf8(s[1..])
  }

  // ---------------------------------------------------------------- reading

  /** How long the sequence is that a lead byte opens; none is opened by a continuation byte, or by a
      byte that could only open an overlong form or a code point too large. */
  function Announced(lead: byte): (n: nat)
    ensures n <= 4
  {
    if lead < 0x80 then 1
    else if 0xC2 <= lead < 0xE0 then 2
    else if 0xE0 <= lead < 0xF0 then 3
    else if 0xF0 <= lead < 0xF5 then 4
    else 0
  }

  predicate Continuation(b: byte) {
    0x80 <= b < 0xC0
  }

  /** The second byte must not make the form overlong, a surrogate, or too large. */
  predicate Second(lead: byte, b: byte) {
    && Continuation(b) && (lead == 0xE0 ==> b >= 0xA0) && (lead == 0xED ==> b < 0xA0)
    && (lead == 0xF0 ==> b >= 0x90) && (lead == 0xF4 ==> b < 0x90)
  }

  /** How many bytes the decoder takes at once: a sequence as far as it is well-formed. */
  function Taken(d: seq<byte>): (n: nat)
    requires d != []
    ensures 1 <= n <= |d| && n <= 4
  {
    var want := Announced(d[0]);
    if want <= 1 || |d| < 2 || !Second(d[0], d[1]) then 1
    else if want == 2 || |d| < 3 || !Continuation(d[2]) then 2
    else if want == 3 || |d| < 4 || !Continuation(d[3]) then 3
    else 4
  }

  /** The payload bits of a complete sequence, put together. */
  function Joined(d: seq<byte>, n: nat): int
    requires 1 <= n <= 4 && n <= |d|
  {
    var x: seq<int> := d;
    if n == 1 then x[0]
    else if n == 2 then (x[0] - 0xC0) * 64 + (x[1] - 0x80)
    else if n == 3 then (x[0] - 0xE0) * 4096 + (x[1] - 0x80) * 64 + (x[2] - 0x80)
    else (x[0] - 0xF0) * 262144 + (x[1] - 0x80) * 4096 + (x[2] - 0x80) * 64 + (x[3] - 0x80)
  }

  /** The character they make: a replacement unless the sequence is complete. */
  function First(d: seq<byte>): Scalar
    requires d != []
  {
    if Taken(d) == Announced(d[0]) then Joined(d, Taken(d)) else REPLACEMENT
  }

  /** `bytes.decode("utf-8", "replace")`. */
  function FromUtf8(d: seq<byte>): seq<Scalar>
    decreases |d|
  {
    if d == [] then [] else [First(d)] + FromUtf8(d[Taken(d)..])
  }

  // ---------------------------------------------------------------- there and back

  lemma CharLeads(c: Scalar)
    ensures var b := Utf8Char(c);
            && Announced(b[0]) == Width(c) && (|b| > 1 ==> Second(b[0], b[1]))
            && (|b| > 2 ==> Continuation(b[2])) && (|b| > 3 ==> Continuation(b[3]))
  {
  }

  lemma CharJoined(c: Scalar)
    ensures Joined(Utf8Char(c), Width(c)) == c
  {
    assert c == c / 64 * 64 + c % 64;
    assert c / 64 == c / 64 / 64 * 64 + c / 64 % 64 && c / 4096 == c / 64 / 64;
    assert c / 4096 == c / 4096 / 64 * 64 + c / 4096 % 64 && c / 262144 == c / 4096 / 64;
  }

  lemma CharArrives(c: Scalar, rest: seq<byte>)
    ensures var d := Utf8Char(c) + rest; Taken(d) == Width(c) && First(d) == c && d[Width(c)..] == rest
  {
    hide Utf8Char, Width, Announced, Second, Continuation;
    CharLeads(c);
    CharJoined(c);
  }

  lemma CharCut(c: Scalar, n: nat)
    requires 0 < n < Width(c)
    ensures var d := Utf8Char(c)[..n]; Taken(d) == n && First(d) == REPLACEMENT
  {
    hide Utf8Char, Width, Announced, Second, Continuation, Joined;
    CharLeads(c);
  }

  /** Text that is not cut comes back as it was. */
  lemma {:induction false} TextTrip(s: seq<Scalar>)
    ensures FromUtf8(Utf8(s)) == s
    decreases |s|
  {
    hide Utf8Char, Taken, First;
    if s != [] {
      TextTrip(s[1..]);
      CharArrives(s[0], Utf8(s[1..]));
    }
  }

  /** How many characters lie whole within the first `n` bytes. */
  function Whole(s: seq<Scalar>, n: nat): (k: nat)
    ensures k <= |s|
    decreases |s|
  {
    if s == [] || n < Width(s[0]) then 0 else 1 + Whole(s[1..], n - Width(s[0]))
  }

  /** What is read of a text cut at `n` bytes: the characters that fit, and a replacement character if the
      cut went through one. */
  function Cut(s: seq<Scalar>, n: nat): seq<Scalar> {
    var k := Whole(s, n);
    if k == |s| || |Utf8(s[..k])| == n then s[..k] else s[..k] + [REPLACEMENT]
  }

  function UpTo(d: seq<byte>, n: nat): seq<byte> {
    if n < |d| then d[..n] else d
  }

  /** The first `j` characters fit exactly when they are among those. */
  lemma {:induction false} WholeIff(s: seq<Scalar>, n: nat, j: nat)
    requires j <= |s|
    ensures |Utf8(s[..j])| <= n <==> j <= Whole(s, n)
    decreases |s|
  {
    hide Utf8Char;
    if j > 0 {
      assert s[..j][1..] == s[1..][..j - 1];
      if n >= Width(s[0]) { WholeIff(s[1..], n - Width(s[0]), j - 1); }
    }
  }

  lemma {:induction false} CutStep(s: seq<Scalar>, n: nat)
    requires s != [] && n >= Width(s[0])
    ensures Cut(s, n) == [s[0]] + Cut(s[1..], n - Width(s[0]))
  {
    hide Utf8Char;
    var k := Whole(s[1..], n - Width(s[0]));
    assert s[..k + 1] == [s[0]] + s[1..][..k];
    assert s[..k + 1][1..] == s[1..][..k];
  }

  /** A cut text is read as `Cut` says. */
  lemma {:induction false} CutArrives(s: seq<Scalar>, n: nat)
    ensures FromUtf8(UpTo(Utf8(s), n)) == Cut(s, n)
    decreases |s|
  {
    hide Utf8Char, Taken, First, Cut;
    if s == [] {
      CutNothing(n);
    } else if n < Width(s[0]) {
      CutThrough(s, n);
    } else {
      CutArrives(s[1..], n - Width(s[0]));
      CutStep(s, n);
      CharArrives(s[0], UpTo(Utf8(s[1..]), n - Width(s[0])));
      assert UpTo(Utf8(s), n) == Utf8Char(s[0]) + UpTo(Utf8(s[1..]), n - Width(s[0]));
    }
  }

  lemma CutNothing(n: nat)
    ensures Cut([], n) == []
  {
  }

  lemma CutThrough(s: seq<Scalar>, n: nat)
    requires s != [] && n < Width(s[0])
    ensures FromUtf8(UpTo(Utf8(s), n)) == Cut(s, n)
  {
    hide Utf8Char, Taken, First;
    assert UpTo(Utf8(s), n) == Utf8Char(s[0])[..n];
    if n > 0 {
      CharCut(s[0], n);
      assert Utf8Char(s[0])[..n][n..] == [];
    }
  }

  /** A text comes back unchanged exactly when it fits, or when the cut went through a replacement
      character that was its last. */
  lemma CutUnchangedIff(s: seq<Scalar>, n: nat)
    ensures FromUtf8(UpTo(Utf8(s), n)) == s
            <==> (|Utf8(s)| <= n
                  || (s != [] && s[|s| - 1] == REPLACEMENT && |Utf8(s[..|s| - 1])| < n))
  {
    hide Utf8, FromUtf8, Whole;
    var k := Whole(s, n);
    CutArrives(s, n);
    WholeIff(s, n, |s|);
    WholeIff(s, n, k);
    assert s[..|s|] == s;
    if k < |s| {
      WholeIff(s, n, |s| - 1);
      if n > 0 { WholeIff(s, n - 1, |s| - 1); WholeIff(s, n - 1, k); }
    }
  }

  // ---------------------------------------------------------------- the names in HELLO

  /** The two names of a HELLO are read as texts cut at 24 and at 32 bytes. */
  lemma HelloNames(b: Codec.Body, name: seq<Scalar>, attached: seq<Scalar>, extra: seq<byte>)
    requires b.Hello? && b.name == Utf8(name) && b.attachedTo == Utf8(attached) && Codec.PackHello(b).Ok?
    ensures var r := Codec.UnpackHello(Codec.PackHello(b).value + extra);
            && r.Ok? && r.value.Hello?
            && FromUtf8(r.value.name) == Cut(name, 24) && FromUtf8(r.value.attachedTo) == Cut(attached, 32)
  {
    hide Codec.PackHello, Codec.UnpackHello, Utf8, FromUtf8, Cut;
    assert b.name[..Struct.Min(24, |b.name|)] == UpTo(b.name, 24);
    assert b.attachedTo[..Struct.Min(32, |b.attachedTo|)] == UpTo(b.attachedTo, 32);
    Codec.HelloTrip(b, extra);
    CutArrives(name, 24);
    CutArrives(attached, 32);
  }

  /** Examples of section 7 of RFC 3629, with characters of one, two, three and four bytes. */
  lemma Rfc3629()
    ensures Utf8([0x41, 0x2262, 0x391, 0x2E]) == [0x41, 0xE2, 0x89, 0xA2, 0xCE, 0x91, 0x2E]
    ensures Utf8([0xFEFF, 0x233B4]) == [0xEF, 0xBB, 0xBF, 0xF0, 0xA3, 0x8E, 0xB4]
  {
  }
}

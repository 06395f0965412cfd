/** The message a device certificate signs (crates/indras-crypto/src/device_cert.rs): length-prefixed fields behind a
    domain tag. */
module DeviceCert {
  import opened Common
  import opened Bytes

  /** The signed fields; the name as its UTF-8 bytes. */
  datatype Fields = Fields(key: seq<byte>, name: seq<byte>, addedAt: i64, revoked: bool)

  /** "indras:device-cert:v1" */
  const DOMAIN: seq<byte> := [
    0x69, 0x6E, 0x64, 0x72, 0x61, 0x73, 0x3A, 0x64, 0x65, 0x76, 0x69, 0x63, 0x65, 0x2D, 0x63, 0x65, 0x72, 0x74, 0x3A, 0x76, 0x31]

  /** A length cast to 32 bits. */
  function Length32(s: seq<byte>): (n: nat)
    ensures n < TWO_32
  {
    |s| % TWO_32
  }

  function Prefixed(s: seq<byte>): seq<byte> { U32Bytes(Length32(s)) + s }

  function Tail(f: Fields): (r: seq<byte>)
    ensures |r| == 9
  {
    I64Bytes(f.addedAt) + [if f.revoked then 1 else 0]
  }

  function Message(f: Fields): seq<byte> { DOMAIN + (Prefixed(f.key) + (Prefixed(f.name) + Tail(f))) }

  /** canonical_message: the buffer grows field by field. */
  method CanonicalMessage(f: Fields) returns (out: seq<byte>)
    ensures out == Message(f)
    ensures Parse(out) == Some(f) <==> |f.key| < TWO_32 && |f.name| < TWO_32
  {
    hide DOMAIN, U32Bytes, I64Bytes, Parse;
    Regroup(DOMAIN, U32Bytes(Length32(f.key)), f.key, U32Bytes(Length32(f.name)), f.name, I64Bytes(f.addedAt), [if f.revoked then 1 else 0]);
    out := DOMAIN;
    out := out + U32Bytes(Length32(f.key));
    out := out + f.key;
    out := out + U32Bytes(Length32(f.name));
    out := out + f.name;
    out := out + I64Bytes(f.addedAt);
    out := out + [if f.revoked then 1 else 0];
    MessageParsesExactly(f);
  }

  lemma Regroup(d: seq<byte>, a: seq<byte>, b: seq<byte>, c: seq<byte>, e: seq<byte>, g: seq<byte>, h: seq<byte>)
    ensures d + a + b + c + e + g + h == d + ((a + b) + ((c + e) + (g + h)))
  {
    assert (c + e) + (g + h) == c + e + g + h;
    assert (a + b) + (c + e + g + h) == a + b + c + e + g + h;
  }

  const TAG := "indras:device-cert:v1"

  /** The layout of a message: the tag, the key and the name behind four-byte little-endian lengths, eight little-endian
      bytes of time in two's complement, and one byte for revocation. */
  lemma MessageIsLaidOut(f: Fields, i: nat)
    ensures var m, k, n := Message(f), |f.key|, |f.name|; var time := if f.addedAt >= 0 then f.addedAt else f.addedAt + TWO_64;
            && |m| == 21 + 4 + k + 4 + n + 8 + 1
            && (i < 21 ==> m[i] == TAG[i] as int)
            && (i < 4 ==> m[21 + i] == ((k % TWO_32) / Pow256(i)) % 256 && m[25 + k + i] == ((n % TWO_32) / Pow256(i)) % 256)
            && (i < k ==> m[25 + i] == f.key[i]) && (i < n ==> m[29 + k + i] == f.name[i])
            && (i < 8 ==> m[29 + k + n + i] == (time / Pow256(i)) % 256)
            && m[37 + k + n] == if f.revoked then 1 else 0
  {
    hide Pow256, DOMAIN, Prefixed, Tail;
    var named := Prefixed(f.name) + Tail(f);
    var keyed := Prefixed(f.key) + named;
    TagAt(i);
    FieldAt(f.key, named, i);
    FieldAt(f.name, Tail(f), i);
    TailAt(f, i);
    RestAt(f.key, named, i);
    RestAt(f.key, named, 4 + i);
    RestAt(f.key, named, 4 + |f.name| + i);
    RestAt(f.key, named, 4 + |f.name| + 8);
    RestAt(f.name, Tail(f), i);
    RestAt(f.name, Tail(f), 8);
    assert Message(f) == DOMAIN + keyed;
  }

  lemma TagAt(i: nat)
    ensures |DOMAIN| == |TAG| == 21 && (i < 21 ==> DOMAIN[i] == TAG[i] as int)
  {
  }

  lemma FieldAt(s: seq<byte>, rest: seq<byte>, i: nat)
    ensures var t := Prefixed(s) + rest;
            && |t| == 4 + |s| + |rest|
            && (i < 4 ==> t[i] == ((|s| % TWO_32) / Pow256(i)) % 256) && (i < |s| ==> t[4 + i] == s[i])
  {
    hide LittleEndian, Pow256;
    if i < 4 { LittleEndianDigits(Length32(s), 4, i); }
  }

  lemma RestAt(s: seq<byte>, rest: seq<byte>, i: nat)
    ensures |Prefixed(s)| == 4 + |s| && (i < |rest| ==> (Prefixed(s) + rest)[4 + |s| + i] == rest[i])
  {
  }

  lemma TailAt(f: Fields, i: nat)
    ensures var time := if f.addedAt >= 0 then f.addedAt else f.addedAt + TWO_64;
            && (i < 8 ==> Tail(f)[i] == (time / Pow256(i)) % 256) && Tail(f)[8] == if f.revoked then 1 else 0
  {
    hide LittleEndian, Pow256;
    if i < 8 { LittleEndianDigits(f.addedAt % TWO_64, 8, i); }
  }

  // ---------------------------------------------------------------------
  // Unique decoding
  // ---------------------------------------------------------------------

  /** A length-prefixed field at the front, and the rest. */
  function TakePrefixed(s: seq<byte>): Option<(seq<byte>, seq<byte>)> {
    if |s| < 4 then None
    else
      var n := FromLittleEndian(s[..4]);
      if |s| < 4 + n then None else Some((s[4..4+n], s[4+n..]))
  }

  function ParseTail(key: seq<byte>, name: seq<byte>, s: seq<byte>): Option<Fields> {
    if |s| != 9 || s[8] > 1 then None
    else
      var at := I64FromBytes(s[..8]);
      if -0x8000_0000_0000_0000 <= at < 0x8000_0000_0000_0000 then Some(Fields(key, name, at, s[8] == 1)) else None
  }

  function Parse(s: seq<byte>): Option<Fields> {
    if |s| < |DOMAIN| || s[..|DOMAIN|] != DOMAIN then None
    else
      match TakePrefixed(s[|DOMAIN|..])
      case None => None
      case Some((key, rest)) =>
        match TakePrefixed(rest)
        case None => None
        case Some((name, tail)) => ParseTail(key, name, tail)
  }

  lemma TakeUndoesPrefixed(s: seq<byte>, rest: seq<byte>)
    requires |s| < TWO_32
    ensures TakePrefixed(Prefixed(s) + rest) == Some((s, rest))
  {
    hide U32Bytes, FromLittleEndian;
    var t := Prefixed(s) + rest;
    assert t[..4] == U32Bytes(|s|);
    U32RoundTrip(|s|);
    assert t[4..4+|s|] == s && t[4+|s|..] == rest;
  }

  lemma ParseUndoesTail(f: Fields)
    ensures ParseTail(f.key, f.name, Tail(f)) == Some(f)
  {
    hide I64Bytes, I64FromBytes;
    assert Tail(f)[..8] == I64Bytes(f.addedAt);
    I64RoundTrip(f.addedAt);
  }

  /** Every message with fields shorter than 2^32 bytes can be read back. */
  lemma ParseUndoesMessage(f: Fields)
    requires |f.key| < TWO_32 && |f.name| < TWO_32
    ensures Parse(Message(f)) == Some(f)
  {
    hide Prefixed, TakePrefixed, ParseTail, Tail, DOMAIN;
    var s := Message(f);
    assert s[..|DOMAIN|] == DOMAIN;
    assert s[|DOMAIN|..] == Prefixed(f.key) + (Prefixed(f.name) + Tail(f));
    TakeUndoesPrefixed(f.key, Prefixed(f.name) + Tail(f));
    TakeUndoesPrefixed(f.name, Tail(f));
    ParseUndoesTail(f);
  }

  /** A four-byte length prefix cannot announce 2^32 bytes. */
  lemma TakenIsShort(s: seq<byte>)
    ensures TakePrefixed(s).Some? ==> |TakePrefixed(s).value.0| < TWO_32
  {
    hide Pow256, FromLittleEndian;
    Powers();
  }

  /** Whatever parses has short fields. */
  lemma ParsedIsShort(s: seq<byte>)
    ensures Parse(s).Some? ==> |Parse(s).value.key| < TWO_32 && |Parse(s).value.name| < TWO_32
  {
    hide TakePrefixed, DOMAIN;
    if |s| >= |DOMAIN| {
      var rest := s[|DOMAIN|..];
      TakenIsShort(rest);
      if TakePrefixed(rest).Some? { TakenIsShort(TakePrefixed(rest).value.1); }
    }
  }

  /** A message reads back as its certificate if and only if both fields are shorter than 2^32 bytes. */
  lemma MessageParsesExactly(f: Fields)
    ensures Parse(Message(f)) == Some(f) <==> |f.key| < TWO_32 && |f.name| < TWO_32
  {
    hide Parse, Message;
    ParsedIsShort(Message(f));
    if |f.key| < TWO_32 && |f.name| < TWO_32 { ParseUndoesMessage(f); }
  }

  /** No two certificates with fields shorter than 2^32 bytes share a message. */
  lemma MessageIsInjective(f: Fields, g: Fields)
    requires |f.key| < TWO_32 && |f.name| < TWO_32 && |g.key| < TWO_32 && |g.name| < TWO_32
    requires Message(f) == Message(g)
    ensures f == g
  {
    hide Message, Parse;
    ParseUndoesMessage(f);
    ParseUndoesMessage(g);
  }

  // ---------------------------------------------------------------------
  // Beyond 32-bit lengths
  // ---------------------------------------------------------------------

  const ZEROS: seq<byte> := [0, 0, 0, 0]

  lemma ZeroLength(s: seq<byte>)
    requires |s| == 0 || |s| == TWO_32
    ensures Prefixed(s) == ZEROS + s
  {
    assert U32Bytes(0) == ZEROS;
  }

  /** From 2^32 bytes on the length prefix wraps around, and different certificates share a message: a name of 2^32
      bytes that ends in four zero bytes, without a key, against those bytes moved into the key, without a name. */
  lemma LongFieldsCollide(bytes: seq<byte>, addedAt: i64, revoked: bool)
    requires |bytes| == TWO_32 - 4
    ensures var f := Fields([], bytes + ZEROS, addedAt, revoked);
            var g := Fields(ZEROS + bytes, [], addedAt, revoked);
            f != g && Message(f) == Message(g)
  {
    hide Prefixed, Tail, DOMAIN;
    var f := Fields([], bytes + ZEROS, addedAt, revoked);
    var g := Fields(ZEROS + bytes, [], addedAt, revoked);
    ZeroLength([]);
    ZeroLength(f.name);
    ZeroLength(g.key);
    assert Tail(f) == Tail(g) by { SameTail(f, g); }
    var t := Tail(f);
    assert (ZEROS + []) + ((ZEROS + (bytes + ZEROS)) + t) == (ZEROS + (ZEROS + bytes)) + ((ZEROS + []) + t);
  }

  lemma SameTail(f: Fields, g: Fields)
    requires f.addedAt == g.addedAt && f.revoked == g.revoked
    ensures Tail(f) == Tail(g)
  {
  }
}

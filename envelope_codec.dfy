/**
 * The cached-envelope file format read by `Manager.loadEnvelope`: a
 * `DataInputStream` record of big-endian integers, length-prefixed modified
 * UTF-8 strings and length-prefixed byte blobs, whose fields depend on a
 * leading version number (1 to 4; later versions are not read).
 */
module EnvelopeCodec {
  import opened Wrappers
  import opened JavaTypes
  import opened SignalTypes

  /** The `IOException`s a `DataInputStream` raises: `EOFException` and `UTFDataFormatException`. */
  datatype ReadError = EndOfFile | MalformedUtf

  /** A value read from the front of the input, and the input left over. */
  datatype Read<T> = Read(value: T, rest: Bytes)

  type int64 = x: int | -0x8000_0000_0000_0000 <= x <= 0x7FFF_FFFF_FFFF_FFFF

  /** Envelope types of the Signal service protocol. */
  const PREKEY_BUNDLE: int32 := 3
  const RECEIPT: int32 := 5
  const UNIDENTIFIED_SENDER: int32 := 6

  /** An envelope as `SignalServiceEnvelope` holds it, from the pipe or from the cache. */
  datatype Envelope = Envelope(
    kind: int32,
    source: Option<Address>,
    sourceDevice: int32,
    timestamp: int64,
    legacyMessage: Option<Bytes>,
    content: Option<Bytes>,
    serverReceivedTimestamp: int64,
    serverDeliveredTimestamp: int64,
    serverGuid: Option<JString>)
  {
    predicate IsReceipt() { kind == RECEIPT }
    predicate IsUnidentifiedSender() { kind == UNIDENTIFIED_SENDER }
    predicate IsPreKeySignalMessage() { kind == PREKEY_BUNDLE }
  }

  // ---------------------------------------------------------------------------
  // Big-endian numbers

  function Pow256(n: nat): (p: nat)
    ensures p >= 1
  {
    if n == 0 then 1 else 256 * Pow256(n - 1)
  }

  lemma Pow256Values()
    ensures Pow256(2) == 0x1_0000
    ensures Pow256(4) == 0x1_0000_0000
    ensures Pow256(8) == 0x1_0000_0000_0000_0000
  {
  }

  /** The unsigned value of bytes, most significant first. */
  function BigEndian(s: Bytes): (u: nat)
    ensures u < Pow256(|s|)
  {
    if s == [] then 0 else BigEndian(s[..|s| - 1]) * 256 + s[|s| - 1]
  }

  /** The low `n` bytes of `u`, most significant first. */
  function ToBigEndian(u: nat, n: nat): (s: Bytes)
    ensures |s| == n
  {
    if n == 0 then [] else ToBigEndian(u / 256, n - 1) + [u % 256]
  }

  lemma DivBelow(u: nat, p: nat)
    requires u < 256 * p
    ensures u / 256 < p
  {
    assert u == 256 * (u / 256) + u % 256;
  }

  lemma BigEndianSnoc(s: Bytes, low: byte)
    ensures BigEndian(s + [low]) == BigEndian(s) * 256 + low
  {
    assert (s + [low])[..|s|] == s;
  }

  lemma {:induction false} BigEndianRoundTrip(u: nat, n: nat)
    requires u < Pow256(n)
    ensures BigEndian(ToBigEndian(u, n)) == u
  {
    if n > 0 {
      var q, low := u / 256, u % 256;
      DivBelow(u, Pow256(n - 1));
      BigEndianRoundTrip(q, n - 1);
      BigEndianSnoc(ToBigEndian(q, n - 1), low);
    }
  }

  /** Two's complement: the signed value of `n` bytes. */
  function Signed(u: nat, n: nat): int
    requires n > 0 && u < Pow256(n)
  {
    if u >= Pow256(n) / 2 then u - Pow256(n) else u
  }

  function Unsigned(x: int, n: nat): nat
    requires n > 0 && 0 <= x + Pow256(n) / 2 && x < Pow256(n) / 2
  {
    if x < 0 then x + Pow256(n) else x
  }

  lemma SignedUnsigned(x: int, n: nat)
    requires n > 0 && 0 <= x + Pow256(n) / 2 && x < Pow256(n) / 2
    ensures Unsigned(x, n) < Pow256(n) && Signed(Unsigned(x, n), n) == x
  {
  }

  // ---------------------------------------------------------------------------
  // Modified UTF-8, as `DataInput.readUTF` decodes it and `DataOutput.writeUTF` encodes it

  /** Continuation bytes have the form `10xxxxxx`. */
  predicate IsContinuation(b: byte) { b / 64 == 2 }

  function DecodeModifiedUtf8(bs: Bytes): Option<JString>
  {
    if bs == [] then Some([])
    else
      var c := bs[0];
      if c < 0x80 then
        match DecodeModifiedUtf8(bs[1..])
        case Some(t) => Some([c] + t)
        case None => None
      else if c / 16 == 12 || c / 16 == 13 then
        if |bs| < 2 || !IsContinuation(bs[1]) then None
        else
          match DecodeModifiedUtf8(bs[2..])
          case Some(t) => Some([(c % 32) * 64 + bs[1] % 64] + t)
          case None => None
      else if c / 16 == 14 then
        if |bs| < 3 || !IsContinuation(bs[1]) || !IsContinuation(bs[2]) then None
        else
          match DecodeModifiedUtf8(bs[3..])
          case Some(t) => Some([(c % 16) * 4096 + (bs[1] % 64) * 64 + bs[2] % 64] + t)
          case None => None
      else None
  }

  /** One char: `\u0001`-`\u007f` in one byte, `\u0000` and up to `߿` in two, the rest in three. */
  function EncodeChar(c: JChar): (e: Bytes)
    ensures 1 <= |e| <= 3
  {
    if 1 <= c <= 0x7F then [c]
    else if c > 0x7FF then [0xE0 + c / 4096, 0x80 + (c / 64) % 64, 0x80 + c % 64]
    else [0xC0 + c / 64, 0x80 + c % 64]
  }

  function EncodeModifiedUtf8(s: JString): Bytes
  {
    if s == [] then [] else EncodeChar(s[0]) + EncodeModifiedUtf8(s[1..])
  }

  lemma Split64(q: int, r: int)
    requires 0 <= r < 64
    ensures (q * 64 + r) / 64 == q && (q * 64 + r) % 64 == r
  {
  }

  lemma TwoByteChar(c: JChar)
    requires c == 0 || 0x80 <= c <= 0x7FF
    ensures var e := EncodeChar(c);
      |e| == 2 && e[0] / 16 in {12, 13} && IsContinuation(e[1]) && (e[0] as int % 32) * 64 + e[1] as int % 64 == c
  {
    Split64(c / 64, c % 64);
    Split64(2, c % 64);
    assert (0xC0 + c / 64) % 32 == c / 64;
  }

  lemma ThreeByteChar(c: JChar)
    requires c > 0x7FF
    ensures var e := EncodeChar(c);
      |e| == 3 && e[0] / 16 == 14 && IsContinuation(e[1]) && IsContinuation(e[2])
      && (e[0] as int % 16) * 4096 + (e[1] as int % 64) * 64 + e[2] as int % 64 == c
  {
    var hi, mid, lo := c / 4096, (c / 64) % 64, c % 64;
    Split64(c / 64, lo);
    Split64(hi, mid);
    Split64(2, mid);
    Split64(2, lo);
    assert (0xE0 + hi) % 16 == hi;
    assert hi * 4096 + mid * 64 + lo == c;
  }

  lemma CharRoundTrip(c: JChar, rest: Bytes, t: JString)
    requires DecodeModifiedUtf8(rest) == Some(t)
    ensures DecodeModifiedUtf8(EncodeChar(c) + rest) == Some([c] + t)
  {
    var e := EncodeChar(c) + rest;
    if 1 <= c <= 0x7F {
      assert e[1..] == rest;
    } else if c > 0x7FF {
      ThreeByteChar(c);
      assert e[3..] == rest;
    } else {
      TwoByteChar(c);
      assert e[2..] == rest;
    }
  }

  lemma {:induction false} Utf8RoundTrip(s: JString)
    ensures DecodeModifiedUtf8(EncodeModifiedUtf8(s)) == Some(s)
  {
    if s != [] {
      Utf8RoundTrip(s[1..]);
      CharRoundTrip(s[0], EncodeModifiedUtf8(s[1..]), s[1..]);
      assert [s[0]] + s[1..] == s;
    }
  }

  // ---------------------------------------------------------------------------
  // Readers: each consumes a prefix of the input or fails

  function Take(b: Bytes, n: nat): (r: Result<Read<Bytes>, ReadError>)
    ensures r.Ok? ==> b == r.value.value + r.value.rest && |r.value.value| == n
  {
    if n <= |b| then Ok(Read(b[..n], b[n..])) else Err(EndOfFile)
  }

  /** `readInt`: four bytes, two's complement. */
  function ParseInt(b: Bytes): Result<Read<int32>, ReadError>
  {
    var r :- Take(b, 4);
    Pow256Values();
    var x: int32 := Signed(BigEndian(r.value), 4);
    Ok(Read(x, r.rest))
  }

  /** `readLong`: eight bytes, two's complement. */
  function ParseLong(b: Bytes): Result<Read<int64>, ReadError>
  {
    var r :- Take(b, 8);
    Pow256Values();
    var x: int64 := Signed(BigEndian(r.value), 8);
    Ok(Read(x, r.rest))
  }

  /** `readUTF`: an unsigned 16-bit length, then that many bytes of modified UTF-8. */
  function ParseUtf(b: Bytes): Result<Read<JString>, ReadError>
  {
    var len :- Take(b, 2);
    var body :- Take(len.rest, BigEndian(len.value));
    match DecodeModifiedUtf8(body.value)
    case Some(s) => Ok(Read(s, body.rest))
    case None => Err(MalformedUtf)
  }

  function ParseUtfIf(present: bool, b: Bytes): Result<Read<Option<JString>>, ReadError>
  {
    if present then
      var s :- ParseUtf(b);
      Ok(Read(Some(s.value), s.rest))
    else Ok(Read(None, b))
  }

  function ParseLongIf(present: bool, b: Bytes): Result<Read<int64>, ReadError>
  {
    if present then ParseLong(b) else Ok(Read(0, b))
  }

  /** An `int` length, then that many bytes when it is positive; a length of zero or less means no blob. */
  function ParseBlob(b: Bytes): Result<Read<Option<Bytes>>, ReadError>
  {
    var len :- ParseInt(b);
    if len.value > 0 then
      var data :- Take(len.rest, len.value);
      Ok(Read(Some(data.value), data.rest))
    else Ok(Read(None, len.rest))
  }

  // ---------------------------------------------------------------------------
  // The record

  /**
   * The envelope built from the fields read: the sender is absent exactly when
   * there is neither a UUID nor a phone number, and an empty server GUID is absent.
   */
  function MakeEnvelope(kind: int32, source: JString, uuidText: Option<JString>, device: int32,
                        timestamp: int64, content: Option<Bytes>, legacy: Option<Bytes>,
                        received: int64, guid: Option<JString>, delivered: int64): (e: Envelope)
    ensures e.source.None? <==> (uuidText.None? || !IsUuidText(uuidText.value)) && source == []
    ensures e.source.Some? ==> e.source.value.number == source
    ensures e.serverGuid.Some? <==> guid.Some? && guid.value != []
  {
    var sourceUuid := if uuidText.Some? then ParseUuidOrNull(uuidText.value) else None;
    var sender := if sourceUuid.None? && source == [] then None else Some(Address(sourceUuid, source));
    var serverGuid := if guid == Some([]) then None else guid;
    Envelope(kind, sender, device, timestamp, legacy, content, received, delivered, serverGuid)
  }

  /** The sender fields, in file order: type, source number, UUID (version 3 on), device, relay (version 1). */
  datatype SenderFields = SenderFields(kind: int32, source: JString, uuidText: Option<JString>, device: int32)

  /** The timestamp and the two message blobs. */
  datatype PayloadFields = PayloadFields(timestamp: int64, content: Option<Bytes>, legacy: Option<Bytes>)

  /** The server fields: received timestamp and GUID (version 2 on), delivered timestamp (version 4 on). */
  datatype ServerFields = ServerFields(received: int64, guid: Option<JString>, delivered: int64)

  function ParseSender(v: int32, b: Bytes): Result<Read<SenderFields>, ReadError>
  {
    var kind :- ParseInt(b);
    var source :- ParseUtf(kind.rest);
    var uuidText :- ParseUtfIf(v >= 3, source.rest);
    var device :- ParseInt(uuidText.rest);
    var relay :- ParseUtfIf(v == 1, device.rest);
    Ok(Read(SenderFields(kind.value, source.value, uuidText.value, device.value), relay.rest))
  }

  function ParsePayload(b: Bytes): Result<Read<PayloadFields>, ReadError>
  {
    var timestamp :- ParseLong(b);
    var content :- ParseBlob(timestamp.rest);
    var legacy :- ParseBlob(content.rest);
    Ok(Read(PayloadFields(timestamp.value, content.value, legacy.value), legacy.rest))
  }

  function ParseServer(v: int32, b: Bytes): Result<Read<ServerFields>, ReadError>
  {
    var received :- ParseLongIf(v >= 2, b);
    var guid :- ParseUtfIf(v >= 2, received.rest);
    var delivered :- ParseLongIf(v >= 4, guid.rest);
    Ok(Read(ServerFields(received.value, guid.value, delivered.value), delivered.rest))
  }

  /**
   * The reading of `loadEnvelope`, with the input left over. A version above 4
   * yields no envelope after reading only the version.
   */
  function Parse(b: Bytes): Result<Read<Option<Envelope>>, ReadError>
  {
    var version :- ParseInt(b);
    var v := version.value;
    if v > 4 then Ok(Read(None, version.rest))
    else
      var sender :- ParseSender(v, version.rest);
      var payload :- ParsePayload(sender.rest);
      var server :- ParseServer(v, payload.rest);
      var f, p, t := sender.value, payload.value, server.value;
      var e := MakeEnvelope(f.kind, f.source, f.uuidText, f.device, p.timestamp, p.content,
                            p.legacy, t.received, t.guid, t.delivered);
      Ok(Read(Some(e), server.rest))
  }

  /** `loadEnvelope` on a file's bytes: an envelope, none (unknown version), or an `IOException`. */
  function Load(b: Bytes): Result<Option<Envelope>, ReadError>
  {
    var r :- Parse(b);
    Ok(r.value)
  }

  // ---------------------------------------------------------------------------
  // The writer the format is read back from (`DataOutputStream`), as a reference

  function WriteInt(x: int32): (e: Bytes)
    ensures |e| == 4
  {
    Pow256Values();
    ToBigEndian(Unsigned(x, 4), 4)
  }

  function WriteLong(x: int64): (e: Bytes)
    ensures |e| == 8
  {
    Pow256Values();
    ToBigEndian(Unsigned(x, 8), 8)
  }

  /** `writeUTF` refuses strings whose encoding needs more than 65535 bytes. */
  predicate UtfFits(s: JString) { |EncodeModifiedUtf8(s)| < 0x1_0000 }

  function WriteUtf(s: JString): Bytes
    requires UtfFits(s)
  {
    ToBigEndian(|EncodeModifiedUtf8(s)|, 2) + EncodeModifiedUtf8(s)
  }

  function WriteUtfIf(present: bool, s: JString): Bytes
    requires UtfFits(s)
  {
    if present then WriteUtf(s) else []
  }

  function WriteLongIf(present: bool, x: int64): Bytes
  {
    if present then WriteLong(x) else []
  }

  function WriteBlob(d: Bytes): Bytes
    requires |d| <= INT32_MAX
  {
    WriteInt(|d|) + d
  }

  lemma ReadWrittenInt(x: int32, rest: Bytes)
    ensures ParseInt(WriteInt(x) + rest) == Ok(Read(x, rest))
  {
    Pow256Values();
    var e := WriteInt(x) + rest;
    assert e[..4] == WriteInt(x) && e[4..] == rest;
    SignedUnsigned(x, 4);
    BigEndianRoundTrip(Unsigned(x, 4), 4);
  }

  lemma ReadWrittenLong(x: int64, rest: Bytes)
    ensures ParseLong(WriteLong(x) + rest) == Ok(Read(x, rest))
  {
    Pow256Values();
    var e := WriteLong(x) + rest;
    assert e[..8] == WriteLong(x) && e[8..] == rest;
    SignedUnsigned(x, 8);
    BigEndianRoundTrip(Unsigned(x, 8), 8);
  }

  lemma ReadWrittenUtf(s: JString, rest: Bytes)
    requires UtfFits(s)
    ensures ParseUtf(WriteUtf(s) + rest) == Ok(Read(s, rest))
  {
    Pow256Values();
    var enc := EncodeModifiedUtf8(s);
    var len := ToBigEndian(|enc|, 2);
    var e := WriteUtf(s) + rest;
    assert e == len + (enc + rest);
    assert e[..2] == len && e[2..] == enc + rest;
    BigEndianRoundTrip(|enc|, 2);
    assert (enc + rest)[..|enc|] == enc && (enc + rest)[|enc|..] == rest;
    Utf8RoundTrip(s);
  }

  lemma ReadWrittenUtfIf(present: bool, s: JString, rest: Bytes)
    requires UtfFits(s)
    ensures ParseUtfIf(present, WriteUtfIf(present, s) + rest) == Ok(Read(if present then Some(s) else None, rest))
  {
    if present {
      ReadWrittenUtf(s, rest);
    } else {
      assert WriteUtfIf(present, s) + rest == rest;
    }
  }

  lemma ReadWrittenLongIf(present: bool, x: int64, rest: Bytes)
    ensures var r := ParseLongIf(present, WriteLongIf(present, x) + rest);
      r.Ok? && r.value.value == (if present then x else 0) && r.value.rest == rest
  {
    if present {
      ReadWrittenLong(x, rest);
    } else {
      assert WriteLongIf(present, x) + rest == rest;
    }
  }

  lemma ReadWrittenBlob(d: Bytes, rest: Bytes)
    requires |d| <= INT32_MAX
    ensures ParseBlob(WriteBlob(d) + rest) == Ok(Read(if |d| > 0 then Some(d) else None, rest))
  {
    var e := WriteBlob(d) + rest;
    assert e == WriteInt(|d|) + (d + rest);
    ReadWrittenInt(|d|, d + rest);
    assert (d + rest)[..|d|] == d && (d + rest)[|d|..] == rest;
  }

  /** Every field a version-`version` file may hold, whether or not that version writes it. */
  datatype CacheRecord = CacheRecord(
    version: int32, kind: int32, source: JString, sourceUuid: JString, sourceDevice: int32,
    relay: JString, timestamp: int64, content: Bytes, legacyMessage: Bytes,
    serverReceivedTimestamp: int64, serverGuid: JString, serverDeliveredTimestamp: int64)

  predicate Writable(r: CacheRecord)
  {
    && r.version <= 4
    && UtfFits(r.source) && UtfFits(r.sourceUuid) && UtfFits(r.relay) && UtfFits(r.serverGuid)
    && |r.content| <= INT32_MAX && |r.legacyMessage| <= INT32_MAX
  }

  function EncodeSender(r: CacheRecord): Bytes
    requires Writable(r)
  {
    WriteInt(r.kind) + (WriteUtf(r.source) + (WriteUtfIf(r.version >= 3, r.sourceUuid)
    + (WriteInt(r.sourceDevice) + WriteUtfIf(r.version == 1, r.relay))))
  }

  function EncodePayload(r: CacheRecord): Bytes
    requires Writable(r)
  {
    WriteLong(r.timestamp) + (WriteBlob(r.content) + WriteBlob(r.legacyMessage))
  }

  function EncodeServer(r: CacheRecord): Bytes
    requires Writable(r)
  {
    WriteLongIf(r.version >= 2, r.serverReceivedTimestamp)
    + (WriteUtfIf(r.version >= 2, r.serverGuid) + WriteLongIf(r.version >= 4, r.serverDeliveredTimestamp))
  }

  /**
   * The file of a record: the source UUID from version 3 on, the relay only in
   * version 1, the server-received timestamp and GUID from version 2 on, the
   * server-delivered timestamp from version 4 on.
   */
  function Encode(r: CacheRecord): Bytes
    requires Writable(r)
  {
    WriteInt(r.version) + (EncodeSender(r) + (EncodePayload(r) + EncodeServer(r)))
  }

  /** The envelope a record stands for; fields its version lacks take the reader's defaults. */
  function Expected(r: CacheRecord): Envelope
  {
    var v := r.version;
    MakeEnvelope(r.kind, r.source, if v >= 3 then Some(r.sourceUuid) else None, r.sourceDevice,
                 r.timestamp, if |r.content| > 0 then Some(r.content) else None,
                 if |r.legacyMessage| > 0 then Some(r.legacyMessage) else None,
                 if v >= 2 then r.serverReceivedTimestamp else 0,
                 if v >= 2 then Some(r.serverGuid) else None,
                 if v >= 4 then r.serverDeliveredTimestamp else 0)
  }

  function SenderOf(r: CacheRecord): SenderFields
  {
    SenderFields(r.kind, r.source, if r.version >= 3 then Some(r.sourceUuid) else None, r.sourceDevice)
  }

  function PayloadOf(r: CacheRecord): PayloadFields
  {
    PayloadFields(r.timestamp, if |r.content| > 0 then Some(r.content) else None,
                  if |r.legacyMessage| > 0 then Some(r.legacyMessage) else None)
  }

  function ServerOf(r: CacheRecord): ServerFields
  {
    ServerFields(if r.version >= 2 then r.serverReceivedTimestamp else 0,
                 if r.version >= 2 then Some(r.serverGuid) else None,
                 if r.version >= 4 then r.serverDeliveredTimestamp else 0)
  }

  /** The sender is read field by field: five successful reads chain into one. */
  lemma SenderSteps(v: int32, b: Bytes, kind: Read<int32>, source: Read<JString>, uuidText: Read<Option<JString>>,
                    device: Read<int32>, relay: Read<Option<JString>>)
    requires ParseInt(b) == Ok(kind) && ParseUtf(kind.rest) == Ok(source)
    requires ParseUtfIf(v >= 3, source.rest) == Ok(uuidText) && ParseInt(uuidText.rest) == Ok(device)
    requires ParseUtfIf(v == 1, device.rest) == Ok(relay)
    ensures ParseSender(v, b) == Ok(Read(SenderFields(kind.value, source.value, uuidText.value, device.value), relay.rest))
  {
  }

  /** Five fields followed by more input, regrouped so that each field is followed by the rest. */
  lemma Regroup(a: Bytes, b: Bytes, c: Bytes, d: Bytes, e: Bytes, rest: Bytes)
    ensures (a + (b + (c + (d + e)))) + rest == a + (b + (c + (d + (e + rest))))
  {
    calc {
      (a + (b + (c + (d + e)))) + rest;
      a + ((b + (c + (d + e))) + rest);
      a + (b + ((c + (d + e)) + rest));
      a + (b + (c + ((d + e) + rest)));
      a + (b + (c + (d + (e + rest))));
    }
  }

  /** Three fields followed by more input, regrouped so that each field is followed by the rest. */
  lemma Regroup3(a: Bytes, b: Bytes, c: Bytes, rest: Bytes)
    ensures (a + (b + c)) + rest == a + (b + (c + rest))
  {
    calc {
      (a + (b + c)) + rest;
      a + ((b + c) + rest);
      a + (b + (c + rest));
    }
  }

  /** The sender bytes followed by more input, regrouped field by field. */
  lemma SenderLayout(r: CacheRecord, rest: Bytes)
    requires Writable(r)
    ensures EncodeSender(r) + rest
      == WriteInt(r.kind) + (WriteUtf(r.source) + (WriteUtfIf(r.version >= 3, r.sourceUuid)
         + (WriteInt(r.sourceDevice) + (WriteUtfIf(r.version == 1, r.relay) + rest))))
  {
    Regroup(WriteInt(r.kind), WriteUtf(r.source), WriteUtfIf(r.version >= 3, r.sourceUuid),
            WriteInt(r.sourceDevice), WriteUtfIf(r.version == 1, r.relay), rest);
  }

  lemma ReadWrittenSender(r: CacheRecord, rest: Bytes)
    requires Writable(r)
    ensures ParseSender(r.version, EncodeSender(r) + rest) == Ok(Read(SenderOf(r), rest))
  {
    var v := r.version;
    var t4 := WriteUtfIf(v == 1, r.relay) + rest;
    var t3 := WriteInt(r.sourceDevice) + t4;
    var t2 := WriteUtfIf(v >= 3, r.sourceUuid) + t3;
    var t1 := WriteUtf(r.source) + t2;
    SenderLayout(r, rest);
    ReadWrittenInt(r.kind, t1);
    ReadWrittenUtf(r.source, t2);
    ReadWrittenUtfIf(v >= 3, r.sourceUuid, t3);
    ReadWrittenInt(r.sourceDevice, t4);
    ReadWrittenUtfIf(v == 1, r.relay, rest);
    var uuidText := if v >= 3 then Some(r.sourceUuid) else None;
    var relay := if v == 1 then Some(r.relay) else None;
    SenderSteps(v, WriteInt(r.kind) + t1, Read(r.kind, t1), Read(r.source, t2), Read(uuidText, t3),
                Read(r.sourceDevice, t4), Read(relay, rest));
  }

  lemma ReadWrittenPayload(r: CacheRecord, rest: Bytes)
    requires Writable(r)
    ensures ParsePayload(EncodePayload(r) + rest) == Ok(Read(PayloadOf(r), rest))
  {
    var t2 := WriteBlob(r.legacyMessage) + rest;
    var t1 := WriteBlob(r.content) + t2;
    Regroup3(WriteLong(r.timestamp), WriteBlob(r.content), WriteBlob(r.legacyMessage), rest);
    ReadWrittenLong(r.timestamp, t1);
    ReadWrittenBlob(r.content, t2);
    ReadWrittenBlob(r.legacyMessage, rest);
  }

  lemma ReadWrittenServer(r: CacheRecord, rest: Bytes)
    requires Writable(r)
    ensures ParseServer(r.version, EncodeServer(r) + rest) == Ok(Read(ServerOf(r), rest))
  {
    var v := r.version;
    var t2 := WriteLongIf(v >= 4, r.serverDeliveredTimestamp) + rest;
    var t1 := WriteUtfIf(v >= 2, r.serverGuid) + t2;
    Regroup3(WriteLongIf(v >= 2, r.serverReceivedTimestamp), WriteUtfIf(v >= 2, r.serverGuid),
             WriteLongIf(v >= 4, r.serverDeliveredTimestamp), rest);
    ReadWrittenLongIf(v >= 2, r.serverReceivedTimestamp, t1);
    ReadWrittenUtfIf(v >= 2, r.serverGuid, t2);
    ReadWrittenLongIf(v >= 4, r.serverDeliveredTimestamp, rest);
  }

  /** Reading a written record gives back its envelope and consumes the whole file. */
  lemma ParseEncode(r: CacheRecord)
    requires Writable(r)
    ensures Parse(Encode(r)) == Ok(Read(Some(Expected(r)), []))
  {
    var t3 := EncodeServer(r);
    var t2 := EncodePayload(r) + t3;
    var t1 := EncodeSender(r) + t2;
    assert t3 + [] == t3;
    ReadWrittenInt(r.version, t1);
    ReadWrittenSender(r, t2);
    ReadWrittenPayload(r, t3);
    ReadWrittenServer(r, []);
  }

  lemma LoadEncode(r: CacheRecord)
    requires Writable(r)
    ensures Load(Encode(r)) == Ok(Some(Expected(r)))
  {
    ParseEncode(r);
  }

  /** A file whose version is above 4 yields no envelope, whatever follows the version. */
  lemma LoadUnknownVersion(version: int32, rest: Bytes)
    requires version > 4
    ensures Load(WriteInt(version) + rest) == Ok(None)
  {
    ReadWrittenInt(version, rest);
  }

  // ---------------------------------------------------------------------------
  // Reading a cut-off file

  predicate IsPrefix(p: Bytes, b: Bytes) { |p| <= |b| && b[..|p|] == p }

  /**
   * What a reader gives on a prefix of an input, compared with what it gives on
   * the whole input, `cut` bytes longer: it runs out of input, or fails as the
   * whole does, or reads the same value and stops at the same place.
   */
  predicate Consistent<T(==)>(onPrefix: Result<Read<T>, ReadError>, onWhole: Result<Read<T>, ReadError>, cut: int)
  {
    || onPrefix == Err(EndOfFile)
    || (onPrefix.Err? && onWhole == onPrefix)
    || (&& onPrefix.Ok? && onWhole.Ok? && onPrefix.value.value == onWhole.value.value
        && IsPrefix(onPrefix.value.rest, onWhole.value.rest)
        && |onWhole.value.rest| == |onPrefix.value.rest| + cut)
  }

  lemma TakeConsistent(p: Bytes, b: Bytes, n: nat)
    requires IsPrefix(p, b)
    ensures Consistent(Take(p, n), Take(b, n), |b| - |p|)
  {
    if n <= |p| {
      assert p[..n] == b[..n];
      assert b[n..][..|p[n..]|] == p[n..];
    }
  }

  lemma ParseIntConsistent(p: Bytes, b: Bytes)
    requires IsPrefix(p, b)
    ensures Consistent(ParseInt(p), ParseInt(b), |b| - |p|)
  {
    TakeConsistent(p, b, 4);
  }

  lemma ParseLongConsistent(p: Bytes, b: Bytes)
    requires IsPrefix(p, b)
    ensures Consistent(ParseLong(p), ParseLong(b), |b| - |p|)
  {
    TakeConsistent(p, b, 8);
  }

  lemma ParseUtfConsistent(p: Bytes, b: Bytes)
    requires IsPrefix(p, b)
    ensures Consistent(ParseUtf(p), ParseUtf(b), |b| - |p|)
  {
    TakeConsistent(p, b, 2);
    var len := Take(p, 2);
    if len.Ok? {
      TakeConsistent(len.value.rest, Take(b, 2).value.rest, BigEndian(len.value.value));
    }
  }

  lemma ParseUtfIfConsistent(present: bool, p: Bytes, b: Bytes)
    requires IsPrefix(p, b)
    ensures Consistent(ParseUtfIf(present, p), ParseUtfIf(present, b), |b| - |p|)
  {
    ParseUtfConsistent(p, b);
  }

  lemma ParseLongIfConsistent(present: bool, p: Bytes, b: Bytes)
    requires IsPrefix(p, b)
    ensures Consistent(ParseLongIf(present, p), ParseLongIf(present, b), |b| - |p|)
  {
    ParseLongConsistent(p, b);
  }

  lemma ParseBlobConsistent(p: Bytes, b: Bytes)
    requires IsPrefix(p, b)
    ensures Consistent(ParseBlob(p), ParseBlob(b), |b| - |p|)
  {
    ParseIntConsistent(p, b);
    var len := ParseInt(p);
    if len.Ok? && len.value.value > 0 {
      TakeConsistent(len.value.rest, ParseInt(b).value.rest, len.value.value);
    }
  }

  lemma ParseSenderConsistent(v: int32, p: Bytes, b: Bytes)
    requires IsPrefix(p, b)
    ensures Consistent(ParseSender(v, p), ParseSender(v, b), |b| - |p|)
  {
    ParseIntConsistent(p, b);
    var kind, kindB := ParseInt(p), ParseInt(b);
    if kind.Err? { return; }
    ParseUtfConsistent(kind.value.rest, kindB.value.rest);
    var source, sourceB := ParseUtf(kind.value.rest), ParseUtf(kindB.value.rest);
    if source.Err? { return; }
    ParseUtfIfConsistent(v >= 3, source.value.rest, sourceB.value.rest);
    var uuid, uuidB := ParseUtfIf(v >= 3, source.value.rest), ParseUtfIf(v >= 3, sourceB.value.rest);
    if uuid.Err? { return; }
    ParseIntConsistent(uuid.value.rest, uuidB.value.rest);
    var device, deviceB := ParseInt(uuid.value.rest), ParseInt(uuidB.value.rest);
    if device.Err? { return; }
    ParseUtfIfConsistent(v == 1, device.value.rest, deviceB.value.rest);
  }

  lemma ParsePayloadConsistent(p: Bytes, b: Bytes)
    requires IsPrefix(p, b)
    ensures Consistent(ParsePayload(p), ParsePayload(b), |b| - |p|)
  {
    ParseLongConsistent(p, b);
    var ts, tsB := ParseLong(p), ParseLong(b);
    if ts.Err? { return; }
    ParseBlobConsistent(ts.value.rest, tsB.value.rest);
    var content, contentB := ParseBlob(ts.value.rest), ParseBlob(tsB.value.rest);
    if content.Err? { return; }
    ParseBlobConsistent(content.value.rest, contentB.value.rest);
  }

  lemma ParseServerConsistent(v: int32, p: Bytes, b: Bytes)
    requires IsPrefix(p, b)
    ensures Consistent(ParseServer(v, p), ParseServer(v, b), |b| - |p|)
  {
    ParseLongIfConsistent(v >= 2, p, b);
    var received, receivedB := ParseLongIf(v >= 2, p), ParseLongIf(v >= 2, b);
    if received.Err? { return; }
    ParseUtfIfConsistent(v >= 2, received.value.rest, receivedB.value.rest);
    var guid, guidB := ParseUtfIf(v >= 2, received.value.rest), ParseUtfIf(v >= 2, receivedB.value.rest);
    if guid.Err? { return; }
    ParseLongIfConsistent(v >= 4, guid.value.rest, guidB.value.rest);
  }

  lemma ParseConsistent(p: Bytes, b: Bytes)
    requires IsPrefix(p, b)
    ensures Consistent(Parse(p), Parse(b), |b| - |p|)
  {
    ParseIntConsistent(p, b);
    var version, versionB := ParseInt(p), ParseInt(b);
    if version.Err? || version.value.value > 4 { return; }
    var v := version.value.value;
    ParseSenderConsistent(v, version.value.rest, versionB.value.rest);
    var sender, senderB := ParseSender(v, version.value.rest), ParseSender(v, versionB.value.rest);
    if sender.Err? { return; }
    ParsePayloadConsistent(sender.value.rest, senderB.value.rest);
    var payload, payloadB := ParsePayload(sender.value.rest), ParsePayload(senderB.value.rest);
    if payload.Err? { return; }
    ParseServerConsistent(v, payload.value.rest, payloadB.value.rest);
  }

  /**
   * A cache file cut short anywhere fails with an end-of-file `IOException`,
   * which the retry loop answers by deleting the file.
   */
  lemma LoadTruncated(r: CacheRecord, p: Bytes)
    requires Writable(r) && IsPrefix(p, Encode(r)) && |p| < |Encode(r)|
    ensures Load(p) == Err(EndOfFile)
  {
    ParseEncode(r);
    ParseConsistent(p, Encode(r));
  }

  // ---------------------------------------------------------------------------
  // `loadEnvelope` itself, reading through a stream

  /** A method's result together with the input it left unread, as a reader function gives it. */
  function Outcome<T>(r: Result<T, ReadError>, rest: Bytes): Result<Read<T>, ReadError>
  {
    match r
    case Ok(x) => Ok(Read(x, rest))
    case Err(e) => Err(e)
  }

  /** A `DataInputStream` over the bytes of a cache file. */
  class DataInput {
    const data: Bytes
    var pos: nat

    ghost predicate Valid()
      reads this
    {
      pos <= |data|
    }

    /** The bytes not yet read. */
    function Remaining(): Bytes
      reads this
      requires Valid()
    {
      data[pos..]
    }

    constructor(file: Bytes)
      ensures Valid() && data == file && pos == 0
    {
      data := file;
      pos := 0;
    }

    /** `readFully`: the next `n` bytes, or an end-of-file error. */
    method ReadFully(n: nat) returns (r: Result<Bytes, ReadError>)
      requires Valid()
      modifies this
      ensures Valid() && Outcome(r, Remaining()) == Take(old(Remaining()), n)
    {
      if |data| - pos < n {
        return Err(EndOfFile);
      }
      r := Ok(data[pos..pos + n]);
      assert data[pos..][..n] == data[pos..pos + n];
      assert data[pos..][n..] == data[pos + n..];
      pos := pos + n;
    }

    /** The next `n` bytes as an unsigned big-endian number, read one byte at a time. */
    method ReadUnsigned(n: nat) returns (r: Result<nat, ReadError>)
      requires Valid()
      modifies this
      ensures Valid()
      ensures Outcome(r, Remaining()) == (var t :- Take(old(Remaining()), n); Ok(Read(BigEndian(t.value), t.rest)))
    {
      if |data| - pos < n {
        return Err(EndOfFile);
      }
      var start := pos;
      var u: nat := 0;
      while pos < start + n
        invariant start <= pos <= start + n <= |data|
        invariant u == BigEndian(data[start..pos])
      {
        assert data[start..pos + 1][..pos - start] == data[start..pos];
        u := u * 256 + data[pos];
        pos := pos + 1;
      }
      assert data[start..][..n] == data[start..pos];
      assert data[start..][n..] == data[pos..];
      return Ok(u);
    }

    /** `readInt`. */
    method ReadInt() returns (r: Result<int32, ReadError>)
      requires Valid()
      modifies this
      ensures Valid() && Outcome(r, Remaining()) == ParseInt(old(Remaining()))
    {
      var u :- ReadUnsigned(4);
      Pow256Values();
      r := Ok(Signed(u, 4));
    }

    /** `readLong`. */
    method ReadLong() returns (r: Result<int64, ReadError>)
      requires Valid()
      modifies this
      ensures Valid() && Outcome(r, Remaining()) == ParseLong(old(Remaining()))
    {
      var u :- ReadUnsigned(8);
      Pow256Values();
      r := Ok(Signed(u, 8));
    }

    /** `readUTF`. */
    method ReadUtf() returns (r: Result<JString, ReadError>)
      requires Valid()
      modifies this
      ensures Valid() && Outcome(r, Remaining()) == ParseUtf(old(Remaining()))
    {
      var len :- ReadUnsigned(2);
      var body :- ReadFully(len);
      match DecodeModifiedUtf8(body)
      case Some(s) => r := Ok(s);
      case None => r := Err(MalformedUtf);
    }

    /** An `int` length and, when it is positive, that many bytes. */
    method ReadBlob() returns (r: Result<Option<Bytes>, ReadError>)
      requires Valid()
      modifies this
      ensures Valid() && Outcome(r, Remaining()) == ParseBlob(old(Remaining()))
    {
      var len :- ReadInt();
      if len > 0 {
        var body :- ReadFully(len);
        r := Ok(Some(body));
      } else {
        r := Ok(None);
      }
    }
  }

  /** The sender fields of a version-`version` file, read through `input`. */
  method ReadSender(input: DataInput, version: int32) returns (r: Result<SenderFields, ReadError>)
    requires input.Valid()
    modifies input
    ensures input.Valid() && Outcome(r, input.Remaining()) == ParseSender(version, old(input.Remaining()))
  {
    var kind :- input.ReadInt();
    var source :- input.ReadUtf();
    var uuidText := None;
    if version >= 3 {
      var t :- input.ReadUtf();
      uuidText := Some(t);
    }
    var device :- input.ReadInt();
    if version == 1 {
      var _ :- input.ReadUtf();
    }
    r := Ok(SenderFields(kind, source, uuidText, device));
  }

  method ReadPayload(input: DataInput) returns (r: Result<PayloadFields, ReadError>)
    requires input.Valid()
    modifies input
    ensures input.Valid() && Outcome(r, input.Remaining()) == ParsePayload(old(input.Remaining()))
  {
    var timestamp :- input.ReadLong();
    var content :- input.ReadBlob();
    var legacy :- input.ReadBlob();
    r := Ok(PayloadFields(timestamp, content, legacy));
  }

  method ReadServer(input: DataInput, version: int32) returns (r: Result<ServerFields, ReadError>)
    requires input.Valid()
    modifies input
    ensures input.Valid() && Outcome(r, input.Remaining()) == ParseServer(version, old(input.Remaining()))
  {
    var received: int64 := 0;
    var guid := None;
    if version >= 2 {
      received :- input.ReadLong();
      var g :- input.ReadUtf();
      guid := Some(g);
    }
    var delivered: int64 := 0;
    if version >= 4 {
      delivered :- input.ReadLong();
    }
    r := Ok(ServerFields(received, guid, delivered));
  }

  /** `loadEnvelope`: the cached file read field by field through a stream. */
  method LoadEnvelope(file: Bytes) returns (r: Result<Option<Envelope>, ReadError>)
    ensures r == Load(file)
  {
    var input := new DataInput(file);
    var version :- input.ReadInt();
    if version > 4 {
      return Ok(None);
    }
    var f :- ReadSender(input, version);
    var p :- ReadPayload(input);
    var t :- ReadServer(input, version);
    r := Ok(Some(MakeEnvelope(f.kind, f.source, f.uuidText, f.device, p.timestamp, p.content,
                              p.legacy, t.received, t.guid, t.delivered)));
  }
}

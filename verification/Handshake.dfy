/** The hand-written codec of the connection handshake, and its agreement with the
    generated records. */
module Handshake {
  import opened Common
  import opened Bytes
  import opened Jute
  import opened RecordIO
  import opened Records

  const HANDSHAKE_REQ_SIZE := 44
  const PRIMER_SIZE := 40
  const PASSWD_SIZE := 16

  type Password = bs: seq<byte> | |bs| == PASSWD_SIZE witness seq(16, i => 0)

  datatype ConnectReq = ConnectReq(protocolVersion: int32, lastZxidSeen: int64, timeOut: int32,
                                   sessionId: int64, passwdLen: int32, passwd: Password)
  datatype PrimeStruct = PrimeStruct(len: int32, protocolVersion: int32, timeOut: int32,
                                     sessionId: int64, passwdLen: int32, passwd: Password)

  /** `memcpy` into a fixed buffer. */
  method Copy(buffer: array<byte>, offset: nat, bs: seq<byte>) returns (next: nat)
    requires offset + |bs| <= buffer.Length
    modifies buffer
    ensures next == offset + |bs|
    ensures buffer[..next] == old(buffer[..offset]) + bs
  {
    forall k | 0 <= k < |bs| { buffer[offset + k] := bs[k]; }
    next := offset + |bs|;
  }

  function PrimeConnectBytes(req: ConnectReq): (bs: seq<byte>)
    ensures |bs| == HANDSHAKE_REQ_SIZE
  {
    EncodeInt(req.protocolVersion) + EncodeLong(req.lastZxidSeen) + EncodeInt(req.timeOut)
    + EncodeLong(req.sessionId) + EncodeInt(req.passwdLen) + req.passwd
  }

  method SerializePrimeConnect(req: ConnectReq, buffer: array<byte>)
    requires buffer.Length == HANDSHAKE_REQ_SIZE
    modifies buffer
    ensures buffer[..] == PrimeConnectBytes(req)
    ensures buffer[..] == EncodeInt(req.protocolVersion) + EncodeLong(req.lastZxidSeen) + EncodeInt(req.timeOut)
                          + EncodeLong(req.sessionId) + EncodeInt(req.passwdLen) + req.passwd
  {
    var offset := Copy(buffer, 0, EncodeInt(req.protocolVersion));
    var z := SwappedLong(req.lastZxidSeen);
    offset := Copy(buffer, offset, z);
    offset := Copy(buffer, offset, EncodeInt(req.timeOut));
    var s := SwappedLong(req.sessionId);
    offset := Copy(buffer, offset, s);
    offset := Copy(buffer, offset, EncodeInt(req.passwdLen));
    offset := Copy(buffer, offset, req.passwd);
    assert buffer[..] == buffer[..offset];
  }

  method SwappedLong(x: int64) returns (bs: seq<byte>)
    ensures bs == EncodeLong(x)
  {
    var a := Memory(HostLong(x));
    Htonll(a);
    SwapHostLong(x);
    bs := a[..];
  }

  /** The hand-written request has the bytes of the generated one exactly when the
      announced password length is the size of the password. */
  lemma PrimeConnectAgrees(req: ConnectReq)
    ensures PrimeConnectBytes(req)
              == Encode(ConnectRequestValue(ConnectRequest(req.protocolVersion, req.lastZxidSeen, req.timeOut,
                                                           req.sessionId, Some(req.passwd))))
            <==> req.passwdLen == PASSWD_SIZE
  {
    var v := ConnectRequestValue(ConnectRequest(req.protocolVersion, req.lastZxidSeen, req.timeOut,
                                                req.sessionId, Some(req.passwd)));
    var head := EncodeInt(req.protocolVersion) + EncodeLong(req.lastZxidSeen) + EncodeInt(req.timeOut)
                + EncodeLong(req.sessionId);
    var size := EncodeInt(PASSWD_SIZE);
    FiveFields(v.fields);
    assert Encode(v) == head + size + req.passwd by {
      assert EncodeInt(PASSWD_SIZE) == BigEndian(4, PASSWD_SIZE);
    }
    assert PrimeConnectBytes(req) == head + EncodeInt(req.passwdLen) + req.passwd;
    assert (head + EncodeInt(req.passwdLen) + req.passwd)[|head|..|head| + 4] == EncodeInt(req.passwdLen);
    assert (head + size + req.passwd)[|head|..|head| + 4] == size;
    IntRoundTrip(req.passwdLen);
    IntRoundTrip(PASSWD_SIZE);
  }

  lemma FiveFields(vs: seq<Value>)
    requires |vs| == 5
    ensures Encode(VRecord(vs)) == Encode(vs[0]) + Encode(vs[1]) + Encode(vs[2]) + Encode(vs[3]) + Encode(vs[4])
  {
    var c1 := Encode(vs[0]);
    var c2 := c1 + Encode(vs[1]);
    var c3 := c2 + Encode(vs[2]);
    var c4 := c3 + Encode(vs[3]);
    WrittenRecord(vs, [[], c1, c2, c3, c4, c4 + Encode(vs[4])]);
  }

  function PrimeFields(bs: seq<byte>): PrimeStruct
    requires |bs| == PRIMER_SIZE
  {
    PrimeStruct(DecodeInt(bs[0..4]), DecodeInt(bs[4..8]), DecodeInt(bs[8..12]),
                DecodeLong(bs[12..20]), DecodeInt(bs[20..24]), bs[24..40])
  }

  method DeserializePrimeResponse(buffer: seq<byte>) returns (req: PrimeStruct)
    requires |buffer| == PRIMER_SIZE
    ensures req == PrimeFields(buffer)
    ensures req.len == DecodeInt(buffer[0..4]) && req.protocolVersion == DecodeInt(buffer[4..8])
    ensures req.timeOut == DecodeInt(buffer[8..12]) && req.sessionId == DecodeLong(buffer[12..20])
    ensures req.passwdLen == DecodeInt(buffer[20..24]) && req.passwd == buffer[24..40]
  {
    var offset := 0;
    var len := DecodeInt(buffer[offset..offset + 4]);
    offset := offset + 4;
    var protocolVersion := DecodeInt(buffer[offset..offset + 4]);
    offset := offset + 4;
    var timeOut := DecodeInt(buffer[offset..offset + 4]);
    offset := offset + 4;
    var sessionId := SwapLong(buffer[offset..offset + 8]);
    offset := offset + 8;
    var passwdLen := DecodeInt(buffer[offset..offset + 4]);
    offset := offset + 4;
    req := PrimeStruct(len, protocolVersion, timeOut, sessionId, passwdLen, buffer[offset..offset + PASSWD_SIZE]);
  }

  method SwapLong(bs: seq<byte>) returns (x: int64)
    requires |bs| == 8
    ensures x == DecodeLong(bs)
  {
    var a := Memory(bs);
    Htonll(a);
    UnswapHostLong(bs);
    x := FromHostLong(a[..]);
  }

  /** The handshake reply on the wire: a length, then a ConnectResponse. */
  const REPLY_TYPES := [TInt] + CONNECT_RESPONSE_TYPE.fields

  function ReplyValue(p: PrimeStruct): Value {
    var response := ConnectResponse(p.protocolVersion, p.timeOut, p.sessionId, Some(p.passwd));
    VRecord([VInt(p.len)] + ConnectResponseValue(response).fields)
  }

  predicate ReplyShape(ts: seq<Type>) {
    |ts| == 5 && ts[0] == TInt && ts[1] == TInt && ts[2] == TInt && ts[3] == TLong && ts[4] == TBuffer
  }

  /** For every 40-byte reply the two decoders agree exactly when the password length
      is 16; the hand-written one never looks at that length. */
  lemma PrimeResponseAgrees(bs: seq<byte>)
    requires |bs| == PRIMER_SIZE
    ensures Parse(TRecord(REPLY_TYPES), bs) == Some((ReplyValue(PrimeFields(bs)), []))
            <==> PrimeFields(bs).passwdLen == PASSWD_SIZE
  {
    ReplyHead(REPLY_TYPES, bs);
    ReplyTail(REPLY_TYPES, bs, ReplyValue(PrimeFields(bs)).fields[..4]);
  }

  const ZERO_REPLY: seq<byte> := seq(PRIMER_SIZE, i => 0)

  /** A reply of zeros announces no password; the hand-written decoder gives one of 16 bytes, the
      generated decoder none. */
  lemma PasswordLengthIgnored()
    ensures PrimeFields(ZERO_REPLY).passwdLen == 0 && PrimeFields(ZERO_REPLY).passwd == ZERO_REPLY[24..]
    ensures Parse(TRecord(REPLY_TYPES), ZERO_REPLY) != Some((ReplyValue(PrimeFields(ZERO_REPLY)), []))
  {
    hide DecodeInt, DecodeLong, Parse, ReplyValue;
    ZeroInt();
    assert ZERO_REPLY[20..24] == [0, 0, 0, 0];
    PrimeResponseAgrees(ZERO_REPLY);
  }

  lemma ReplyHead(ts: seq<Type>, bs: seq<byte>)
    requires |bs| == PRIMER_SIZE && ReplyShape(ts)
    ensures Reading(ts, bs, ReplyValue(PrimeFields(bs)).fields[..4], bs[20..])
  {
    var all := ReplyValue(PrimeFields(bs)).fields;
    ReadingStart(ts, bs);
    assert bs[0..] == bs;
    var vs: seq<Value> := [];
    ReplyField(ts, bs, vs, 0, 4, all[0]);
    vs := vs + [all[0]];
    ReplyField(ts, bs, vs, 4, 4, all[1]);
    vs := vs + [all[1]];
    ReplyField(ts, bs, vs, 8, 4, all[2]);
    vs := vs + [all[2]];
    ReplyField(ts, bs, vs, 12, 8, all[3]);
    vs := vs + [all[3]];
    assert vs == all[..4];
  }

  /** One fixed-width field of the reply, at offset `off`. */
  lemma ReplyField(ts: seq<Type>, bs: seq<byte>, vs: seq<Value>, off: nat, width: nat, v: Value)
    requires off + width <= |bs| && |vs| < |ts| && Reading(ts, bs, vs, bs[off..])
    requires (ts[|vs|] == TInt && width == 4 && v == VInt(DecodeInt(bs[off..off + 4])))
             || (ts[|vs|] == TLong && width == 8 && v == VLong(DecodeLong(bs[off..off + 8])))
    ensures Reading(ts, bs, vs + [v], bs[off + width..])
  {
    assert bs[off..][..width] == bs[off..off + width] && bs[off..][width..] == bs[off + width..];
    ReadingStep(ts, bs, vs, bs[off..]);
  }

  lemma ReplyTail(ts: seq<Type>, bs: seq<byte>, vs: seq<Value>)
    requires |bs| == PRIMER_SIZE && ReplyShape(ts)
    requires vs == ReplyValue(PrimeFields(bs)).fields[..4]
    requires Reading(ts, bs, vs, bs[20..])
    ensures Parse(TRecord(ts), bs) == Some((ReplyValue(PrimeFields(bs)), []))
            <==> PrimeFields(bs).passwdLen == PASSWD_SIZE
  {
    var p := PrimeFields(bs);
    var fields := ReplyValue(p).fields;
    PasswordField(bs);
    ReadingStep(ts, bs, vs, bs[20..]);
    var last := Parse(TBuffer, bs[20..]);
    if last.Some? {
      var (v, rest) := last.value;
      ReadingEnd(ts, bs, vs + [v], rest);
      assert (vs + [v])[4] == v;
      assert fields == vs + [fields[4]];
    }
  }

  lemma PasswordField(bs: seq<byte>)
    requires |bs| == PRIMER_SIZE
    ensures Parse(TBuffer, bs[20..]) == Some((VBuffer(Some(PrimeFields(bs).passwd)), []))
            <==> PrimeFields(bs).passwdLen == PASSWD_SIZE
    ensures var last := Parse(TBuffer, bs[20..]);
            last.Some? ==> (last.value.0 == VBuffer(Some(PrimeFields(bs).passwd)) <==>
                              PrimeFields(bs).passwdLen == PASSWD_SIZE)
  {
    var tail := bs[20..];
    assert tail[..4] == bs[20..24] && tail[4..] == bs[24..];
    assert tail[4..][..16] == PrimeFields(bs).passwd && tail[4..][16..] == [];
  }
}

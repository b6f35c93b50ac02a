/** The wire format of every generated record, given once for all record types. */
module Jute {
  import opened Common
  import opened Bytes

  datatype Type =
    | TInt | TLong | TBool | TBuffer | TString
    | TVector(elem: Type)
    | TRecord(fields: seq<Type>)

  datatype Value =
    | VInt(i: int32)
    | VLong(l: int64)
    | VBool(b: int32)
    | VBuffer(data: Option<seq<byte>>)
    | VString(s: seq<byte>)
    | VVector(items: seq<Value>)
    | VRecord(fields: seq<Value>)

  const MAX_COUNT := 0x8000_0000

  ghost predicate HasType(v: Value, t: Type)
    decreases v, 1
  {
    match (v, t)
    case (VInt(_), TInt) => true
    case (VLong(_), TLong) => true
    case (VBool(_), TBool) => true
    case (VBuffer(data), TBuffer) => data.Some? ==> |data.value| < MAX_COUNT
    case (VString(s), TString) => |s| < MAX_COUNT
    case (VVector(items), TVector(elem)) =>
      |items| < MAX_COUNT && forall i | 0 <= i < |items| :: HasType(items[i], elem)
    case (VRecord(fields), TRecord(types)) => AllHaveTypes(fields, types)
    case _ => false
  }

  ghost predicate AllHaveTypes(vs: seq<Value>, ts: seq<Type>)
    decreases vs, 0
  {
    |vs| == |ts| && (vs == [] || (HasType(vs[0], ts[0]) && AllHaveTypes(vs[1..], ts[1..])))
  }

  /** What the serializers append for a value. */
  function Encode(v: Value): seq<byte>
    decreases v, 1
  {
    match v
    case VInt(i) => EncodeInt(i)
    case VLong(l) => EncodeLong(l)
    case VBool(b) => [if b == 0 then 0 else 1]
    case VBuffer(None) => EncodeInt(-1)
    case VBuffer(Some(data)) => BigEndian(4, |data|) + data
    case VString(s) => BigEndian(4, |s|) + s
    case VVector(items) => BigEndian(4, |items|) + EncodeAll(items)
    case VRecord(fields) => EncodeAll(fields)
  }

  function EncodeAll(vs: seq<Value>): seq<byte>
    decreases vs, 0
  {
    if vs == [] then [] else Encode(vs[0]) + EncodeAll(vs[1..])
  }

  /** A byte read through a plain (signed) char. */
  function SignedByte(b: byte): int32
  {
    var i: int := b;
    if i < 128 then i else i - 256
  }

  type Parsed<A> = Option<(A, seq<byte>)>

  /** What a bounded input archive holding `bs` yields, and what it leaves unread. */
  function Parse(t: Type, bs: seq<byte>): Parsed<Value>
    decreases t, 0
  {
    match t
    case TInt => if |bs| < 4 then None else Some((VInt(DecodeInt(bs[..4])), bs[4..]))
    case TLong => if |bs| < 8 then None else Some((VLong(DecodeLong(bs[..8])), bs[8..]))
    case TBool => if |bs| < 1 then None
                  else Some((VBool(SignedByte(bs[0])), bs[1..]))
    case TBuffer =>
      if |bs| < 4 then None
      else
        var len, rest := DecodeInt(bs[..4]), bs[4..];
        if len == -1 then Some((VBuffer(None), rest))
        else if len < 0 || |rest| < len then None
        else Some((VBuffer(Some(rest[..len])), rest[len..]))
    case TString =>
      if |bs| < 4 then None
      else
        var len, rest := DecodeInt(bs[..4]), bs[4..];
        if len < 0 || |rest| < len then None
        else Some((VString(rest[..len]), rest[len..]))
    case TVector(elem) =>
      if |bs| < 4 || DecodeInt(bs[..4]) < 0 then None
      else
        (match ParseItems(elem, DecodeInt(bs[..4]), bs[4..])
         case None => None
         case Some((items, rest)) => Some((VVector(items), rest)))
    case TRecord(fields) =>
      (match ParseFields(fields, bs)
       case None => None
       case Some((vs, rest)) => Some((VRecord(vs), rest)))
  }

  function ParseItems(elem: Type, n: nat, bs: seq<byte>): Parsed<seq<Value>>
    decreases elem, n + 1
  {
    if n == 0 then Some(([], bs))
    else
      match Parse(elem, bs)
      case None => None
      case Some((v, rest)) =>
        match ParseItems(elem, n - 1, rest)
        case None => None
        case Some((vs, rest')) => Some(([v] + vs, rest'))
  }

  function ParseFields(ts: seq<Type>, bs: seq<byte>): Parsed<seq<Value>>
    decreases ts
  {
    if ts == [] then Some(([], bs))
    else
      match Parse(ts[0], bs)
      case None => None
      case Some((v, rest)) =>
        match ParseFields(ts[1..], rest)
        case None => None
        case Some((vs, rest')) => Some(([v] + vs, rest'))
  }

  /** Booleans come back as 0 or 1; everything else comes back unchanged. */
  function Normal(v: Value): Value
    decreases v, 1
  {
    match v
    case VBool(b) => VBool(if b == 0 then 0 else 1)
    case VVector(items) => VVector(NormalAll(items))
    case VRecord(fields) => VRecord(NormalAll(fields))
    case _ => v
  }

  function NormalAll(vs: seq<Value>): (r: seq<Value>)
    ensures |r| == |vs|
    decreases vs, 0
  {
    if vs == [] then [] else [Normal(vs[0])] + NormalAll(vs[1..])
  }

  lemma LengthRoundTrip(n: nat)
    requires n < MAX_COUNT
    ensures DecodeInt(BigEndian(4, n)) == n
  {
    IntRoundTrip(n);
    assert EncodeInt(n) == BigEndian(4, n);
  }

  lemma EncodeHead(vs: seq<Value>, rest: seq<byte>)
    requires vs != []
    ensures EncodeAll(vs) + rest == Encode(vs[0]) + (EncodeAll(vs[1..]) + rest)
  {
    Associative(Encode(vs[0]), EncodeAll(vs[1..]), rest);
  }

  // ------------------------------------------------------------ decode after encode

  /** Round trip with remainder, for every record type. */
  lemma {:induction false} RoundTrip(v: Value, t: Type, rest: seq<byte>)
    requires HasType(v, t)
    ensures Parse(t, Encode(v) + rest) == Some((Normal(v), rest))
    decreases v, 1
  {
    hide EncodeInt, EncodeLong, DecodeInt, DecodeLong, BigEndian;
    var bs := Encode(v) + rest;
    match v
    case VInt(i) => IntRoundTrip(i); assert bs[..4] == EncodeInt(i);
    case VLong(l) => LongRoundTrip(l); assert bs[..8] == EncodeLong(l);
    case VBool(b) =>
    case VBuffer(data) =>
      if data.None? {
        IntRoundTrip(-1);
        assert bs[..4] == EncodeInt(-1) && bs[4..] == rest;
      } else {
        CountedRoundTrip(data.value, rest, bs);
      }
    case VString(s) => CountedRoundTrip(s, rest, bs);
    case VVector(items) =>
      LengthRoundTrip(|items|);
      assert bs[..4] == BigEndian(4, |items|) && bs[4..] == EncodeAll(items) + rest;
      ItemsRoundTrip(items, t.elem, rest);
    case VRecord(fields) => FieldsRoundTrip(fields, t.fields, rest);
  }

  lemma CountedRoundTrip(data: seq<byte>, rest: seq<byte>, bs: seq<byte>)
    requires |data| < MAX_COUNT
    requires bs == BigEndian(4, |data|) + data + rest
    ensures DecodeInt(bs[..4]) == |data|
    ensures bs[4..][..|data|] == data && bs[4..][|data|..] == rest
  {
    LengthRoundTrip(|data|);
    Cut(BigEndian(4, |data|), data, rest);
  }

  lemma Cut(head: seq<byte>, data: seq<byte>, rest: seq<byte>)
    ensures var bs := head + data + rest;
            bs[..|head|] == head && bs[|head|..][..|data|] == data && bs[|head|..][|data|..] == rest
  {
    assert (head + data + rest)[|head|..] == data + rest;
  }

  lemma {:induction false} ItemsRoundTrip(vs: seq<Value>, t: Type, rest: seq<byte>)
    requires forall i | 0 <= i < |vs| :: HasType(vs[i], t)
    ensures ParseItems(t, |vs|, EncodeAll(vs) + rest) == Some((NormalAll(vs), rest))
    decreases vs, 0
  {
    if vs == [] {
      assert EncodeAll(vs) + rest == rest;
    } else {
      RoundTrip(vs[0], t, EncodeAll(vs[1..]) + rest);
      ItemsRoundTrip(vs[1..], t, rest);
      EncodeHead(vs, rest);
    }
  }

  lemma {:induction false} FieldsRoundTrip(vs: seq<Value>, ts: seq<Type>, rest: seq<byte>)
    requires AllHaveTypes(vs, ts)
    ensures ParseFields(ts, EncodeAll(vs) + rest) == Some((NormalAll(vs), rest))
    decreases vs, 0
  {
    if vs == [] {
      assert EncodeAll(vs) + rest == rest;
    } else {
      RoundTrip(vs[0], ts[0], EncodeAll(vs[1..]) + rest);
      FieldsRoundTrip(vs[1..], ts[1..], rest);
      EncodeHead(vs, rest);
    }
  }

  // ------------------------------------------------------------ encode after decode

  predicate HasBool(t: Type)
    decreases t
  {
    match t
    case TBool => true
    case TVector(elem) => HasBool(elem)
    case TRecord(fields) => exists i | 0 <= i < |fields| :: HasBool(fields[i])
    case _ => false
  }

  /** A decoder reads only what the encoder could have written: whatever it accepts
      is well typed, and re-encodes to exactly the bytes consumed. */
  lemma {:induction false} DecodeExact(t: Type, bs: seq<byte>)
    requires Parse(t, bs).Some? && |bs| < MAX_COUNT
    ensures var (v, rest) := Parse(t, bs).value;
            HasType(v, t) && |Encode(v) + rest| == |bs| && (!HasBool(t) ==> Encode(v) + rest == bs)
    decreases t, 0
  {
    hide EncodeInt, EncodeLong, DecodeInt, DecodeLong, BigEndian;
    var (v, rest) := Parse(t, bs).value;
    match t
    case TInt => IntBytesRoundTrip(bs[..4]);
    case TLong => LongBytesRoundTrip(bs[..8]);
    case TBool =>
    case TBuffer => BufferExact(bs);
    case TString => CountedExact(bs);
    case TVector(elem) => VectorExact(elem, bs);
    case TRecord(fields) => FieldsExact(fields, bs);
  }

  lemma BufferExact(bs: seq<byte>)
    requires Parse(TBuffer, bs).Some? && |bs| < MAX_COUNT
    ensures var (v, rest) := Parse(TBuffer, bs).value; HasType(v, TBuffer) && Encode(v) + rest == bs
  {
    hide EncodeInt, DecodeInt, BigEndian;
    var (v, rest) := Parse(TBuffer, bs).value;
    if v.data.Some? {
      CountedExact(bs);
      assert Encode(v) == BigEndian(4, |v.data.value|) + v.data.value;
    } else {
      IntBytesRoundTrip(bs[..4]);
      assert bs == bs[..4] + bs[4..] && Encode(v) == bs[..4];
    }
  }

  lemma {:induction false} VectorExact(elem: Type, bs: seq<byte>)
    requires Parse(TVector(elem), bs).Some? && |bs| < MAX_COUNT
    ensures var (v, rest) := Parse(TVector(elem), bs).value;
            && HasType(v, TVector(elem)) && |Encode(v) + rest| == |bs|
            && (!HasBool(elem) ==> Encode(v) + rest == bs)
    decreases elem, MAX_COUNT + 1
  {
    hide EncodeInt, DecodeInt, BigEndian, HasBool;
    var n := DecodeInt(bs[..4]);
    CountBytes(bs[..4]);
    ItemsExact(elem, n, bs[4..]);
    assert bs == bs[..4] + bs[4..];
  }

  lemma CountBytes(bs: seq<byte>)
    requires |bs| == 4 && DecodeInt(bs) >= 0
    ensures BigEndian(4, DecodeInt(bs)) == bs
  {
    IntBytesRoundTrip(bs);
    assert EncodeInt(DecodeInt(bs)) == BigEndian(4, DecodeInt(bs));
  }

  lemma CountedExact(bs: seq<byte>)
    requires |bs| >= 4 && 0 <= DecodeInt(bs[..4]) <= |bs| - 4
    ensures var len := DecodeInt(bs[..4]);
            BigEndian(4, len) + bs[4..][..len] + bs[4..][len..] == bs
  {
    CountBytes(bs[..4]);
  }

  lemma {:induction false} ItemsExact(t: Type, n: nat, bs: seq<byte>)
    requires ParseItems(t, n, bs).Some? && |bs| < MAX_COUNT
    ensures var (vs, rest) := ParseItems(t, n, bs).value;
            && |vs| == n && (forall i | 0 <= i < n :: HasType(vs[i], t))
            && |EncodeAll(vs) + rest| == |bs| && (!HasBool(t) ==> EncodeAll(vs) + rest == bs)
    decreases t, n + 1
  {
    hide HasBool, Encode, HasType, Parse;
    if n > 0 {
      DecodeExact(t, bs);
      var (v, mid) := Parse(t, bs).value;
      ItemsExact(t, n - 1, mid);
      var (vs, rest) := ParseItems(t, n, bs).value;
      assert vs[0] == v && vs[1..] == ParseItems(t, n - 1, mid).value.0;
      EncodeHead(vs, rest);
    }
  }

  lemma {:induction false} FieldsExact(ts: seq<Type>, bs: seq<byte>)
    requires ParseFields(ts, bs).Some? && |bs| < MAX_COUNT
    ensures var (vs, rest) := ParseFields(ts, bs).value;
            && AllHaveTypes(vs, ts) && |EncodeAll(vs) + rest| == |bs|
            && ((forall i | 0 <= i < |ts| :: !HasBool(ts[i])) ==> EncodeAll(vs) + rest == bs)
    decreases ts
  {
    if ts != [] {
      DecodeExact(ts[0], bs);
      var (v, mid) := Parse(ts[0], bs).value;
      FieldsExact(ts[1..], mid);
      var (vs, rest) := ParseFields(ts, bs).value;
      assert vs[0] == v && vs[1..] == ParseFields(ts[1..], mid).value.0;
      EncodeHead(vs, rest);
    }
  }
}

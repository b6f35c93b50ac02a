/** The archives of recordio.c: a growing output buffer and a bounded input one. */
module RecordIO {
  import opened Common
  import opened Bytes
  import opened Jute

  const INITIAL_LENGTH := 128
  const E2BIG := 7
  const ENOMEM := 12

  /** The bytes of a local variable. */
  method Memory(bs: seq<byte>) returns (a: array<byte>)
    ensures fresh(a) && a[..] == bs
  {
    a := new byte[|bs|];
    forall k | 0 <= k < |bs| { a[k] := bs[k]; }
  }

  class OutArchive {
    var len: int
    var off: int
    var buffer: array<byte>

    ghost predicate Valid()
      reads this
    {
      0 <= off <= len == buffer.Length && len > 0
    }

    /** The bytes the archive holds; spare capacity does not show. */
    ghost function Contents(): seq<byte>
      requires Valid()
      reads this, buffer
    {
      buffer[..off]
    }

    constructor ()
      ensures Valid() && fresh(buffer) && Contents() == []
    {
      len, off := INITIAL_LENGTH, 0;
      buffer := new byte[INITIAL_LENGTH];
    }

    method Resize(newlen: int)
      requires Valid()
      modifies this
      ensures Valid() && fresh(buffer) && buffer.Length >= newlen
      ensures off == old(off) && Contents() == old(Contents())
    {
      while len < newlen
        invariant len >= old(len) && off == old(off) && buffer == old(buffer)
        decreases newlen - len
      {
        len := len * 2;
      }
      var bigger := new byte[len];
      forall k | 0 <= k < off { bigger[k] := buffer[k]; }
      assert bigger[..off] == buffer[..off];
      buffer := bigger;
    }

    /** The common tail of the primitives: make room, copy, advance. */
    method Append(bs: seq<byte>)
      requires Valid()
      modifies this, buffer
      ensures Valid() && fresh({buffer} - {old(buffer)})
      ensures Contents() == old(Contents()) + bs
    {
      if len - off < |bs| {
        Resize(len + |bs|);
      }
      forall k | 0 <= k < |bs| { buffer[off + k] := bs[k]; }
      assert buffer[..off] == old(Contents());
      off := off + |bs|;
      assert buffer[..off] == old(Contents()) + bs;
    }

    method SerializeInt(d: int32)
      requires Valid()
      modifies this, buffer
      ensures Valid() && fresh({buffer} - {old(buffer)})
      ensures Contents() == old(Contents()) + EncodeInt(d)
      ensures Contents() == old(Contents()) + Encode(VInt(d))
    {
      Append(EncodeInt(d));
    }

    method SerializeLong(d: int64)
      requires Valid()
      modifies this, buffer
      ensures Valid() && fresh({buffer} - {old(buffer)})
      ensures Contents() == old(Contents()) + EncodeLong(d)
      ensures Contents() == old(Contents()) + Encode(VLong(d))
    {
      var i := Memory(HostLong(d));
      Htonll(i);
      SwapHostLong(d);
      Append(i[..]);
    }

    method SerializeBool(i: int32)
      requires Valid()
      modifies this, buffer
      ensures Valid() && fresh({buffer} - {old(buffer)})
      ensures Contents() == old(Contents()) + [if i == 0 then 0 else 1]
      ensures Contents() == old(Contents()) + Encode(VBool(i))
    {
      Append([if i == 0 then 0 else 1]);
    }

    method SerializeBuffer(b: Option<seq<byte>>)
      requires Valid()
      requires b.Some? ==> |b.value| < MAX_COUNT
      modifies this, buffer
      ensures Valid() && fresh({buffer} - {old(buffer)})
      ensures Contents() == old(Contents()) + if b.None? then EncodeInt(-1) else EncodeInt(|b.value|) + b.value
      ensures Contents() == old(Contents()) + Encode(VBuffer(b))
    {
      if b.None? {
        SerializeInt(-1);
        return;
      }
      SerializeInt(|b.value|);
      Append(b.value);
      assert EncodeInt(|b.value|) == BigEndian(4, |b.value|);
    }

    /** A null string is written as the length -1 alone. */
    method SerializeString(s: Option<seq<byte>>)
      requires Valid()
      requires s.Some? ==> |s.value| < MAX_COUNT
      modifies this, buffer
      ensures Valid() && fresh({buffer} - {old(buffer)})
      ensures Contents() == old(Contents()) + if s.None? then EncodeInt(-1) else EncodeInt(|s.value|) + s.value
      ensures s.Some? ==> Contents() == old(Contents()) + Encode(VString(s.value))
    {
      if s.None? {
        SerializeInt(-1);
        return;
      }
      SerializeInt(|s.value|);
      Append(s.value);
      assert EncodeInt(|s.value|) == BigEndian(4, |s.value|);
    }
  }

  class InArchive {
    const buffer: seq<byte>
    const len: int
    var off: int

    ghost predicate Valid()
      reads this
    {
      0 <= off <= len == |buffer|
    }

    ghost function Rest(): seq<byte>
      requires Valid()
      reads this
    {
      buffer[off..]
    }

    constructor (bs: seq<byte>)
      ensures Valid() && Rest() == bs
    {
      buffer, len, off := bs, |bs|, 0;
    }

    method DeserializeInt() returns (rc: int, count: int32)
      requires Valid()
      modifies this
      ensures Valid()
      ensures match Parse(TInt, old(Rest()))
              case Some((v, rest)) => rc == 0 && VInt(count) == v && Rest() == rest
              case None => rc == -E2BIG && Rest() == old(Rest())
    {
      if len - off < 4 {
        return -E2BIG, 0;
      }
      count := DecodeInt(buffer[off..off + 4]);
      assert buffer[off..off + 4] == Rest()[..4];
      off := off + 4;
      rc := 0;
    }

    method DeserializeLong() returns (rc: int, count: int64)
      requires Valid()
      modifies this
      ensures Valid()
      ensures match Parse(TLong, old(Rest()))
              case Some((v, rest)) => rc == 0 && VLong(count) == v && Rest() == rest
              case None => rc == -E2BIG && Rest() == old(Rest())
    {
      if len - off < 8 {
        return -E2BIG, 0;
      }
      var a := Memory(buffer[off..off + 8]);
      Htonll(a);
      count := FromHostLong(a[..]);
      UnswapHostLong(buffer[off..off + 8]);
      assert buffer[off..off + 8] == Rest()[..8];
      off := off + 8;
      rc := 0;
    }

    method DeserializeBool() returns (rc: int, v: int32)
      requires Valid()
      modifies this
      ensures Valid()
      ensures match Parse(TBool, old(Rest()))
              case Some((b, rest)) => rc == 0 && VBool(v) == b && Rest() == rest
              case None => rc == -E2BIG && Rest() == old(Rest())
      ensures rc == 0 <==> old(Rest()) != []
      ensures rc == 0 ==> old(Rest())[0] == (if v < 0 then v + 256 else v) && -128 <= v < 128
    {
      if len - off < 1 {
        return -E2BIG, 0;
      }
      v := SignedByte(buffer[off]);
      off := off + 1;
      rc := 0;
    }

    /** A length below -1 makes the allocation fail. */
    method DeserializeBuffer() returns (rc: int, b: Option<seq<byte>>)
      requires Valid()
      modifies this
      ensures Valid()
      ensures match Parse(TBuffer, old(Rest()))
              case Some((v, rest)) => rc == 0 && VBuffer(b) == v && Rest() == rest
              case None => rc < 0
    {
      var n;
      b := None;
      rc, n := DeserializeInt();
      if rc < 0 { return; }
      if len - off < n {
        return -E2BIG, None;
      }
      if n == -1 {
        return rc, None;
      }
      if n < 0 {
        return -ENOMEM, None;
      }
      b := Some(buffer[off..off + n]);
      assert buffer[off..off + n] == Rest()[..n];
      off := off + n;
      rc := 0;
    }

    /** A negative length makes the allocation, or for -1 the copy, fail. */
    method DeserializeString() returns (rc: int, s: seq<byte>)
      requires Valid()
      modifies this
      ensures Valid()
      ensures match Parse(TString, old(Rest()))
              case Some((v, rest)) => rc == 0 && VString(s) == v && Rest() == rest
              case None => rc < 0
    {
      var n;
      s := [];
      rc, n := DeserializeInt();
      if rc < 0 { return; }
      if len - off < n {
        return -E2BIG, [];
      }
      if n < 0 {
        return -ENOMEM, [];
      }
      s := buffer[off..off + n];
      assert buffer[off..off + n] == Rest()[..n];
      off := off + n;
      rc := 0;
    }
  }
}

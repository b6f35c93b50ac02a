/** Generated record code: field-by-field calls on the archives, shown to write and
    read the wire format of Jute. */
module Records {
  import opened Common
  import opened Bytes
  import opened Jute
  import opened RecordIO

  datatype Id = Id(scheme: seq<byte>, id: seq<byte>)
  datatype Acl = Acl(perms: int32, id: Id)
  datatype SetWatches = SetWatches(relativeZxid: int64, dataWatches: seq<seq<byte>>,
                                   existWatches: seq<seq<byte>>, childWatches: seq<seq<byte>>)
  datatype CreateRequest = CreateRequest(path: seq<byte>, data: Option<seq<byte>>, acl: seq<Acl>, flags: int32)
  datatype ConnectRequest = ConnectRequest(protocolVersion: int32, lastZxidSeen: int64, timeOut: int32,
                                           sessionId: int64, passwd: Option<seq<byte>>)
  datatype ConnectResponse = ConnectResponse(protocolVersion: int32, timeOut: int32,
                                             sessionId: int64, passwd: Option<seq<byte>>)

  const ID_TYPE := TRecord([TString, TString])
  const ACL_TYPE := TRecord([TInt, ID_TYPE])
  const STRINGS_TYPE := TVector(TString)
  const SET_WATCHES_TYPE := TRecord([TLong, STRINGS_TYPE, STRINGS_TYPE, STRINGS_TYPE])
  const CREATE_REQUEST_TYPE := TRecord([TString, TBuffer, TVector(ACL_TYPE), TInt])
  const CONNECT_RESPONSE_TYPE := TRecord([TInt, TInt, TLong, TBuffer])

  function IdValue(v: Id): Value { VRecord([VString(v.scheme), VString(v.id)]) }

  function AclValue(v: Acl): Value { VRecord([VInt(v.perms), IdValue(v.id)]) }

  function StringValues(v: seq<seq<byte>>): (r: seq<Value>)
    ensures |r| == |v| && forall i | 0 <= i < |v| :: r[i] == VString(v[i])
  {
    seq(|v|, i requires 0 <= i < |v| => VString(v[i]))
  }

  function AclValues(v: seq<Acl>): (r: seq<Value>)
    ensures |r| == |v| && forall i | 0 <= i < |v| :: r[i] == AclValue(v[i])
  {
    seq(|v|, i requires 0 <= i < |v| => AclValue(v[i]))
  }

  function SetWatchesValue(v: SetWatches): Value {
    VRecord([VLong(v.relativeZxid), VVector(StringValues(v.dataWatches)),
             VVector(StringValues(v.existWatches)), VVector(StringValues(v.childWatches))])
  }

  function CreateRequestValue(v: CreateRequest): Value {
    VRecord([VString(v.path), VBuffer(v.data), VVector(AclValues(v.acl)), VInt(v.flags)])
  }

  function ConnectRequestValue(v: ConnectRequest): Value {
    VRecord([VInt(v.protocolVersion), VLong(v.lastZxidSeen), VInt(v.timeOut), VLong(v.sessionId), VBuffer(v.passwd)])
  }

  function ConnectResponseValue(v: ConnectResponse): Value {
    VRecord([VInt(v.protocolVersion), VInt(v.timeOut), VLong(v.sessionId), VBuffer(v.passwd)])
  }

  // Lengths and counts are 32-bit.
  predicate Fits(s: seq<byte>) { |s| < MAX_COUNT }

  predicate FitsAll(v: seq<seq<byte>>) { |v| < MAX_COUNT && forall i | 0 <= i < |v| :: Fits(v[i]) }

  predicate AclFits(a: Acl) { Fits(a.id.scheme) && Fits(a.id.id) }

  predicate AclsFit(v: seq<Acl>) { |v| < MAX_COUNT && forall i | 0 <= i < |v| :: AclFits(v[i]) }

  // ------------------------------------------------------------ serializers

  /** `base` followed by the bytes of the first `k` values. */
  ghost predicate Written(base: seq<byte>, vs: seq<Value>, k: nat, now: seq<byte>) {
    k <= |vs| && now == base + EncodeAll(vs[..k])
  }

  lemma WrittenStart(base: seq<byte>, vs: seq<Value>)
    ensures Written(base, vs, 0, base)
  {
    assert EncodeAll(vs[..0]) == [] && base + [] == base;
  }

  lemma WrittenStep(base: seq<byte>, vs: seq<Value>, k: nat, before: seq<byte>, now: seq<byte>)
    requires Written(base, vs, k, before) && k < |vs| && now == before + Encode(vs[k])
    ensures Written(base, vs, k + 1, now)
  {
    EncodeSnoc(vs[..k], vs[k]);
    assert vs[..k + 1] == vs[..k] + [vs[k]];
  }

  /** A record has been written when each field was written after the one before. */
  lemma WrittenRecord(vs: seq<Value>, c: seq<seq<byte>>)
    requires |c| == |vs| + 1
    requires forall k | 0 <= k < |vs| :: c[k + 1] == c[k] + Encode(vs[k])
    ensures c[|vs|] == c[0] + Encode(VRecord(vs))
  {
    WrittenStart(c[0], vs);
    for k := 0 to |vs|
      invariant Written(c[0], vs, k, c[k])
    {
      WrittenStep(c[0], vs, k, c[k], c[k + 1]);
    }
    assert vs[..|vs|] == vs;
  }

  lemma WrittenVector(base: seq<byte>, vs: seq<Value>, now: seq<byte>)
    requires |vs| < MAX_COUNT && Written(base + EncodeInt(|vs|), vs, |vs|, now)
    ensures now == base + Encode(VVector(vs))
  {
    assert vs[..|vs|] == vs;
    assert EncodeInt(|vs|) == BigEndian(4, |vs|);
  }

  lemma {:induction false} EncodeSnoc(vs: seq<Value>, v: Value)
    ensures EncodeAll(vs + [v]) == EncodeAll(vs) + Encode(v)
  {
    if vs == [] {
      assert [v][1..] == [] && vs + [v] == [v];
    } else {
      EncodeSnoc(vs[1..], v);
      assert (vs + [v])[1..] == vs[1..] + [v];
    }
  }

  method SerializeId(out: OutArchive, v: Id)
    requires out.Valid() && Fits(v.scheme) && Fits(v.id)
    modifies out, out.buffer
    ensures out.Valid() && fresh({out.buffer} - {old(out.buffer)})
    ensures out.Contents() == old(out.Contents()) + Encode(IdValue(v))
  {
    ghost var c0 := out.Contents();
    out.SerializeString(Some(v.scheme));
    ghost var c1 := out.Contents();
    out.SerializeString(Some(v.id));
    ghost var c2 := out.Contents();
    WrittenRecord(IdValue(v).fields, [c0, c1, c2]);
  }

  method SerializeAcl(out: OutArchive, v: Acl)
    requires out.Valid() && AclFits(v)
    modifies out, out.buffer
    ensures out.Valid() && fresh({out.buffer} - {old(out.buffer)})
    ensures out.Contents() == old(out.Contents()) + Encode(AclValue(v))
  {
    ghost var c0 := out.Contents();
    out.SerializeInt(v.perms);
    ghost var c1 := out.Contents();
    SerializeId(out, v.id);
    ghost var c2 := out.Contents();
    WrittenRecord(AclValue(v).fields, [c0, c1, c2]);
  }

  method SerializeStrings(out: OutArchive, v: seq<seq<byte>>)
    requires out.Valid() && FitsAll(v)
    modifies out, out.buffer
    ensures out.Valid() && fresh({out.buffer} - {old(out.buffer)})
    ensures out.Contents() == old(out.Contents()) + Encode(VVector(StringValues(v)))
  {
    ghost var start, vs := out.Contents(), StringValues(v);
    out.SerializeInt(|v|);
    ghost var base := start + EncodeInt(|v|);
    WrittenStart(base, vs);
    var i := 0;
    while i < |v|
      invariant 0 <= i <= |v|
      invariant out.Valid() && fresh({out.buffer} - {old(out.buffer)})
      invariant Written(base, vs, i, out.Contents())
    {
      ghost var before := out.Contents();
      out.SerializeString(Some(v[i]));
      WrittenStep(base, vs, i, before, out.Contents());
      i := i + 1;
    }
    WrittenVector(start, vs, out.Contents());
  }

  method SerializeAcls(out: OutArchive, v: seq<Acl>)
    requires out.Valid() && AclsFit(v)
    modifies out, out.buffer
    ensures out.Valid() && fresh({out.buffer} - {old(out.buffer)})
    ensures out.Contents() == old(out.Contents()) + Encode(VVector(AclValues(v)))
  {
    ghost var start, vs := out.Contents(), AclValues(v);
    out.SerializeInt(|v|);
    ghost var base := start + EncodeInt(|v|);
    WrittenStart(base, vs);
    var i := 0;
    while i < |v|
      invariant 0 <= i <= |v|
      invariant out.Valid() && fresh({out.buffer} - {old(out.buffer)})
      invariant Written(base, vs, i, out.Contents())
    {
      ghost var before := out.Contents();
      SerializeAcl(out, v[i]);
      WrittenStep(base, vs, i, before, out.Contents());
      i := i + 1;
    }
    WrittenVector(start, vs, out.Contents());
  }

  method SerializeSetWatches(out: OutArchive, v: SetWatches)
    requires out.Valid() && FitsAll(v.dataWatches) && FitsAll(v.existWatches) && FitsAll(v.childWatches)
    modifies out, out.buffer
    ensures out.Valid() && fresh({out.buffer} - {old(out.buffer)})
    ensures out.Contents() == old(out.Contents()) + Encode(SetWatchesValue(v))
  {
    ghost var c0 := out.Contents();
    out.SerializeLong(v.relativeZxid);
    ghost var c1 := out.Contents();
    SerializeStrings(out, v.dataWatches);
    ghost var c2 := out.Contents();
    SerializeStrings(out, v.existWatches);
    ghost var c3 := out.Contents();
    SerializeStrings(out, v.childWatches);
    ghost var c4 := out.Contents();
    WrittenRecord(SetWatchesValue(v).fields, [c0, c1, c2, c3, c4]);
  }

  method SerializeCreateRequest(out: OutArchive, v: CreateRequest)
    requires out.Valid() && Fits(v.path) && (v.data.Some? ==> Fits(v.data.value)) && AclsFit(v.acl)
    modifies out, out.buffer
    ensures out.Valid() && fresh({out.buffer} - {old(out.buffer)})
    ensures out.Contents() == old(out.Contents()) + Encode(CreateRequestValue(v))
  {
    ghost var c0 := out.Contents();
    out.SerializeString(Some(v.path));
    ghost var c1 := out.Contents();
    out.SerializeBuffer(v.data);
    ghost var c2 := out.Contents();
    SerializeAcls(out, v.acl);
    ghost var c3 := out.Contents();
    out.SerializeInt(v.flags);
    ghost var c4 := out.Contents();
    WrittenRecord(CreateRequestValue(v).fields, [c0, c1, c2, c3, c4]);
  }

  method SerializeConnectRequest(out: OutArchive, v: ConnectRequest)
    requires out.Valid() && (v.passwd.Some? ==> Fits(v.passwd.value))
    modifies out, out.buffer
    ensures out.Valid() && fresh({out.buffer} - {old(out.buffer)})
    ensures out.Contents() == old(out.Contents()) + Encode(ConnectRequestValue(v))
  {
    ghost var c0 := out.Contents();
    out.SerializeInt(v.protocolVersion);
    ghost var c1 := out.Contents();
    out.SerializeLong(v.lastZxidSeen);
    ghost var c2 := out.Contents();
    out.SerializeInt(v.timeOut);
    ghost var c3 := out.Contents();
    out.SerializeLong(v.sessionId);
    ghost var c4 := out.Contents();
    out.SerializeBuffer(v.passwd);
    ghost var c5 := out.Contents();
    WrittenRecord(ConnectRequestValue(v).fields, [c0, c1, c2, c3, c4, c5]);
  }

  // ------------------------------------------------------------ deserializers

  function Prepend(vs: seq<Value>, p: Parsed<seq<Value>>): Parsed<seq<Value>> {
    match p
    case None => None
    case Some((more, rest)) => Some((vs + more, rest))
  }

  lemma PrependNothing(p: Parsed<seq<Value>>)
    ensures Prepend([], p) == p
  {
    if p.Some? { assert [] + p.value.0 == p.value.0; }
  }

  /** Some fields of a record have been read, and `here` is what is left. */
  ghost predicate Reading(ts: seq<Type>, start: seq<byte>, vs: seq<Value>, here: seq<byte>) {
    |vs| <= |ts| && ParseFields(ts, start) == Prepend(vs, ParseFields(ts[|vs|..], here))
  }

  lemma ReadingStart(ts: seq<Type>, start: seq<byte>)
    ensures Reading(ts, start, [], start)
  {
    PrependNothing(ParseFields(ts, start));
    assert ts[0..] == ts;
  }

  lemma ReadingStep(ts: seq<Type>, start: seq<byte>, vs: seq<Value>, here: seq<byte>)
    requires Reading(ts, start, vs, here) && |vs| < |ts|
    ensures match Parse(ts[|vs|], here)
            case Some((v, rest)) => Reading(ts, start, vs + [v], rest)
            case None => Parse(TRecord(ts), start).None?
  {
    assert ts[|vs|..][0] == ts[|vs|] && ts[|vs|..][1..] == ts[|vs| + 1..];
    if Parse(ts[|vs|], here).Some? {
      var (v, rest) := Parse(ts[|vs|], here).value;
      var more := ParseFields(ts[|vs| + 1..], rest);
      if more.Some? {
        assert vs + ([v] + more.value.0) == vs + [v] + more.value.0;
      }
    }
  }

  lemma ReadingEnd(ts: seq<Type>, start: seq<byte>, vs: seq<Value>, here: seq<byte>)
    requires Reading(ts, start, vs, here) && |vs| == |ts|
    ensures Parse(TRecord(ts), start) == Some((VRecord(vs), here))
  {
    assert ts[|vs|..] == [] && vs + [] == vs;
  }

  method DeserializeId(in_: InArchive) returns (rc: int, v: Id)
    requires in_.Valid()
    modifies in_
    ensures in_.Valid()
    ensures Parse(ID_TYPE, old(in_.Rest())).Some? ==>
              rc == 0 && Parse(ID_TYPE, old(in_.Rest())) == Some((IdValue(v), in_.Rest()))
    ensures Parse(ID_TYPE, old(in_.Rest())).None? ==> rc < 0
  {
    ghost var ts, start := ID_TYPE.fields, in_.Rest();
    v := Id([], []);
    var s, t;
    ReadingStart(ts, start);
    ReadingStep(ts, start, [], start);
    rc, s := in_.DeserializeString();
    if rc == 0 {
      ghost var vs := [VString(s)];
      ReadingStep(ts, start, vs, in_.Rest());
      rc, t := in_.DeserializeString();
      v := Id(s, t);
      vs := vs + [VString(t)];
      assert vs == IdValue(v).fields;
      if rc == 0 { ReadingEnd(ts, start, vs, in_.Rest()); }
    }
  }

  method DeserializeAcl(in_: InArchive) returns (rc: int, v: Acl)
    requires in_.Valid()
    modifies in_
    ensures in_.Valid()
    ensures Parse(ACL_TYPE, old(in_.Rest())).Some? ==>
              rc == 0 && Parse(ACL_TYPE, old(in_.Rest())) == Some((AclValue(v), in_.Rest()))
    ensures Parse(ACL_TYPE, old(in_.Rest())).None? ==> rc < 0
  {
    ghost var ts, start := ACL_TYPE.fields, in_.Rest();
    v := Acl(0, Id([], []));
    var perms, id;
    ReadingStart(ts, start);
    ReadingStep(ts, start, [], start);
    rc, perms := in_.DeserializeInt();
    if rc == 0 {
      ghost var vs := [VInt(perms)];
      ReadingStep(ts, start, vs, in_.Rest());
      rc, id := DeserializeId(in_);
      v := Acl(perms, id);
      vs := vs + [IdValue(id)];
      assert vs == AclValue(v).fields;
      if rc == 0 { ReadingEnd(ts, start, vs, in_.Rest()); }
    }
  }

  /** Some elements of a vector have been read, and `here` is what is left. */
  ghost predicate Progress(t: Type, count: nat, start: seq<byte>, items: seq<Value>, here: seq<byte>) {
    |items| <= count && ParseItems(t, count, start) == Prepend(items, ParseItems(t, count - |items|, here))
  }

  lemma ProgressStart(t: Type, count: nat, start: seq<byte>)
    ensures Progress(t, count, start, [], start)
  {
    PrependNothing(ParseItems(t, count, start));
  }

  lemma ProgressStep(t: Type, count: nat, start: seq<byte>, items: seq<Value>, here: seq<byte>)
    requires Progress(t, count, start, items, here) && |items| < count
    ensures match Parse(t, here)
            case Some((v, rest)) => Progress(t, count, start, items + [v], rest)
            case None => ParseItems(t, count, start).None?
  {
    if Parse(t, here).Some? {
      var (v, rest) := Parse(t, here).value;
      var more := ParseItems(t, count - |items| - 1, rest);
      if more.Some? {
        assert items + ([v] + more.value.0) == items + [v] + more.value.0;
      }
    }
  }

  lemma ProgressEnd(t: Type, count: nat, start: seq<byte>, items: seq<Value>, here: seq<byte>)
    requires Progress(t, count, start, items, here) && |items| == count
    ensures ParseItems(t, count, start) == Some((items, here))
  {
    assert items + [] == items;
  }

  /** The result code of a vector is overwritten at its end: it is always 0, and the
      elements from a failed one on stay zero. */
  method DeserializeStrings(in_: InArchive) returns (rc: int, v: seq<seq<byte>>)
    requires in_.Valid()
    modifies in_
    ensures in_.Valid()
    ensures rc == 0
    ensures Parse(STRINGS_TYPE, old(in_.Rest())).Some? ==>
              Parse(STRINGS_TYPE, old(in_.Rest())) == Some((VVector(StringValues(v)), in_.Rest()))
  {
    var count;
    v := [];
    rc, count := in_.DeserializeInt();
    ghost var start := in_.Rest();
    ghost var parsing := rc == 0 && count >= 0;
    if parsing { ProgressStart(TString, count, start); }
    var i := 0;
    while i < count
      invariant 0 <= i && (i <= count || count < 0) && |v| == i
      invariant in_.Valid()
      invariant parsing && rc == 0 ==> Progress(TString, count, start, StringValues(v), in_.Rest())
      invariant parsing && rc != 0 ==> ParseItems(TString, count, start).None?
      invariant !parsing && count >= 0 ==> rc != 0
    {
      var s := [];
      if rc == 0 {
        ProgressStep(TString, count, start, StringValues(v), in_.Rest());
        rc, s := in_.DeserializeString();
      }
      assert StringValues(v + [s]) == StringValues(v) + [VString(s)];
      v := v + [s];
      i := i + 1;
    }
    if parsing && rc == 0 { ProgressEnd(TString, count, start, StringValues(v), in_.Rest()); }
    rc := 0;
  }

  method DeserializeAcls(in_: InArchive) returns (rc: int, v: seq<Acl>)
    requires in_.Valid()
    modifies in_
    ensures in_.Valid()
    ensures rc == 0
    ensures Parse(TVector(ACL_TYPE), old(in_.Rest())).Some? ==>
              Parse(TVector(ACL_TYPE), old(in_.Rest())) == Some((VVector(AclValues(v)), in_.Rest()))
  {
    var count;
    v := [];
    rc, count := in_.DeserializeInt();
    ghost var start := in_.Rest();
    ghost var parsing := rc == 0 && count >= 0;
    if parsing { ProgressStart(ACL_TYPE, count, start); }
    var i := 0;
    while i < count
      invariant 0 <= i && (i <= count || count < 0) && |v| == i
      invariant in_.Valid()
      invariant parsing && rc == 0 ==> Progress(ACL_TYPE, count, start, AclValues(v), in_.Rest())
      invariant parsing && rc != 0 ==> ParseItems(ACL_TYPE, count, start).None?
      invariant !parsing && count >= 0 ==> rc != 0
    {
      var a := Acl(0, Id([], []));
      if rc == 0 {
        ProgressStep(ACL_TYPE, count, start, AclValues(v), in_.Rest());
        rc, a := DeserializeAcl(in_);
      }
      assert AclValues(v + [a]) == AclValues(v) + [AclValue(a)];
      v := v + [a];
      i := i + 1;
    }
    if parsing && rc == 0 { ProgressEnd(ACL_TYPE, count, start, AclValues(v), in_.Rest()); }
    rc := 0;
  }

  /** Only a missing leading field is reported; anything wrong in the three lists is not. */
  method DeserializeSetWatches(in_: InArchive) returns (rc: int, v: SetWatches)
    requires in_.Valid()
    modifies in_
    ensures in_.Valid()
    ensures rc < 0 <==> |old(in_.Rest())| < 8
    ensures Parse(SET_WATCHES_TYPE, old(in_.Rest())).Some? ==>
              rc == 0 && Parse(SET_WATCHES_TYPE, old(in_.Rest())) == Some((SetWatchesValue(v), in_.Rest()))
  {
    ghost var ts, start := SET_WATCHES_TYPE.fields, in_.Rest();
    ghost var good := Parse(TRecord(ts), start).Some?;
    v := SetWatches(0, [], [], []);
    var z, d, e, c;
    ReadingStart(ts, start);
    ReadingStep(ts, start, [], start);
    rc, z := in_.DeserializeLong();
    if rc == 0 {
      ghost var vs := [VLong(z)];
      if good { ReadingStep(ts, start, vs, in_.Rest()); }
      rc, d := DeserializeStrings(in_);
      vs := vs + [VVector(StringValues(d))];
      if good { ReadingStep(ts, start, vs, in_.Rest()); }
      rc, e := DeserializeStrings(in_);
      vs := vs + [VVector(StringValues(e))];
      if good { ReadingStep(ts, start, vs, in_.Rest()); }
      rc, c := DeserializeStrings(in_);
      vs := vs + [VVector(StringValues(c))];
      v := SetWatches(z, d, e, c);
      assert vs == SetWatchesValue(v).fields;
      if good { ReadingEnd(ts, start, vs, in_.Rest()); }
    }
  }

  /** A path or data that do not parse are reported, and so is a missing trailing field; nothing
      wrong in the access list is. */
  method DeserializeCreateRequest(in_: InArchive) returns (rc: int, v: CreateRequest)
    requires in_.Valid()
    modifies in_
    ensures in_.Valid()
    ensures Parse(CREATE_REQUEST_TYPE, old(in_.Rest())).Some? ==>
              rc == 0 && Parse(CREATE_REQUEST_TYPE, old(in_.Rest())) == Some((CreateRequestValue(v), in_.Rest()))
    ensures Parse(TString, old(in_.Rest())).None? ==> rc < 0
    ensures Parse(TString, old(in_.Rest())).Some? ==>
              var (path, rest) := Parse(TString, old(in_.Rest())).value;
              && (Parse(TBuffer, rest).None? ==> rc < 0)
              && (Parse(TBuffer, rest).Some? && rc < 0 ==> |in_.Rest()| < 4)
              && (rc == 0 ==> VString(v.path) == path && Parse(TBuffer, rest).Some?
                              && VBuffer(v.data) == Parse(TBuffer, rest).value.0)
  {
    ghost var ts, start := CREATE_REQUEST_TYPE.fields, in_.Rest();
    ghost var good := Parse(TRecord(ts), start).Some?;
    v := CreateRequest([], None, [], 0);
    var p, d, acl, flags;
    ReadingStart(ts, start);
    ReadingStep(ts, start, [], start);
    rc, p := in_.DeserializeString();
    if rc == 0 {
      ghost var vs := [VString(p)];
      if good { ReadingStep(ts, start, vs, in_.Rest()); }
      rc, d := in_.DeserializeBuffer();
      if rc == 0 {
        vs := vs + [VBuffer(d)];
        if good { ReadingStep(ts, start, vs, in_.Rest()); }
        rc, acl := DeserializeAcls(in_);
        vs := vs + [VVector(AclValues(acl))];
        if good { ReadingStep(ts, start, vs, in_.Rest()); }
        rc, flags := in_.DeserializeInt();
        vs := vs + [VInt(flags)];
        v := CreateRequest(p, d, acl, flags);
        assert vs == CreateRequestValue(v).fields;
        if good { ReadingEnd(ts, start, vs, in_.Rest()); }
      }
    }
  }

  // ------------------------------------------------------------ layouts of whole records

  function StringBytes(s: seq<byte>): seq<byte> { BigEndian(4, |s|) + s }

  function StringsBytes(v: seq<seq<byte>>): seq<byte> { BigEndian(4, |v|) + Gather(v, StringBytes) }

  function AclBytes(a: Acl): seq<byte> { EncodeInt(a.perms) + StringBytes(a.id.scheme) + StringBytes(a.id.id) }

  lemma TwoFields(a: Value, b: Value)
    ensures EncodeAll([a, b]) == Encode(a) + Encode(b)
  {
    EncodeSnoc([a], b);
    EncodeOne(a);
    assert [a] + [b] == [a, b];
  }

  lemma EncodeOne(a: Value)
    ensures EncodeAll([a]) == Encode(a)
  {
    assert [a][1..] == [];
  }

  lemma MoreFields(a: Value, b: Value, c: Value, d: Value)
    ensures EncodeAll([a, b, c, d]) == Encode(a) + Encode(b) + Encode(c) + Encode(d)
  {
    hide Encode;
    TwoFields(a, b);
    EncodeSnoc([a, b], c);
    EncodeSnoc([a, b, c], d);
    assert [a, b] + [c] == [a, b, c] && [a, b, c] + [d] == [a, b, c, d];
  }

  lemma {:induction false} StringsLayout(v: seq<seq<byte>>)
    ensures EncodeAll(StringValues(v)) == Gather(v, StringBytes)
  {
    if v == [] {
      assert StringValues(v) == [];
    } else {
      StringsLayout(Front(v));
      assert StringValues(v) == StringValues(Front(v)) + [VString(Last(v))];
      EncodeSnoc(StringValues(Front(v)), VString(Last(v)));
    }
  }

  lemma AclLayout(a: Acl)
    ensures Encode(AclValue(a)) == AclBytes(a)
  {
    TwoFields(VString(a.id.scheme), VString(a.id.id));
    TwoFields(VInt(a.perms), IdValue(a.id));
    Associative(EncodeInt(a.perms), StringBytes(a.id.scheme), StringBytes(a.id.id));
  }

  lemma {:induction false} AclsLayout(v: seq<Acl>)
    ensures EncodeAll(AclValues(v)) == Gather(v, AclBytes)
  {
    if v == [] {
      assert AclValues(v) == [];
    } else {
      AclsLayout(Front(v));
      AclLayout(Last(v));
      assert AclValues(v) == AclValues(Front(v)) + [AclValue(Last(v))];
      EncodeSnoc(AclValues(Front(v)), AclValue(Last(v)));
    }
  }

  /** A SetWatches on the wire: the zxid, then the data, the exist and the child watches, each a
      count and the strings. */
  lemma SetWatchesLayout(v: SetWatches)
    ensures Encode(SetWatchesValue(v)) ==
              EncodeLong(v.relativeZxid) + StringsBytes(v.dataWatches) + StringsBytes(v.existWatches)
              + StringsBytes(v.childWatches)
  {
    StringsLayout(v.dataWatches);
    StringsLayout(v.existWatches);
    StringsLayout(v.childWatches);
    hide StringValues, EncodeAll, Gather;
    MoreFields(VLong(v.relativeZxid), VVector(StringValues(v.dataWatches)), VVector(StringValues(v.existWatches)),
               VVector(StringValues(v.childWatches)));
  }

  /** A CreateRequest on the wire: path, data, the access list with the permissions, the scheme and
      the id of each entry, and the flags. */
  lemma CreateRequestLayout(v: CreateRequest)
    ensures Encode(CreateRequestValue(v)) ==
              StringBytes(v.path) + (if v.data.None? then EncodeInt(-1) else StringBytes(v.data.value))
              + (BigEndian(4, |v.acl|) + Gather(v.acl, AclBytes)) + EncodeInt(v.flags)
  {
    AclsLayout(v.acl);
    hide AclValues, EncodeAll, Gather;
    MoreFields(VString(v.path), VBuffer(v.data), VVector(AclValues(v.acl)), VInt(v.flags));
  }

  /** A ConnectRequest on the wire. */
  lemma ConnectRequestLayout(v: ConnectRequest)
    ensures Encode(ConnectRequestValue(v)) ==
              EncodeInt(v.protocolVersion) + EncodeLong(v.lastZxidSeen) + EncodeInt(v.timeOut) + EncodeLong(v.sessionId)
              + (if v.passwd.None? then EncodeInt(-1) else StringBytes(v.passwd.value))
  {
    hide EncodeAll;
    var four := [VInt(v.protocolVersion), VLong(v.lastZxidSeen), VInt(v.timeOut), VLong(v.sessionId)];
    MoreFields(four[0], four[1], four[2], four[3]);
    EncodeSnoc(four, VBuffer(v.passwd));
    assert four + [VBuffer(v.passwd)] == ConnectRequestValue(v).fields;
  }

  // ------------------------------------------------------------ round trips of whole records

  lemma {:induction false} PlainStrings(v: seq<seq<byte>>)
    requires FitsAll(v)
    ensures HasType(VVector(StringValues(v)), STRINGS_TYPE)
    ensures Normal(VVector(StringValues(v))) == VVector(StringValues(v))
  {
    NormalNoBool(StringValues(v));
  }

  lemma {:induction false} NormalNoBool(vs: seq<Value>)
    requires forall i | 0 <= i < |vs| :: vs[i].VString?
    ensures NormalAll(vs) == vs
  {
    if vs != [] { NormalNoBool(vs[1..]); }
  }

  /** What the client writes as a SetWatches is what the other side reads. */
  lemma SetWatchesRoundTrip(v: SetWatches, rest: seq<byte>)
    requires FitsAll(v.dataWatches) && FitsAll(v.existWatches) && FitsAll(v.childWatches)
    ensures Parse(SET_WATCHES_TYPE, Encode(SetWatchesValue(v)) + rest) == Some((SetWatchesValue(v), rest))
  {
    hide Encode, EncodeAll, Parse;
    var fs, ts := SetWatchesValue(v).fields, SET_WATCHES_TYPE.fields;
    PlainStrings(v.dataWatches);
    PlainStrings(v.existWatches);
    PlainStrings(v.childWatches);
    hide StringValues;
    FourFields(fs, ts);
    RoundTrip(SetWatchesValue(v), SET_WATCHES_TYPE, rest);
  }

  lemma FourFields(fs: seq<Value>, ts: seq<Type>)
    requires |fs| == |ts| == 4 && HasType(fs[0], ts[0]) && HasType(fs[1], ts[1])
    requires HasType(fs[2], ts[2]) && HasType(fs[3], ts[3])
    ensures AllHaveTypes(fs, ts)
    ensures NormalAll(fs) == [Normal(fs[0]), Normal(fs[1]), Normal(fs[2]), Normal(fs[3])]
  {
    var f1, f2, f3 := fs[1..], fs[1..][1..], fs[1..][1..][1..];
    var t1, t2, t3 := ts[1..], ts[1..][1..], ts[1..][1..][1..];
    assert NormalAll(f3) == [Normal(fs[3])] && AllHaveTypes(f3, t3);
    assert NormalAll(f2) == [Normal(fs[2]), Normal(fs[3])] && AllHaveTypes(f2, t2);
    assert NormalAll(f1) == [Normal(fs[1]), Normal(fs[2]), Normal(fs[3])] && AllHaveTypes(f1, t1);
  }
}

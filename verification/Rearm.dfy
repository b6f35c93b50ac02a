/** The packet that registers every watch again after a reconnect. */
module Rearm {
  import opened Common
  import opened Bytes
  import opened Codes
  import opened Jute
  import opened RecordIO
  import opened Records
  import opened HashtableItr
  import opened WatchRegistry
  import opened Watchers

  const SETWATCHES_OP := 101

  /** The path lengths and counts that a 32-bit wire field can carry. */
  ghost predicate Sendable(t: Table) {
    |t| < MAX_COUNT && forall p | p in t :: Fits(p)
  }

  ghost predicate AllSendable(r: Registry) { Sendable(r.node) && Sendable(r.exist) && Sendable(r.child) }

  ghost predicate Rearms(sw: SetWatches, r: Registry) {
    && Enumerates(sw.dataWatches, r.node)
    && Enumerates(sw.existWatches, r.exist)
    && Enumerates(sw.childWatches, r.child)
  }

  /** On the wire: the header, the zxid, and the three lists, each a count and the paths. */
  function Framed(sw: SetWatches): seq<byte> {
    EncodeInt(-8) + EncodeInt(101) + EncodeLong(sw.relativeZxid)
    + StringsBytes(sw.dataWatches) + StringsBytes(sw.existWatches) + StringsBytes(sw.childWatches)
  }

  /** `send_set_watches`, up to the queueing: the frame carries the last zxid seen and
      every path of each of the three tables exactly once, and reads back as that. */
  method SetWatchesFrame(aw: ActiveWatchers, lastZxid: int64, ghost r: Registry)
    returns (frame: seq<byte>, ghost sw: SetWatches)
    requires aw.Valid() && aw.Active() == r && AllSendable(r)
    ensures sw.relativeZxid == lastZxid && Rearms(sw, r)
    ensures |frame| >= 8 && DecodeInt(frame[..4]) == SET_WATCHES_XID && DecodeInt(frame[4..8]) == SETWATCHES_OP
    ensures Parse(SET_WATCHES_TYPE, frame[8..]) == Some((SetWatchesValue(sw), []))
    ensures frame == Framed(sw)
  {
    hide ActiveWatchers.Valid, Enumerates, Parse, DecodeInt, Framed;
    var d, e, c := aw.CollectPaths(r);
    EnumeratedFits(d, r.node);
    EnumeratedFits(e, r.exist);
    EnumeratedFits(c, r.child);
    var v := SetWatches(lastZxid, d, e, c);
    frame := WriteSetWatches(v);
    sw := v;
  }

  method WriteSetWatches(v: SetWatches) returns (frame: seq<byte>)
    requires FitsAll(v.dataWatches) && FitsAll(v.existWatches) && FitsAll(v.childWatches)
    ensures |frame| >= 8 && DecodeInt(frame[..4]) == SET_WATCHES_XID && DecodeInt(frame[4..8]) == SETWATCHES_OP
    ensures Parse(SET_WATCHES_TYPE, frame[8..]) == Some((SetWatchesValue(v), []))
    ensures frame == Framed(v)
  {
    hide Encode, Parse, DecodeInt, Framed;
    var out := new OutArchive();
    out.SerializeInt(SET_WATCHES_XID);
    out.SerializeInt(SETWATCHES_OP);
    SerializeSetWatches(out, v);
    frame := out.buffer[..out.off];
    FrameReads(v);
  }

  lemma FrameReads(v: SetWatches)
    requires FitsAll(v.dataWatches) && FitsAll(v.existWatches) && FitsAll(v.childWatches)
    ensures var frame := [] + EncodeInt(SET_WATCHES_XID) + EncodeInt(SETWATCHES_OP) + Encode(SetWatchesValue(v));
            && DecodeInt(frame[..4]) == SET_WATCHES_XID && DecodeInt(frame[4..8]) == SETWATCHES_OP
            && Parse(SET_WATCHES_TYPE, frame[8..]) == Some((SetWatchesValue(v), []))
            && frame == Framed(v)
  {
    hide Encode, Parse, DecodeInt, StringsBytes;
    IntRoundTrip(SET_WATCHES_XID);
    IntRoundTrip(SETWATCHES_OP);
    SetWatchesRoundTrip(v, []);
    SetWatchesLayout(v);
    var xid, op, body := EncodeInt(SET_WATCHES_XID), EncodeInt(SETWATCHES_OP), Encode(SetWatchesValue(v));
    var frame := [] + xid + op + body;
    assert frame[..4] == xid && frame[4..8] == op && frame[8..] == body && body + [] == body;
  }

  lemma EnumeratedFits(keys: seq<Path>, t: Table)
    requires Enumerates(keys, t) && Sendable(t)
    ensures FitsAll(keys)
  {
    DistinctLength(keys, t.Keys);
    assert t.Keys == set p | p in t;
    assert forall i | 0 <= i < |keys| :: keys[i] in t;
  }
}

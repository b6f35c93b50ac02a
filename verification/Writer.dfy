/** The sending side: a resumable writer over a socket that may take any part of what it is
    offered, or nothing, or fail. */
module Writer {
  import opened Codes
  import opened Common
  import opened Bytes
  import opened Framing
  import opened Queues

  /** The sending direction of a socket, with the outcomes of the calls to come. */
  class OutStream {
    var outcomes: seq<Outcome>
    var out: seq<byte>
    var failed: bool
    var blocked: bool
    ghost var calls: int

    constructor (outcomes: seq<Outcome>)
      ensures out == [] && !failed
    {
      this.outcomes, out, failed, blocked := outcomes, [], false, false;
      calls := 0;
    }

    method Send(bs: seq<byte>) returns (rc: int, again: bool)
      modifies this
      ensures rc == -1 || 0 <= rc <= |bs|
      ensures out == old(out) + if rc == -1 then [] else bs[..rc]
      ensures failed == (old(failed) || (rc == -1 && !again))
      ensures blocked == (rc < |bs|) && calls == old(calls) + 1
    {
      calls := calls + 1;
      var now := if outcomes == [] then Again else outcomes[0];
      outcomes := if outcomes == [] then [] else outcomes[1..];
      match now {
        case Count(n) =>
          rc, again := if n < |bs| then n else |bs|, false;
          out := out + bs[..rc];
        case Again => rc, again := -1, true;
        case Error => rc, again, failed := -1, false, true;
      }
      blocked := rc < |bs|;
    }
  }

  class OutBuffer {
    const body: Packet
    var currOffset: nat

    constructor (body: Packet)
      ensures this.body == body && currOffset == 0
    {
      this.body, currOffset := body, 0;
    }

    /** `send_buffer`: first the rest of the length, then the rest of the body.  The frame is the
        length, in network order, and the body. */
    method Send(fd: OutStream) returns (rc: int)
      requires currOffset < 4 + |body|
      modifies this, fd
      ensures rc in {-1, 0, 1}
      ensures old(currOffset) <= currOffset <= 4 + |body|
      ensures fd.out == old(fd.out) + (EncodeInt(|body|) + body)[old(currOffset)..currOffset]
      ensures rc == 1 <==> currOffset == 4 + |body|
      ensures fd.failed == (old(fd.failed) || rc == -1)
      ensures rc == 0 ==> fd.blocked
      ensures fd.calls > old(fd.calls)
    {
      ghost var start, out, f := currOffset, fd.out, EncodeInt(|body|) + body;
      if currOffset < 4 {
        var nlen := EncodeInt(|body|);
        var n, again := fd.Send(nlen[currOffset..]);
        if n == -1 { return if again then 0 else -1; }
        assert nlen[currOffset..][..n] == f[start..start + n];
        currOffset := currOffset + n;
      }
      if currOffset >= 4 {
        ghost var mid := currOffset;
        var ok := SendBody(fd);
        assert body[mid - 4..currOffset - 4] == f[mid..currOffset];
        Joined(out, f, start, mid, currOffset);
        if !ok { return -1; }
      }
      rc := if currOffset == |body| + 4 then 1 else 0;
    }

    lemma Joined(out: seq<byte>, f: seq<byte>, a: nat, b: nat, c: nat)
      requires a <= b <= c <= |f|
      ensures out + f[a..b] + f[b..c] == out + f[a..c]
    {
    }

    /** The second half; false when the stream has failed. */
    method SendBody(fd: OutStream) returns (ok: bool)
      requires 4 <= currOffset <= 4 + |body|
      modifies this, fd
      ensures old(currOffset) <= currOffset <= 4 + |body|
      ensures fd.out == old(fd.out) + body[old(currOffset) - 4..currOffset - 4]
      ensures fd.failed == (old(fd.failed) || !ok) && (!ok ==> currOffset == old(currOffset))
      ensures ok && currOffset < 4 + |body| ==> fd.blocked
      ensures fd.calls > old(fd.calls)
    {
      var off := currOffset - 4;
      var rc, again := fd.Send(body[off..]);
      if rc != -1 {
        assert body[off..][..rc] == body[off..off + rc];
        currOffset := currOffset + rc;
      }
      ok := rc != -1 || again;
    }
  }

  ghost function Bodies(bs: seq<OutBuffer>): (r: seq<Body>)
    ensures |r| == |bs| && forall j | 0 <= j < |bs| :: r[j] == bs[j].body
  {
    seq(|bs|, j requires 0 <= j < |bs| => bs[j].body)
  }

  lemma BodiesConcat(a: seq<OutBuffer>, b: seq<OutBuffer>)
    ensures Bodies(a + b) == Bodies(a) + Bodies(b)
  {
  }

  /** One round of `poll` in a blocking flush: the time gone by, and what `poll` returned. */
  datatype Poll = Poll(elapsed: int, rc: int)

  /** The send queue of a connection, and the stream it goes to. */
  class Writer {
    const toSend: Queue<OutBuffer>
    const fd: OutStream
    ghost var done: seq<Body>

    /** How much of the first frame is out. */
    ghost function Offset(): nat
      reads toSend, toSend.Contents()
    {
      if toSend.Contents() == [] then 0 else toSend.Contents()[0].currOffset
    }

    /** Every frame of this connection, in the order of the wire. */
    ghost function Order(): seq<Body>
      reads this, toSend
    {
      done + Bodies(toSend.Contents())
    }

    /** Only the first frame may be partly out; the wire carries what is done and that part. */
    ghost predicate Tracks()
      reads this, fd, toSend, toSend.nodes, toSend.Contents()
    {
      var bs := toSend.Contents();
      && toSend.Valid()
      && (forall j, k | 0 <= j < k < |bs| :: bs[j] != bs[k])
      && (forall j | 0 < j < |bs| :: bs[j].currOffset == 0)
      && (bs != [] ==> Offset() <= |Frame(bs[0].body)|)
      && fd.out == Sent(done, Bodies(bs), Offset())
    }

    /** Besides, no frame that is out whole is still queued. */
    ghost predicate Valid()
      reads this, fd, toSend, toSend.nodes, toSend.Contents()
    {
      Tracks() && (toSend.Contents() != [] ==> Offset() < |Frame(toSend.Contents()[0].body)|)
    }

    constructor (outcomes: seq<Outcome>)
      ensures Valid() && fresh(toSend) && fresh(fd) && toSend.Contents() == [] && Order() == []
    {
      toSend := new Queue();
      fd := new OutStream(outcomes);
      done := [];
    }

    /** The wire is a prefix of the framing of everything queued; all of it when nothing is
        left. */
    lemma WireIsPrefix()
      requires Valid()
      ensures fd.out <= FrameAll(Order())
      ensures toSend.Contents() == [] ==> fd.out == FrameAll(Order())
    {
      SentIsPrefix(done, Bodies(toSend.Contents()), Offset());
    }

    /** `queue_buffer_bytes` and `queue_front_buffer_bytes`; a frame may go to the front
        only while nothing of the first one is out. */
    method Enqueue(body: Packet, addToFront: bool)
      requires Valid() && (addToFront ==> Offset() == 0)
      modifies toSend, toSend.nodes
      ensures Valid() && done == old(done)
      ensures Bodies(toSend.Contents()) == if addToFront then [body] + old(Bodies(toSend.Contents()))
                                           else old(Bodies(toSend.Contents())) + [body]
    {
      hide Sent, FrameAll, Frame, Queue.Valid, Queue.Contents;
      ghost var bs, off := toSend.Contents(), Offset();
      SentPut(done, Bodies(bs), off, body, addToFront);
      var b := new OutBuffer(body);
      toSend.Put(b, addToFront);
      BodiesConcat(bs, [b]);
      BodiesConcat([b], bs);
      assert Bodies([b]) == [body];
      ghost var now := toSend.Contents();
      assert forall j | 0 < j < |now| :: now[j].currOffset == 0;
      assert fd.out == Sent(done, Bodies(now), Offset());
    }

    /** One turn of the flush loop: send what the stream takes of the first frame, and drop
        the frame when it is out whole. */
    method SendHead() returns (rc: int)
      requires Valid() && toSend.Contents() != []
      modifies this, fd, toSend, toSend.Contents()[0]
      ensures Valid() && Order() == old(Order()) && rc in {-1, 0, 1}
      ensures old(fd.out) <= fd.out
      ensures toSend.Contents() == if rc == 1 then old(toSend.Contents())[1..] else old(toSend.Contents())
      ensures fd.failed == (old(fd.failed) || rc == -1)
      ensures rc == 0 ==> fd.blocked
      ensures fd.calls > old(fd.calls)
    {
      hide Sent, FrameAll, Frame;
      ghost var bs, off := toSend.Contents(), Offset();
      var b := toSend.head.value;
      FrameBytes(b.body);
      rc := b.Send(fd);
      SentMore(done, Bodies(bs), off, b.currOffset);
      if rc > 0 { DropHead(); }
    }

    /** `remove_buffer`, on a first frame that is out whole */
    method DropHead()
      requires Tracks() && toSend.Contents() != [] && Offset() == |Frame(toSend.Contents()[0].body)|
      modifies this, toSend
      ensures Valid() && Order() == old(Order())
      ensures toSend.Contents() == old(toSend.Contents())[1..]
    {
      hide Sent, FrameAll, Frame, Queue.Valid, Queue.Contents;
      ghost var bs := toSend.Contents();
      SentNext(done, Bodies(bs));
      var _ := toSend.Take();
      assert toSend.Contents() == bs[1..];
      assert Bodies(bs) == [bs[0].body] + Bodies(bs[1..]) && Bodies(bs[1..]) == Bodies(bs)[1..];
      Associative(done, [bs[0].body], Bodies(bs[1..]));
      done := done + [bs[0].body];
    }

    /** One round of the loop: while there is time and, in a blocking flush, the stream is ready,
        something is offered to it. */
    method Round(timeout: int, poll: Poll) returns (rc: int, stop: bool)
      requires Valid() && !fd.failed && toSend.Contents() != []
      modifies this, fd, toSend, toSend.Contents()[0]
      ensures Valid() && Order() == old(Order()) && old(fd.out) <= fd.out
      ensures timeout != 0 && (poll.elapsed > timeout || poll.rc <= 0) ==>
                && stop && !fd.failed && fd.calls == old(fd.calls) && toSend.Contents() == old(toSend.Contents())
                && rc == if poll.elapsed > timeout || poll.rc == 0 then ZOPERATIONTIMEOUT else ZSYSTEMERROR
      ensures timeout == 0 || (poll.elapsed <= timeout && poll.rc > 0) ==>
                && fd.calls > old(fd.calls) && rc in {ZOK, ZCONNECTIONLOSS} && (rc == ZCONNECTIONLOSS <==> fd.failed)
                && (stop <==> rc == ZCONNECTIONLOSS || (timeout == 0 && toSend.Contents() == old(toSend.Contents())))
                && (stop && rc == ZOK ==> fd.blocked)
      ensures toSend.Contents() in {old(toSend.Contents()), old(toSend.Contents())[1..]}
    {
      hide Order, Sent, Frame, FrameAll, Bodies;
      if timeout != 0 {
        if poll.elapsed > timeout { return ZOPERATIONTIMEOUT, true; }
        if poll.rc <= 0 {
          return if poll.rc == 0 then ZOPERATIONTIMEOUT else ZSYSTEMERROR, true;
        }
      }
      rc := SendHead();
      if rc == 0 && timeout == 0 { return ZOK, true; }
      if rc < 0 { return ZCONNECTIONLOSS, true; }
      rc, stop := ZOK, false;
    }

    /** `flush_send_queue`.  It goes on until the queue is empty, the stream would block (in
        a non-blocking flush), the stream fails, or (in a blocking one) the time is up: in each
        of the `n` rounds before, there was time left, the stream was ready, and something was
        offered to it. */
    method Flush(connected: bool, timeout: int, polls: seq<Poll>) returns (rc: int, n: nat)
      requires Valid() && !fd.failed
      modifies this, fd, toSend, toSend.Contents()
      ensures Valid() && Order() == old(Order()) && old(fd.out) <= fd.out
      ensures !connected ==> rc == ZOK && fd.out == old(fd.out)
      ensures rc == ZCONNECTIONLOSS <==> fd.failed
      ensures rc == ZOK && connected ==> toSend.Contents() == [] || (timeout == 0 && fd.blocked)
      ensures rc in {ZOK, ZCONNECTIONLOSS, ZOPERATIONTIMEOUT, ZSYSTEMERROR}
      ensures n <= |polls| && forall k | 0 <= k < n :: polls[k].elapsed <= timeout && polls[k].rc > 0
      ensures fd.calls >= old(fd.calls) + n
      ensures connected && timeout == 0 && old(toSend.Contents()) != [] ==> fd.calls > old(fd.calls)
      ensures rc in {ZOPERATIONTIMEOUT, ZSYSTEMERROR} ==> timeout != 0 && toSend.Contents() != []
      ensures rc == ZOPERATIONTIMEOUT ==> n == |polls| || polls[n].elapsed > timeout || polls[n].rc == 0
      ensures rc == ZSYSTEMERROR ==> n < |polls| && polls[n].elapsed <= timeout && polls[n].rc < 0
    {
      hide Order, Sent, Frame, FrameAll, Bodies, Tracks;
      rc, n := ZOK, 0;
      ghost var turns := 0;
      NotEmpty();
      while toSend.head != null && connected
        invariant Valid() && Order() == old(Order()) && old(fd.out) <= fd.out
        invariant !fd.failed && rc == ZOK
        invariant n <= |polls| && forall k | 0 <= k < n :: polls[k].elapsed <= timeout && polls[k].rc > 0
        invariant !connected ==> fd.out == old(fd.out)
        invariant n <= turns && old(fd.calls) + turns <= fd.calls && (turns == 0 ==> toSend.head == old(toSend.head))
        invariant forall b | b in toSend.Contents() :: b in old(toSend.Contents())
        decreases |polls| - n, |toSend.Contents()|
      {
        assert toSend.Contents() != [] && toSend.Contents()[0] in toSend.Contents() by { NotEmpty(); }
        var stop;
        rc, stop := Round(timeout, if n == |polls| then Poll(timeout + 1, 0) else polls[n]);
        if stop { break; }
        turns := turns + 1;
        if timeout != 0 { n := n + 1; }
      }
      NotEmpty();
    }

    lemma NotEmpty()
      requires Valid()
      ensures toSend.head == null <==> toSend.Contents() == []
    {
    }
  }
}

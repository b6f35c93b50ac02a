/** The input side of a connection: the handshake reply, then frames to be processed. */
module Input {
  import opened Codes
  import opened Common
  import opened Bytes
  import opened Framing
  import opened Handshake
  import opened Reader
  import Writer

  class Input {
    const fd: InStream
    const primer: InBuffer
    var inputBuffer: InBuffer?
    var toProcess: seq<Body>

    /** Every frame ever queued for processing on this connection. */
    ghost var pushed: seq<Body>

    ghost predicate Handshaking()
      reads this
    {
      inputBuffer == primer
    }

    ghost function Objects(): set<object>
      reads this, inputBuffer
    {
      if inputBuffer == null then {} else inputBuffer.Repr()
    }

    /** The part of a frame that is in. */
    ghost function Pending(): seq<byte>
      requires inputBuffer != null ==> inputBuffer.Valid()
      reads this, inputBuffer, Objects()
    {
      if inputBuffer == null then [] else inputBuffer.Held()
    }

    /** What has been taken from the stream is the handshake reply, then the frames pushed,
        then the part of a frame in the input buffer. */
    ghost predicate Valid()
      reads this, fd, inputBuffer, Objects()
    {
      && fd.Valid()
      && (inputBuffer != null ==> inputBuffer.Valid() && (!fd.failed ==> !inputBuffer.Whole()))
      && if Handshaking() then
           && pushed == [] && inputBuffer.buffer != null && inputBuffer.len == PRIMER_SIZE
           && fd.stream[..fd.taken] == inputBuffer.Got()
         else
           && PRIMER_SIZE <= fd.taken
           && (inputBuffer != null ==> inputBuffer.Framed())
           && fd.stream[PRIMER_SIZE..fd.taken] == FrameAll(pushed) + Pending()
    }

    /** A connection on which the handshake has just been sent. */
    constructor (stream: seq<byte>, outcomes: seq<Outcome>)
      ensures Valid() && fresh(fd) && fresh(Objects()) && Handshaking() && toProcess == [] && fd.stream == stream
    {
      var b := new InBuffer.Primer();
      fd := new InStream(stream, outcomes);
      primer, inputBuffer, toProcess, pushed := b, b, [], [];
    }

    /** The reading part of `check_events` */
    method OnReadable() returns (rc: int)
      requires Valid() && !fd.failed
      modifies this, fd, Objects()
      ensures Valid() && fresh(Objects() - old(Objects()))
      ensures rc in {ZOK, ZNOTHING, ZCONNECTIONLOSS} && (rc == ZCONNECTIONLOSS <==> fd.failed)
      ensures old(fd.taken) <= fd.taken
      ensures rc != ZOK ==> pushed == old(pushed) && toProcess == old(toProcess)
      ensures rc == ZOK && old(Handshaking()) ==> !Handshaking() && pushed == [] && fd.taken == PRIMER_SIZE
      ensures rc == ZOK && !old(Handshaking()) ==>
                pushed != [] && pushed == old(pushed) + [Last(pushed)] && toProcess == old(toProcess) + [Last(pushed)]
    {
      hide Valid, InBuffer.Valid, InBuffer.Whole, InBuffer.Framed, InBuffer.Held, FrameAll;
      Allocate();
      rc := ReceiveMore();
      if rc < 0 { return ZCONNECTIONLOSS; }
      if rc == 0 { return ZNOTHING; }
      Deliver();
      rc := ZOK;
    }

    method Allocate()
      requires Valid() && !fd.failed
      modifies `inputBuffer
      ensures Valid() && inputBuffer != null && fresh(Objects() - old(Objects())) && Handshaking() == old(Handshaking())
    {
      hide FrameAll;
      if inputBuffer == null {
        inputBuffer := new InBuffer();
      }
    }

    /** What becomes of a whole buffer: the handshake is over, or a frame is queued. */
    method Deliver()
      requires fd.Valid() && !fd.failed && inputBuffer != null && inputBuffer.Valid() && inputBuffer.Whole()
      requires Handshaking() ==> pushed == [] && fd.taken == PRIMER_SIZE
      requires !Handshaking() ==>
                 && fd.taken >= PRIMER_SIZE && inputBuffer.Framed()
                 && fd.stream[PRIMER_SIZE..fd.taken] == FrameAll(pushed) + inputBuffer.Held()
      modifies `inputBuffer, `toProcess, `pushed
      ensures Valid() && inputBuffer == null
      ensures old(Handshaking()) ==> pushed == [] && toProcess == old(toProcess)
      ensures !old(Handshaking()) ==>
                pushed != [] && pushed == old(pushed) + [Last(pushed)] && toProcess == old(toProcess) + [Last(pushed)]
    {
      hide Frame, InBuffer.Held, InBuffer.Got;
      if inputBuffer != primer { QueueInput(); }
      inputBuffer := null;
    }

    /** `queue_buffer` on the input buffer */
    method QueueInput()
      requires inputBuffer != null && inputBuffer.Valid() && inputBuffer.Whole() && inputBuffer.Framed()
      modifies `toProcess, `pushed
      ensures pushed != [] && pushed == old(pushed) + [Last(pushed)] && toProcess == old(toProcess) + [Last(pushed)]
      ensures FrameAll(pushed) + [] == FrameAll(old(pushed)) + inputBuffer.Held()
    {
      var body: Body := inputBuffer.buffer[..];
      OneFrame(body);
      FrameAllConcat(pushed, [body]);
      toProcess := toProcess + [body];
      pushed := pushed + [body];
    }

    /** The call of `recv_buffer`. */
    method ReceiveMore() returns (rc: int)
      requires Valid() && inputBuffer != null && !fd.failed
      modifies fd, Objects()
      ensures fresh(Objects() - old(Objects())) && rc in {-1, 0, 1} && fd.failed == (rc == -1)
      ensures old(fd.taken) <= fd.taken && inputBuffer.Valid() && fd.Valid()
      ensures rc <= 0 ==> Valid()
      ensures rc > 0 ==> inputBuffer.Whole()
      ensures rc > 0 && !Handshaking() ==>
                && fd.taken >= PRIMER_SIZE && inputBuffer.Framed()
                && fd.stream[PRIMER_SIZE..fd.taken] == FrameAll(pushed) + inputBuffer.Held()
      ensures rc > 0 && Handshaking() ==> pushed == [] && fd.taken == PRIMER_SIZE
    {
      ghost var t := fd.taken;
      rc := inputBuffer.Recv(fd);
      Between(fd.stream, 0, t, fd.taken);
      if !Handshaking() {
        Between(fd.stream, PRIMER_SIZE, t, fd.taken);
        Associative(FrameAll(pushed), old(Pending()), fd.stream[t..fd.taken]);
      }
    }

    /** A whole buffer holds one frame. */
    lemma OneFrame(body: Body)
      requires inputBuffer != null && inputBuffer.Valid() && inputBuffer.Whole() && inputBuffer.Framed()
      requires body == inputBuffer.buffer[..]
      ensures inputBuffer.Held() == FrameAll([body])
    {
      IntBytesRoundTrip(inputBuffer.lenBytes[..]);
      FrameAllOne(body);
    }

    lemma PendingIsPartial()
      requires Valid() && !fd.failed && !Handshaking()
      ensures Partial(Pending())
    {
      if inputBuffer != null && inputBuffer.currOffset >= 4 {
        assert Pending()[..4] == inputBuffer.lenBytes[..];
      }
    }

    /** However the stream was cut up, the frames pushed are the first ones of the peer's;
        once everything has been taken, all of them, with nothing left over. */
    lemma FramesAreThePeers(sent: seq<Body>)
      requires Valid() && !fd.failed && !Handshaking() && fd.stream[PRIMER_SIZE..] <= FrameAll(sent)
      ensures pushed <= sent
      ensures fd.taken == |fd.stream| && fd.stream[PRIMER_SIZE..] == FrameAll(sent) ==>
                pushed == sent && Pending() == []
    {
      hide FrameAll, InBuffer.Held, InBuffer.Got;
      PendingIsPartial();
      assert fd.stream[PRIMER_SIZE..fd.taken] <= fd.stream[PRIMER_SIZE..];
      CutIsUnique(pushed, Pending(), sent);
    }
  }

  /** From the send queue of one side to the process queue of the other: when the bytes one
      side wrote arrive, in any pieces, the other pushes its frames in order.  The client's own
      reader stands here for any peer that reads the same framing. */
  lemma EndToEnd(from: Writer.Writer, to: Input)
    requires from.Valid() && to.Valid() && !to.fd.failed && !to.Handshaking()
    requires to.fd.stream[PRIMER_SIZE..] <= from.fd.out
    ensures to.pushed <= from.Order()
    ensures (from.toSend.Contents() == [] && to.fd.stream[PRIMER_SIZE..] == from.fd.out
             && to.fd.taken == |to.fd.stream|) ==> to.pushed == from.Order()
  {
    from.WireIsPrefix();
    to.FramesAreThePeers(from.Order());
  }
}

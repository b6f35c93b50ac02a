/** The receiving side: a resumable reader of frames over a socket that may hand out any
    part of what is asked, or nothing, or fail. */
module Reader {
  import opened Bytes
  import opened Framing
  import opened Handshake

  /** The receiving direction of a socket: the bytes the peer sends, how many of them have
      been taken, and the outcomes of the calls to come. */
  class InStream {
    const stream: seq<byte>
    var taken: nat
    var outcomes: seq<Outcome>
    var failed: bool
    var blocked: bool

    ghost predicate Valid()
      reads this
    {
      taken <= |stream|
    }

    constructor (stream: seq<byte>, outcomes: seq<Outcome>)
      ensures Valid() && taken == 0 && !failed && this.stream == stream
    {
      this.stream, taken, this.outcomes, failed, blocked := stream, 0, outcomes, false, false;
    }

    /** `recv` into `buffer[off..off + n]`; nothing received means that the peer is gone. */
    method Recv(buffer: array<byte>, off: nat, n: nat) returns (rc: int, again: bool)
      requires Valid() && off + n <= buffer.Length
      modifies this, buffer
      ensures Valid() && (rc == -1 || 0 <= rc <= n)
      ensures taken == old(taken) + if rc == -1 then 0 else rc
      ensures rc != -1 ==> buffer[..off + rc] == old(buffer[..off]) + stream[old(taken)..taken]
      ensures rc == -1 ==> buffer[..] == old(buffer[..])
      ensures failed == (old(failed) || rc == 0 || (rc == -1 && !again))
      ensures blocked == (rc < n)
    {
      var now := if outcomes == [] then Again else outcomes[0];
      outcomes := if outcomes == [] then [] else outcomes[1..];
      match now {
        case Count(k) =>
          var m := if k < n then k else n;
          rc, again := if m < |stream| - taken then m else |stream| - taken, false;
          forall j | 0 <= j < rc { buffer[off + j] := stream[taken + j]; }
          assert buffer[..off] == old(buffer[..off]);
          ghost var copied, piece := buffer[off..off + rc], stream[taken..taken + rc];
          assert forall j | 0 <= j < rc :: copied[j] == piece[j];
          taken := taken + rc;
          failed := failed || rc == 0;
        case Again => rc, again := -1, true;
        case Error => rc, again, failed := -1, false, true;
      }
      blocked := rc < n;
    }
  }

  lemma Between(s: seq<byte>, a: nat, b: nat, c: nat)
    requires a <= b <= c <= |s|
    ensures s[a..b] + s[b..c] == s[a..c]
  {
  }

  class InBuffer {
    const lenBytes: array<byte>
    var len: int
    var buffer: array?<byte>
    var currOffset: nat

    /** No buffer before the length is in; a negative length never gets one. */
    ghost predicate Valid()
      reads this
    {
      && lenBytes.Length == 4
      && lenBytes != buffer
      && (currOffset < 4 ==> buffer == null)
      && (currOffset >= 4 && buffer == null ==> currOffset == 4 && len < 0)
      && (buffer != null ==> buffer.Length == len && currOffset <= 4 + len)
    }

    ghost function Repr(): set<object>
      reads this
    {
      {this, lenBytes} + if buffer == null then {} else {buffer}
    }

    /** The body bytes received. */
    ghost function Got(): seq<byte>
      requires Valid()
      reads this, buffer
    {
      if buffer == null then [] else buffer[..currOffset - 4]
    }

    /** Every byte received, the length included. */
    ghost function Held(): seq<byte>
      requires Valid()
      reads this, lenBytes, buffer
    {
      if currOffset < 4 then lenBytes[..currOffset] else lenBytes[..] + Got()
    }

    /** An ordinary buffer: its length is the one that was received. */
    ghost predicate Framed()
      requires Valid()
      reads this, lenBytes, buffer
    {
      currOffset >= 4 ==> len == DecodeInt(lenBytes[..])
    }

    ghost predicate Whole()
      requires Valid()
      reads this
    {
      buffer != null && currOffset == 4 + len
    }

    /** `allocate_buffer(0, 0)` */
    constructor ()
      ensures Valid() && Framed() && Held() == [] && fresh(lenBytes) && buffer == null && currOffset == 0
    {
      lenBytes := new byte[4](i => 0);
      len, buffer, currOffset := 0, null, 0;
    }

    /** The handshake buffer, in the state `prime_connection` puts it: it has its length
        already. */
    constructor Primer()
      ensures Valid() && Got() == [] && buffer != null && fresh(buffer) && fresh(lenBytes)
      ensures currOffset == 4 && len == PRIMER_SIZE
    {
      lenBytes := new byte[4](i => 0);
      len, currOffset := PRIMER_SIZE, 4;
      buffer := new byte[PRIMER_SIZE](i => 0);
    }

    /** `recv_buffer`: the rest of the length, then as much of the body as there is.  An
        empty body may count as an end of the stream, since nothing can be received. */
    method Recv(fd: InStream) returns (rc: int)
      requires Valid() && !Whole() && fd.Valid() && !fd.failed
      modifies this, lenBytes, buffer, fd
      ensures Valid() && fd.Valid() && rc in {-1, 0, 1} && fd.taken >= old(fd.taken)
      ensures buffer == old(buffer) || (old(buffer) == null && fresh(buffer))
      ensures old(buffer) != null ==> len == old(len)
      ensures Held() == old(Held()) + fd.stream[old(fd.taken)..fd.taken]
      ensures old(buffer) != null ==> Got() == old(Got()) + fd.stream[old(fd.taken)..fd.taken]
      ensures old(Framed()) ==> Framed()
      ensures rc == 1 ==> Whole()
      ensures Whole() ==> rc == 1 || (rc == -1 && len == 0)
      ensures fd.failed == (rc == -1)
      ensures rc == 0 ==> fd.blocked || len < 0
    {
      ghost var t0 := fd.taken;
      if currOffset < 4 {
        var go := RecvLength(fd);
        if !go { return if fd.failed then -1 else 0; }
      }
      ghost var t1 := fd.taken;
      if buffer != null {
        var ok := RecvBody(fd);
        Between(fd.stream, t0, t1, fd.taken);
        if !ok { return -1; }
      }
      rc := if currOffset == len + 4 && currOffset >= 4 then 1 else 0;
    }

    /** The second half; false when the stream is over. */
    method RecvBody(fd: InStream) returns (ok: bool)
      requires Valid() && buffer != null && !(currOffset == 4 + len && len > 0) && fd.Valid() && !fd.failed
      modifies `currOffset, buffer, fd
      ensures Valid() && fd.Valid() && fd.taken >= old(fd.taken)
      ensures Got() == old(Got()) + fd.stream[old(fd.taken)..fd.taken]
      ensures Held() == old(Held()) + fd.stream[old(fd.taken)..fd.taken]
      ensures ok == !fd.failed && (!ok && old(!Whole()) ==> !Whole())
      ensures ok ==> Whole() || fd.blocked
    {
      var off := currOffset - 4;
      var rc, again := fd.Recv(buffer, off, len - off);
      assert fd.failed ==> fd.taken == old(fd.taken);
      if rc == 0 || (rc == -1 && !again) { return false; }
      if rc != -1 { currOffset := currOffset + rc; }
      ok := true;
    }

    /** The first half: `go` when the second half is to be entered. */
    method RecvLength(fd: InStream) returns (go: bool)
      requires Valid() && currOffset < 4 && fd.Valid() && !fd.failed
      modifies this, lenBytes, fd
      ensures Valid() && fd.Valid() && fd.taken >= old(fd.taken)
      ensures buffer == null || fresh(buffer)
      ensures Held() == old(Held()) + fd.stream[old(fd.taken)..fd.taken]
      ensures Framed() && Got() == []
      ensures fd.failed ==> !go
      ensures currOffset < 4 && !fd.failed ==> fd.blocked
      ensures currOffset >= 4 ==> currOffset == 4 && go
    {
      var rc, again := fd.Recv(lenBytes, currOffset, 4 - currOffset);
      if rc == 0 || rc == -1 { return false; }
      currOffset := currOffset + rc;
      if currOffset == 4 {
        len := DecodeInt(lenBytes[..]);
        if len >= 0 { buffer := new byte[len](i => 0); }
      }
      go := true;
    }
  }
}

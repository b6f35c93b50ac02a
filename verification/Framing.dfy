/** The stream of length-prefixed frames, as a value, and what makes it unambiguous. */
module Framing {
  import opened Common
  import opened Bytes

  /** What one call on the socket does; a count larger than the request is cut to it. */
  datatype Outcome = Count(n: nat) | Again | Error

  /** The body of a packet; its length is a 32-bit int. */
  type Body = s: seq<byte> | |s| < 0x8000_0000

  /** A packet of the client: never empty, since it has a header. */
  type Packet = b: Body | b != [] witness [0]

  function Frame(body: Body): (f: seq<byte>)
    ensures |f| == 4 + |body|
  {
    EncodeInt(|body|) + body
  }

  lemma FrameBytes(body: Body)
    ensures Frame(body) == EncodeInt(|body|) + body
  {
  }

  function FrameAll(bodies: seq<Body>): seq<byte> {
    if bodies == [] then [] else Frame(bodies[0]) + FrameAll(bodies[1..])
  }

  lemma {:induction false} FrameAllConcat(a: seq<Body>, b: seq<Body>)
    ensures FrameAll(a + b) == FrameAll(a) + FrameAll(b)
  {
    if a == [] {
      assert a + b == b;
    } else {
      hide Frame;
      FrameAllConcat(a[1..], b);
      assert (a + b)[1..] == a[1..] + b && (a + b)[0] == a[0];
      Associative(Frame(a[0]), FrameAll(a[1..]), FrameAll(b));
    }
  }

  lemma FrameAllOne(b: Body)
    ensures FrameAll([b]) == Frame(b)
  {
  }

  /** The wire, when the frames of `done` are out whole and `off` bytes of the next one. */
  function Sent(done: seq<Body>, bodies: seq<Body>, off: nat): seq<byte>
    requires bodies != [] ==> off <= |Frame(bodies[0])|
  {
    FrameAll(done) + if bodies == [] then [] else Frame(bodies[0])[..off]
  }

  lemma SentMore(done: seq<Body>, bodies: seq<Body>, off: nat, off': nat)
    requires bodies != [] && off <= off' <= |Frame(bodies[0])|
    ensures Sent(done, bodies, off') == Sent(done, bodies, off) + Frame(bodies[0])[off..off']
  {
  }

  /** Queueing does not touch what is out; at the front, only if nothing of the first frame is. */
  lemma SentPut(done: seq<Body>, bodies: seq<Body>, off: nat, b: Body, front: bool)
    requires if bodies == [] then off == 0 else off <= |Frame(bodies[0])|
    requires front ==> off == 0
    ensures Sent(done, if front then [b] + bodies else bodies + [b], off) == Sent(done, bodies, off)
  {
    if bodies == [] || front {
      assert Frame(b)[..0] == [];
      assert bodies != [] ==> Frame(bodies[0])[..0] == [];
    }
  }

  lemma SentNext(done: seq<Body>, bodies: seq<Body>)
    requires bodies != []
    ensures Sent(done + [bodies[0]], bodies[1..], 0) == Sent(done, bodies, |Frame(bodies[0])|)
  {
    FrameAllConcat(done, [bodies[0]]);
    FrameAllOne(bodies[0]);
  }

  /** Whatever is out is a prefix of the framing of everything queued. */
  lemma SentIsPrefix(done: seq<Body>, bodies: seq<Body>, off: nat)
    requires bodies != [] ==> off <= |Frame(bodies[0])|
    ensures Sent(done, bodies, off) <= FrameAll(done + bodies)
    ensures bodies == [] ==> Sent(done, bodies, off) == FrameAll(done + bodies)
  {
    FrameAllConcat(done, bodies);
    if bodies != [] {
      assert FrameAll(bodies) == Frame(bodies[0]) + FrameAll(bodies[1..]);
    }
  }

  /** The beginning of a frame that is not complete yet. */
  ghost predicate Partial(p: seq<byte>) {
    |p| >= 4 ==> |p| < 4 + DecodeInt(p[..4]) || (DecodeInt(p[..4]) < 0 && |p| == 4)
  }

  lemma FrameHead(b: Body, rest: seq<byte>)
    ensures DecodeInt((Frame(b) + rest)[..4]) == |b|
    ensures (Frame(b) + rest)[4..4 + |b|] == b && (Frame(b) + rest)[4 + |b|..] == rest
  {
    IntRoundTrip(|b|);
    assert (Frame(b) + rest)[..4] == EncodeInt(|b|);
  }

  /** There is only one way to cut a stream into frames: whatever frames and partial frame
      make up a prefix of a well-formed stream, the frames are its first ones. */
  lemma {:induction false} CutIsUnique(got: seq<Body>, partial: seq<byte>, sent: seq<Body>)
    requires Partial(partial) && FrameAll(got) + partial <= FrameAll(sent)
    ensures got <= sent
    ensures FrameAll(got) + partial == FrameAll(sent) ==> got == sent && partial == []
    decreases |got|
  {
    if got == [] {
      if sent != [] && partial == FrameAll(sent) {
        FrameHead(sent[0], FrameAll(sent[1..]));
      }
    } else {
      var rest := FrameAll(got[1..]) + partial;
      assert FrameAll(got) + partial == Frame(got[0]) + rest;
      FrameHead(got[0], rest);
      FirstFrame(got[0], rest, sent);
      CutIsUnique(got[1..], partial, sent[1..]);
      assert got == [got[0]] + got[1..] && sent == [sent[0]] + sent[1..];
    }
  }

  lemma FirstFrame(b: Body, rest: seq<byte>, sent: seq<Body>)
    requires Frame(b) + rest <= FrameAll(sent)
    ensures sent != [] && sent[0] == b && rest <= FrameAll(sent[1..])
    ensures Frame(b) + rest == FrameAll(sent) ==> rest == FrameAll(sent[1..])
  {
    var s, t := Frame(b) + rest, FrameAll(sent);
    var tail := FrameAll(sent[1..]);
    FrameHead(b, rest);
    FrameHead(sent[0], tail);
    assert s[..4] == t[..4];
    assert s[4..4 + |b|] == t[4..4 + |b|];
    assert s[4 + |b|..] <= t[4 + |b|..];
  }
}

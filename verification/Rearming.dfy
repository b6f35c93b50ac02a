/** On each connection the client authenticates first, then registers the watches again, and
    only then sends requests. */
module Rearming {
  import opened Common
  import opened Session
  import opened Ledger
  import opened World
  import opened Connection

  /** The rearming packet of the handshake stands at `p`, behind its authentication packets and
      nothing else but authentication, and is the only one of its kind. */
  predicate OpensAt(ps: seq<Packet>, g: Greeting, p: nat) {
    && g.auths <= p < |ps| && ps[p] == Rearm(g.zxid, g.watches)
    && (forall j | 0 <= j < p :: ps[j] == Auth)
    && (forall j | p < j < |ps| :: !ps[j].Rearm?)
  }

  ghost predicate Opens(ps: seq<Packet>, g: Greeting) { exists p: nat :: OpensAt(ps, g, p) }

  predicate NoRearm(ps: seq<Packet>) { forall j | 0 <= j < |ps| :: !ps[j].Rearm? }

  /** The packets of the connection, written and queued. */
  function OfConnection(w: World): seq<Packet> { w.wire + w.h.toSend }

  ghost predicate Rearmed(w: World) {
    && (w.pending.Some? ==> w.pending.value.Ask?)
    && if w.phase == Live && w.h.state == Connected then
         w.greeting.Some? && Opens(OfConnection(w), w.greeting.value)
       else !w.phase.Closing? ==> w.wire == [] && !w.headPartial && NoRearm(w.h.toSend)
  }

  /** A packet that does not rearm joins at the end, or an authentication packet anywhere. */
  lemma OpensStill(a: seq<Packet>, b: seq<Packet>, x: Packet, g: Greeting)
    requires Opens(a + b, g) && (x == Auth || (b == [] && !x.Rearm?))
    ensures Opens(a + [x] + b, g)
  {
    var p: nat :| OpensAt(a + b, g, p);
    var q := if p < |a| then p else p + 1;
    var ps, qs := a + b, a + [x] + b;
    forall j | 0 <= j < |qs|
      ensures (j < q ==> qs[j] == Auth) && (j > q ==> !qs[j].Rearm?)
    {
      assert qs[j] == if j < |a| then ps[j] else if j == |a| then x else ps[j - 1];
    }
    assert OpensAt(qs, g, q);
  }

  lemma LeaveRearmed(w: World)
    requires Rearmed(w) && Enabled(w, Leave)
    ensures Rearmed(Step(w, Leave))
  {
    hide Opens;
    var ps, p := OfConnection(w), w.pending.value;
    if w.phase == Live && w.h.state == Connected {
      assert ps + [] == ps;
      OpensStill(ps, [], p, w.greeting.value);
      assert OfConnection(Step(w, Leave)) == ps + [p] + [];
    }
  }

  lemma AuthRearmed(w: World)
    requires Rearmed(w) && Enabled(w, AddAuth)
    ensures Rearmed(Step(w, AddAuth))
  {
    hide Opens;
    if w.phase == Live && w.h.state == Connected {
      OpensStill(w.wire, w.h.toSend, Auth, w.greeting.value);
      Associative(w.wire, [Auth], w.h.toSend);
    }
  }

  lemma FlushRearmed(w: World)
    requires Rearmed(w) && Enabled(w, Flush)
    ensures Rearmed(Step(w, Flush))
  {
    assert OfConnection(Step(w, Flush)) == OfConnection(w);
  }

  lemma AdoptedQueue(h: Handle, grant: Grant, auths: nat)
    requires Handshake(h, grant, auths).Fine?
    ensures var h' := Handshake(h, grant, auths).h;
            h'.state == Connected && h'.toSend == Auths(auths) + [Rearm(h.lastZxid, h.watches)] + h.toSend
  {
  }

  lemma ShakeRearmed(w: World, grant: Grant, auths: nat)
    requires Rearmed(w) && Enabled(w, Shake(grant, auths))
    ensures Rearmed(Step(w, Shake(grant, auths)))
  {
    hide SessionEvent, ErrorEntry;
    var w' := Step(w, Shake(grant, auths));
    if w'.phase == Live {
      AdoptedQueue(w.h, grant, auths);
      var ps := OfConnection(w');
      assert ps == Auths(auths) + [Rearm(w.h.lastZxid, w.h.watches)] + w.h.toSend;
      assert OpensAt(ps, w'.greeting.value, auths);
    }
  }

  lemma ProcessRearmed(w: World)
    requires Rearmed(w) && Enabled(w, Process)
    ensures Rearmed(Step(w, Process))
  {
    hide Opens, NoRearm, ProcessReply, ErrorEntry;
    if ProcessReply(w.h, w.inHand.value).Fine? { ProcessKeeps(w.h, w.inHand.value); }
  }

  lemma CleanupRearmed(w: World)
    requires Rearmed(w) && Enabled(w, Cleanup)
    ensures Rearmed(Step(w, Cleanup))
  {
    CleanupKeeps(w.h, w.phase.reason);
  }

  /** The steps that queue nothing to be sent. */
  lemma OtherRearmed(w: World, a: Action)
    requires Rearmed(w) && SocketMatchesState(w) && Enabled(w, a) && !a.Leave? && !a.AddAuth? && !a.Flush?
    requires !a.Shake? && !a.Cleanup? && !a.Process?
    ensures Rearmed(Step(w, a))
  {
    hide Opens, NoRearm, ErrorEntry;
    var w' := Step(w, a);
    if !w'.phase.Closing? {
      assert w'.h.toSend == w.h.toSend && w'.wire == w.wire;
    }
  }

  lemma StepRearmed(w: World, a: Action)
    requires Rearmed(w) && SocketMatchesState(w) && Enabled(w, a)
    ensures Rearmed(Step(w, a))
  {
    hide Rearmed;
    match a {
      case Leave => LeaveRearmed(w);
      case AddAuth => AuthRearmed(w);
      case Flush => FlushRearmed(w);
      case Shake(grant, auths) => ShakeRearmed(w, grant, auths);
      case Cleanup => CleanupRearmed(w);
      case Process => ProcessRearmed(w);
      case _ => OtherRearmed(w, a);
    }
  }

  lemma {:induction false} RunRearmed(ws: seq<World>, actions: seq<Action>, i: nat)
    requires Run(ws, actions) && i <= |actions|
    ensures Rearmed(ws[i])
  {
    if i > 0 {
      RunRearmed(ws, actions, i - 1);
      RunSocket(ws, actions, i - 1);
      RunStep(ws, actions, i - 1);
      StepRearmed(ws[i - 1], actions[i - 1]);
    }
  }

  /** When a request goes out on a connection, what its handshake has put in front is out: its
      authentication packets, then the one rearming packet, made from the last zxid and the
      tables as they were then, and no request before either. */
  lemma RearmedBeforeRequests(ws: seq<World>, actions: seq<Action>, i: nat)
    requires Run(ws, actions) && i < |actions| && actions[i] == Flush
    requires ws[i].h.toSend != [] && ws[i].h.toSend[0].Ask?
    ensures ws[i].greeting.Some? && Opens(ws[i].wire, ws[i].greeting.value)
  {
    RunRearmed(ws, actions, i);
    RunStep(ws, actions, i);
    var w, n := ws[i], |ws[i].wire|;
    var ps, g := OfConnection(w), w.greeting.value;
    var p: nat :| OpensAt(ps, g, p);
    assert ps[n] == w.h.toSend[0];
    assert forall j | 0 <= j < n :: w.wire[j] == ps[j];
    assert OpensAt(w.wire, g, p);
  }

  /** Nothing is on the wire before a handshake is complete, not even a part of a packet: what
      the handshake puts in front of the queue does not cut a packet in two. */
  lemma NothingBeforeHandshake(ws: seq<World>, actions: seq<Action>, i: nat, grant: Grant, auths: nat)
    requires Run(ws, actions) && i < |actions| && actions[i] == Shake(grant, auths)
    ensures ws[i].wire == [] && !ws[i].headPartial
  {
    RunRearmed(ws, actions, i);
    RunStep(ws, actions, i);
  }
}

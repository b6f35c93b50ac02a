/** Every outstanding request is in exactly one place between the caller and the reply, and
    all of them in the order they were made. */
module Line {
  import opened Codes
  import opened Common
  import opened Session
  import opened Ledger
  import opened World

  datatype Tag = Tag(xid: int, id: nat)

  function CompletionTag(c: Completion): seq<Tag> { [Tag(c.xid, c.id)] }

  function ReplyTag(r: Reply): seq<Tag> { if Ordinary(r.xid) then [Tag(r.xid, r.id)] else [] }

  function PacketTag(p: Packet): seq<Tag> { if p.Ask? then [Tag(p.xid, p.id)] else [] }

  // ---------------------------------------------------------------- sequences in a row

  /** The first `n` of the sequences, one after the other. */
  function Row<T>(ss: seq<seq<T>>, n: nat): seq<T>
    requires n <= |ss|
  {
    if n == 0 then [] else Row(ss, n - 1) + ss[n - 1]
  }

  lemma {:induction false} RowLocal<T>(ss: seq<seq<T>>, tt: seq<seq<T>>, n: nat)
    requires n <= |ss| && n <= |tt| && forall j | 0 <= j < n :: ss[j] == tt[j]
    ensures Row(ss, n) == Row(tt, n)
  {
    if n > 0 { RowLocal(ss, tt, n - 1); }
  }

  /** Passing an element from the front of one sequence to the end of the one before. */
  lemma {:induction false} RowPass<T>(ss: seq<seq<T>>, tt: seq<seq<T>>, i: nat, x: seq<T>, n: nat)
    requires i + 1 < n <= |ss| == |tt| && forall j | 0 <= j < |ss| && j != i && j != i + 1 :: ss[j] == tt[j]
    requires tt[i] == ss[i] + x && ss[i + 1] == x + tt[i + 1]
    ensures Row(ss, n) == Row(tt, n)
  {
    if n > i + 2 {
      RowPass(ss, tt, i, x, n - 1);
    } else {
      RowLocal(ss, tt, i);
      assert Row(ss, n) == Row(ss, i) + ss[i] + ss[i + 1];
      assert Row(tt, n) == Row(tt, i) + tt[i] + tt[i + 1];
    }
  }

  /** Joining at the very end. */
  lemma RowJoin<T>(ss: seq<seq<T>>, tt: seq<seq<T>>, x: seq<T>)
    requires |ss| == |tt| > 0 && forall j | 0 <= j < |ss| - 1 :: ss[j] == tt[j]
    requires tt[|tt| - 1] == ss[|ss| - 1] + x
    ensures Row(tt, |tt|) == Row(ss, |ss|) + x
  {
    RowLocal(ss, tt, |ss| - 1);
  }

  /** Leaving at the very front. */
  lemma {:induction false} RowLeave<T>(ss: seq<seq<T>>, tt: seq<seq<T>>, x: seq<T>, n: nat)
    requires 0 < n <= |ss| == |tt| && (forall j | 0 < j < |ss| :: ss[j] == tt[j]) && ss[0] == x + tt[0]
    ensures Row(ss, n) == x + Row(tt, n)
  {
    if n == 1 {
      assert Row(ss, 0) == [] && Row(tt, 0) == [];
      assert [] + ss[0] == ss[0] && [] + tt[0] == tt[0];
    } else {
      RowLeave(ss, tt, x, n - 1);
      Associative(x, Row(tt, n - 1), tt[n - 1]);
    }
  }

  // ---------------------------------------------------------------- the invariant

  /** The places an outstanding request can be in, the nearest to its answer first. */
  function Places(w: World): (ps: seq<seq<Tag>>)
    ensures |ps| == 7
  {
    [if w.inHand.Some? then ReplyTag(w.inHand.value) else [],
     Gather(w.h.toProcess, ReplyTag),
     Gather(w.s2c, ReplyTag),
     Gather(w.server, PacketTag),
     Gather(w.c2s, PacketTag),
     Gather(w.h.toSend, PacketTag),
     if w.pending.Some? then PacketTag(w.pending.value) else []]
  }

  predicate OrdinaryAsk(p: Packet) { p.Ask? ==> Ordinary(p.xid) }

  predicate Asks(w: World) {
    && (w.pending.Some? ==> OrdinaryAsk(w.pending.value))
    && (forall i | 0 <= i < |w.h.toSend| :: OrdinaryAsk(w.h.toSend[i]))
    && (forall i | 0 <= i < |w.c2s| :: OrdinaryAsk(w.c2s[i]))
    && (forall i | 0 <= i < |w.server| :: OrdinaryAsk(w.server[i]))
  }

  /** While the connection stands, the requests in `sent_requests` are, in order, those of the
      replies still to be processed, on their way or still to be made, of the packets on their
      way, and of the packets to send, with the one of a thread in the critical section. */
  ghost predicate InLine(w: World) {
    && Asks(w)
    && !w.aborted && !w.disordered
    && if w.phase.Closing? then w.inHand == None && w.c2s == [] && w.server == [] && w.s2c == []
       else Gather(w.h.sent, CompletionTag) == Row(Places(w), 7)
  }

  // ---------------------------------------------------------------- steps

  lemma EnterInLine(w: World, c: Completion)
    requires InLine(w) && Enabled(w, Enter(c))
    ensures InLine(Step(w, Enter(c)))
  {
    hide Row, Gather;
    RecordInLine(w, c);
    assert Places(Step(w, Enter(c))) == Places(Record(w, c));
  }

  lemma PingInLine(w: World)
    requires InLine(w) && Enabled(w, EnterPing)
    ensures InLine(Step(w, EnterPing))
  {
    hide Row, Gather;
    RecordInLine(w, PING);
    assert Places(Step(w, EnterPing)) == Places(Record(w, PING));
  }

  lemma AuthInLine(w: World)
    requires InLine(w) && Enabled(w, AddAuth)
    ensures InLine(Step(w, AddAuth))
  {
    hide Row, Gather;
    FrontInLine(w, Step(w, AddAuth), [Auth]);
  }

  lemma RecordInLine(w: World, c: Completion)
    requires InLine(w) && w.pending == None && Ordinary(c.xid)
    ensures InLine(Record(w, c))
  {
    hide Row;
    var w' := Record(w, c);
    GatherSnoc(w.h.sent, c, CompletionTag);
    RowJoin(Places(w), Places(w'), CompletionTag(c));
  }

  lemma LeaveInLine(w: World)
    requires InLine(w) && Enabled(w, Leave)
    ensures InLine(Step(w, Leave))
  {
    hide Row, Gather;
    var w', p := Step(w, Leave), w.pending.value;
    GatherSnoc(w.h.toSend, p, PacketTag);
    RowPass(Places(w), Places(w'), 5, PacketTag(p), 7);
  }

  lemma FlushInLine(w: World)
    requires InLine(w) && Enabled(w, Flush)
    ensures InLine(Step(w, Flush))
  {
    hide Row, Gather;
    var w', p := Step(w, Flush), w.h.toSend[0];
    GatherSnoc(w.c2s, p, PacketTag);
    GatherFirst(w.h.toSend, PacketTag);
    RowPass(Places(w), Places(w'), 4, PacketTag(p), 7);
  }

  lemma AcceptInLine(w: World)
    requires InLine(w) && Enabled(w, Accept)
    ensures InLine(Step(w, Accept))
  {
    hide Row, Gather;
    var w', p := Step(w, Accept), w.c2s[0];
    GatherSnoc(w.server, p, PacketTag);
    GatherFirst(w.c2s, PacketTag);
    RowPass(Places(w), Places(w'), 3, PacketTag(p), 7);
  }

  lemma AnswerInLine(w: World, err: int, zxid: int)
    requires InLine(w) && Enabled(w, Answer(err, zxid))
    ensures InLine(Step(w, Answer(err, zxid)))
  {
    hide Row, Gather;
    var w', p := Step(w, Answer(err, zxid)), w.server[0];
    var r := AnswerTo(p, err, zxid);
    assert ReplyTag(r) == PacketTag(p);
    GatherSnoc(w.s2c, r, ReplyTag);
    GatherFirst(w.server, PacketTag);
    RowPass(Places(w), Places(w'), 2, ReplyTag(r), 7);
  }

  lemma ReceiveInLine(w: World)
    requires InLine(w) && Enabled(w, Receive)
    ensures InLine(Step(w, Receive))
  {
    hide Row, Gather;
    var w', r := Step(w, Receive), w.s2c[0];
    GatherSnoc(w.h.toProcess, r, ReplyTag);
    GatherFirst(w.s2c, ReplyTag);
    RowPass(Places(w), Places(w'), 1, ReplyTag(r), 7);
  }

  lemma TakeInLine(w: World)
    requires InLine(w) && Enabled(w, Take)
    ensures InLine(Step(w, Take))
  {
    hide Row, Gather;
    var w', r := Step(w, Take), w.h.toProcess[0];
    GatherFirst(w.h.toProcess, ReplyTag);
    RowPass(Places(w), Places(w'), 0, ReplyTag(r), 7);
  }

  /** A reply in hand answers the first outstanding request, if it is an ordinary one. */
  lemma HeadAnswered(w: World)
    requires InLine(w) && w.phase == Live && w.inHand.Some? && Ordinary(w.inHand.value.xid)
    ensures w.h.sent != []
    ensures w.h.sent[0].xid == w.inHand.value.xid && w.h.sent[0].id == w.inHand.value.id
    ensures Gather(w.h.sent[1..], CompletionTag) == Row(Places(w.(inHand := None)), 7)
  {
    var r := w.inHand.value;
    RowLeave(Places(w), Places(w.(inHand := None)), ReplyTag(r), 7);
    assert w.h.sent != [];
    GatherFirst(w.h.sent, CompletionTag);
    var rest := Row(Places(w.(inHand := None)), 7);
    assert (ReplyTag(r) + rest)[0] == Tag(r.xid, r.id);
    assert (ReplyTag(r) + rest)[1..] == rest;
    var others := Gather(w.h.sent[1..], CompletionTag);
    assert (CompletionTag(w.h.sent[0]) + others)[1..] == others;
  }

  lemma ProcessInLine(w: World)
    requires InLine(w) && Enabled(w, Process)
    ensures InLine(Step(w, Process))
  {
    hide Row, Gather;
    var r, w' := w.inHand.value, Step(w, Process);
    if Ordinary(r.xid) {
      HeadAnswered(w);
    } else {
      RowLeave(Places(w), Places(w.(inHand := None)), ReplyTag(r), 7);
      assert [] + Row(Places(w.(inHand := None)), 7) == Row(Places(w.(inHand := None)), 7);
    }
    hide Finish, Collected, SessionEvent;
    if ProcessReply(w.h, r).Fine? {
      ProcessKeeps(w.h, r);
      assert Places(w') == Places(w.(inHand := None));
    }
  }

  /** Packets without a request may go anywhere. */
  lemma {:induction false} NoTags(ps: seq<Packet>)
    requires forall i | 0 <= i < |ps| :: !ps[i].Ask?
    ensures Gather(ps, PacketTag) == []
  {
    if ps != [] { NoTags(Front(ps)); }
  }

  lemma FrontInLine(w: World, w': World, ps: seq<Packet>)
    requires InLine(w) && forall i | 0 <= i < |ps| :: !ps[i].Ask?
    requires w'.h.toSend == ps + w.h.toSend && w'.h.sent == w.h.sent && w'.h.toProcess == w.h.toProcess
    requires w' == w.(h := w'.h, greeting := w'.greeting)
    ensures InLine(w')
  {
    NoTags(ps);
    GatherConcat(ps, w.h.toSend, PacketTag);
    assert [] + Gather(w.h.toSend, PacketTag) == Gather(w.h.toSend, PacketTag);
    assert Places(w') == Places(w);
  }

  lemma ShakeInLine(w: World, grant: Grant, auths: nat)
    requires InLine(w) && Enabled(w, Shake(grant, auths))
    ensures InLine(Step(w, Shake(grant, auths)))
  {
    var w' := Step(w, Shake(grant, auths));
    if w'.phase == Live {
      FrontInLine(w, w', Auths(auths) + [Rearm(w.h.lastZxid, w.h.watches)]);
    }
  }

  lemma TellInLine(w: World, r: Reply)
    requires InLine(w) && Enabled(w, Tell(r))
    ensures InLine(Step(w, Tell(r)))
  {
    GatherSnoc(w.s2c, r, ReplyTag);
    assert Gather(w.s2c, ReplyTag) + [] == Gather(w.s2c, ReplyTag);
    assert Places(Step(w, Tell(r))) == Places(w);
  }

  lemma CleanupInLine(w: World)
    requires InLine(w) && Enabled(w, Cleanup)
    ensures InLine(Step(w, Cleanup))
  {
    CleanupKeeps(w.h, w.phase.reason);
    var w' := Step(w, Cleanup);
    assert forall j | 0 <= j < 7 :: Places(w')[j] == [];
    EmptyRow(Places(w'), 7);
  }

  lemma {:induction false} EmptyRow<T>(ss: seq<seq<T>>, n: nat)
    requires n <= |ss| && forall j | 0 <= j < n :: ss[j] == []
    ensures Row(ss, n) == []
  {
    if n > 0 { EmptyRow(ss, n - 1); }
  }

  /** With the connection gone, nothing is claimed until the clean-up. */
  lemma GiveUpInLine(w: World, h: Handle, reason: int)
    requires InLine(w) && h.toSend == w.h.toSend
    ensures InLine(GiveUp(w, h, reason))
  {
    hide Row, Gather, Collected;
  }

  lemma ConnectInLine(w: World, outcome: ConnectOutcome)
    requires InLine(w) && Enabled(w, Connect(outcome))
    ensures InLine(Step(w, Connect(outcome)))
  {
    hide Row, Gather;
    if outcome == Refused {
      GiveUpInLine(w.(attempts := w.attempts + [w.h.connectIndex]), w.h.(open := true), ZCONNECTIONLOSS);
      assert Places(w.(attempts := w.attempts + [w.h.connectIndex])) == Places(w);
    } else {
      assert Places(Step(w, Connect(outcome))) == Places(w);
    }
  }

  /** The steps that move no request. */
  lemma OtherInLine(w: World, a: Action)
    requires InLine(w) && Enabled(w, a)
    requires a.RunCallback? || a.FlushPart? || a.WantPing? || a.Reset? || a.WrapIndex? || a.Prime?
    ensures InLine(Step(w, a))
  {
    hide Row, Gather;
    assert Places(Step(w, a)) == Places(w);
  }

  lemma StepInLine(w: World, a: Action)
    requires InLine(w) && Enabled(w, a) && Honest(a)
    ensures InLine(Step(w, a))
  {
    hide InLine, Row, Gather, Places;
    match a {
      case Enter(c) => EnterInLine(w, c);
      case EnterPing => PingInLine(w);
      case Leave => LeaveInLine(w);
      case AddAuth => AuthInLine(w);
      case Flush => FlushInLine(w);
      case Accept => AcceptInLine(w);
      case Answer(err, zxid) => AnswerInLine(w, err, zxid);
      case Receive => ReceiveInLine(w);
      case Take => TakeInLine(w);
      case Process => ProcessInLine(w);
      case Shake(grant, auths) => ShakeInLine(w, grant, auths);
      case Tell(r) => TellInLine(w, r);
      case Cleanup => CleanupInLine(w);
      case Fail(reason) => GiveUpInLine(w, w.h, reason);
      case Connect(outcome) => ConnectInLine(w, outcome);
      case _ => OtherInLine(w, a);
    }
  }

  // ---------------------------------------------------------------- runs

  lemma {:induction false} RunInLine(ws: seq<World>, actions: seq<Action>, i: nat)
    requires Run(ws, actions) && i <= |actions| && forall j | 0 <= j < i :: Honest(actions[j])
    ensures InLine(ws[i])
  {
    if i == 0 {
      EmptyRow(Places(ws[0]), 7);
    } else {
      RunInLine(ws, actions, i - 1);
      RunStep(ws, actions, i - 1);
      StepInLine(ws[i - 1], actions[i - 1]);
    }
  }

  /** In every run against an in-order server, whatever disconnects and interleavings it has:
      a reply about to be processed finds its own request at the head of `sent_requests`, so
      the assertion there never fails and the branch for replies out of order is never taken. */
  lemma RepliesMeetTheirRequests(ws: seq<World>, actions: seq<Action>, i: nat)
    requires Run(ws, actions) && i < |actions| && (forall j | 0 <= j < i :: Honest(actions[j])) && actions[i] == Process
    ensures ws[i].inHand.Some?
    ensures var r, h := ws[i].inHand.value, ws[i].h;
            Ordinary(r.xid) ==> h.sent != [] && h.sent[0].xid == r.xid && h.sent[0].id == r.id
    ensures !ws[i + 1].aborted && !ws[i + 1].disordered
  {
    RunInLine(ws, actions, i);
    RunStep(ws, actions, i);
    StepInLine(ws[i], actions[i]);
    if Ordinary(ws[i].inHand.value.xid) { HeadAnswered(ws[i]); }
  }
}

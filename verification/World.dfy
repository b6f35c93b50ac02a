/** Client threads, one connection at a time and an in-order server, as a state machine.
    The steps are as fine as the locks allow: a request is recorded and queued in one
    critical section but in two steps, the I/O thread takes a reply and processes it in two
    steps, and giving up a connection takes three. */
module World {
  import opened Codes
  import opened Common
  import opened WatchRegistry
  import opened Session
  import opened Ledger

  /** What a handshake that connected has put in front of the queue: so many authentication
      packets, and the rearming packet made from this zxid and these tables. */
  datatype Greeting = Greeting(auths: nat, zxid: int, watches: Registry)

  /** Where the I/O thread is in `handle_error`: nowhere, past the closing of the socket,
      or past the clean-up. */
  datatype Phase = Live | Closing(reason: int) | Cleaned

  datatype World = World(
    h: Handle,
    phase: Phase,
    // The thread in the critical section has recorded this packet but not queued it yet.
    pending: Option<Packet>,
    // The reply the I/O thread has taken off `to_process`.
    inHand: Option<Reply>,
    // The I/O thread has found nothing outstanding, and is about to record a ping.
    wantPing: bool,
    // The first packet to send is partly on the wire.
    headPartial: bool,
    // Packets on their way, packets the server has yet to answer, replies on their way.
    c2s: seq<Packet>,
    server: seq<Packet>,
    s2c: seq<Reply>,
    // A failed `assert`, and a reply out of order.
    aborted: bool,
    disordered: bool,
    // The record of the run: requests made, packets written on this connection, what
    // its handshake has put in front, and the addresses tried so far.
    calls: nat,
    asyncCalls: seq<Completion>,
    syncCalls: seq<Completion>,
    wire: seq<Packet>,
    greeting: Option<Greeting>,
    attempts: seq<nat>)

  datatype Action =
    // Any thread
    | Enter(c: Completion)
    | Leave
    | AddAuth
    | RunCallback
    // The I/O thread
    | Flush
    | FlushPart
    | Receive
    | Take
    | Process
    | WantPing
    | EnterPing
    | Fail(reason: int)
    | Cleanup
    | Reset
    | WrapIndex
    | Connect(outcome: ConnectOutcome)
    | Prime
    | Shake(grant: Grant, auths: nat)
    // The server
    | Accept
    | Answer(err: int, zxid: int)
    | Tell(r: Reply)
    // Anything at all arriving from the network
    | Inject(r: Reply)

  predicate Initial(w: World) {
    && w.h == Handle(Idle, false, 0, w.h.addrsCount, w.h.clientId, w.h.recvTimeout, w.h.passwd, 0, [], [], [], [], 0,
                     Registry(map[], map[], map[]), w.h.global, [], [])
    && w == World(w.h, Live, None, None, false, false, [], [], [], false, false, 0, [], [], [], None, [])
  }

  /** The I/O thread is between two calls. */
  predicate IoIdle(w: World) { w.phase == Live && w.inHand == None && !w.wantPing }

  const PING := Completion(PING_XID, 0, false, None)

  predicate Enabled(w: World, a: Action) {
    && !w.aborted
    && match a
       case Enter(c) => w.pending == None && Ordinary(c.xid) && c.xid != PING_XID && c.id == w.calls
       case Leave => w.pending.Some?
       case AddAuth => (w.h.state == Connected || w.h.state == Associating) && !w.headPartial
       case RunCallback => w.h.completions != []
       case Flush => w.phase == Live && w.h.state == Connected && w.h.toSend != []
       case FlushPart => w.phase == Live && w.h.state == Connected && w.h.toSend != []
       case Receive => IoIdle(w) && w.h.state == Connected && w.s2c != []
       case Take => IoIdle(w) && w.h.toProcess != []
       case Process => w.phase == Live && w.h.open && w.inHand.Some?
       case WantPing => IoIdle(w) && w.h.state == Connected && w.h.sent == []
       case EnterPing => w.wantPing && w.pending == None
       case Fail(_) => IoIdle(w) && w.h.open
       case Cleanup => w.phase.Closing? && w.pending == None
       case Reset => w.phase == Cleaned
       case WrapIndex => IoIdle(w) && !w.h.open && w.h.connectIndex == w.h.addrsCount && !Unrecoverable(w.h.state)
       case Connect(_) => IoIdle(w) && !w.h.open && w.h.connectIndex < w.h.addrsCount && !Unrecoverable(w.h.state)
       case Prime => IoIdle(w) && w.h.state == Connecting
       case Shake(_, _) => IoIdle(w) && w.h.state == Associating
       case Accept => w.c2s != []
       case Answer(_, _) => w.server != []
       case Tell(r) => w.phase == Live && w.h.state == Connected && (r.xid == WATCHER_EVENT_XID || r.xid == AUTH_XID)
       case Inject(_) => w.phase == Live && w.h.state == Connected
  }

  /** The start of `handle_error`: the connection and all that was on it are gone. */
  function GiveUp(w: World, h: Handle, reason: int): World {
    w.(h := ErrorEntry(h), phase := Closing(reason), inHand := None, c2s := [], server := [], s2c := [])
  }

  function AnswerTo(p: Packet, err: int, zxid: int): Reply {
    match p
    case Ask(xid, id) => Reply(xid, id, zxid, err, 0, Idle, [])
    case Rearm(_, _) => Reply(SET_WATCHES_XID, 0, zxid, err, 0, Idle, [])
    case Auth => Reply(AUTH_XID, 0, zxid, err, 0, Idle, [])
  }

  function Record(w: World, c: Completion): World {
    w.(h := AddCompletion(w.h, c), pending := Some(Ask(c.xid, c.id)))
  }

  function Step(w: World, a: Action): World
    requires Enabled(w, a)
  {
    match a
    case Enter(c) =>
      Record(w, c).(calls := w.calls + 1, asyncCalls := w.asyncCalls + AsyncOf(c), syncCalls := w.syncCalls + SyncOf(c))
    case Leave => w.(h := Enqueue(w.h, w.pending.value), pending := None)
    case AddAuth => w.(h := EnqueueFront(w.h, Auth))
    case RunCallback => w.(h := RunCompletion(w.h))
    case Flush =>
      var p := w.h.toSend[0];
      w.(h := w.h.(toSend := w.h.toSend[1..]), c2s := w.c2s + [p], wire := w.wire + [p], headPartial := false)
    case FlushPart => w.(headPartial := true)
    case Receive => w.(h := w.h.(toProcess := w.h.toProcess + [w.s2c[0]]), s2c := w.s2c[1..])
    case Take => w.(h := w.h.(toProcess := w.h.toProcess[1..]), inHand := Some(w.h.toProcess[0]))
    case Process =>
      (match ProcessReply(w.h, w.inHand.value)
       case Fine(h) => w.(h := h, inHand := None)
       case Broken(h, reason) =>
         GiveUp(w, h, reason).(disordered := w.disordered || reason == ZRUNTIMEINCONSISTENCY)
       case Aborted => w.(aborted := true))
    case WantPing => w.(wantPing := true)
    case EnterPing => Record(w, PING).(wantPing := false)
    case Fail(reason) => GiveUp(w, w.h, reason)
    case Cleanup => w.(h := CleanupBufs(w.h, w.phase.reason), phase := Cleaned, wire := [], headPartial := false)
    case Reset => w.(h := ErrorExit(w.h), phase := Live)
    case WrapIndex => w.(h := w.h.(connectIndex := 0))
    case Connect(outcome) =>
      var w := w.(h := Attempt(w.h, outcome), attempts := w.attempts + [w.h.connectIndex]);
      if outcome == Refused then GiveUp(w, w.h, ZCONNECTIONLOSS) else w
    case Prime => w.(h := w.h.(state := Associating))
    case Shake(grant, auths) =>
      (match Handshake(w.h, grant, auths)
       case Fine(h) => w.(h := h, greeting := Some(Greeting(auths, w.h.lastZxid, w.h.watches)))
       case Broken(h, reason) => GiveUp(w, h, reason)
       case Aborted => w.(aborted := true))
    case Accept => w.(c2s := w.c2s[1..], server := w.server + [w.c2s[0]])
    case Answer(err, zxid) => w.(server := w.server[1..], s2c := w.s2c + [AnswerTo(w.server[0], err, zxid)])
    case Tell(r) => w.(s2c := w.s2c + [r])
    case Inject(r) => w.(s2c := w.s2c + [r])
  }

  /** World `i` leads to the next one by action `i`. */
  ghost predicate Next(ws: seq<World>, actions: seq<Action>, i: nat)
    requires i < |actions| && i + 1 < |ws|
  {
    Enabled(ws[i], actions[i]) && ws[i + 1] == Step(ws[i], actions[i])
  }

  /** `ws` is a run: it starts anew, and each world follows from the one before by the
      action between them. */
  ghost predicate Run(ws: seq<World>, actions: seq<Action>) {
    && |ws| == |actions| + 1 && Initial(ws[0])
    && forall i {:trigger Next(ws, actions, i)} | 0 <= i < |actions| :: Next(ws, actions, i)
  }

  lemma RunStep(ws: seq<World>, actions: seq<Action>, i: nat)
    requires Run(ws, actions) && i < |actions|
    ensures Enabled(ws[i], actions[i]) && ws[i + 1] == Step(ws[i], actions[i])
  {
    assert Next(ws, actions, i);
  }

  /** The server answers in order, leaves the events of the session to the client, and nothing
      else talks on its connection. */
  predicate Honest(a: Action) { !a.Inject? && (a.Tell? ==> a.r.event != SESSION_EVENT) }
}

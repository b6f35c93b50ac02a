/** The client session as a value: what each operation of the engine does to the handle. */
module Session {
  import opened Bytes
  import opened Codes
  import opened Common
  import opened WatchRegistry

  /** `Idle` is the 0 of a handle without a connection. */
  datatype ConnState = Idle | Connecting | Associating | Connected | Expired | AuthFailed

  predicate Unrecoverable(s: ConnState) { s == Expired || s == AuthFailed }

  /** A request in `sent_requests`; `id` tells apart the calls that made them. */
  datatype Completion = Completion(xid: int, id: nat, sync: bool, watch: Option<Registration>)

  /** An entry of `completions_to_process`: a finished request with its result code, or an
      event with the watchers it goes to. */
  datatype Ready =
    | Finished(c: Completion, rc: int)
    | Noticed(event: int, state: ConnState, path: Path, watchers: set<Watcher>)

  /** What is queued to be sent, one packet a frame. */
  datatype Packet = Ask(xid: int, id: nat) | Rearm(zxid: int, watches: Registry) | Auth

  /** A received frame.  `id` is the request a server meant to answer; the client cannot
      see it. */
  datatype Reply = Reply(xid: int, id: nat, zxid: int, err: int, event: int, state: ConnState, path: Path)

  /** What the server's handshake reply grants: a session id, a timeout and a password. */
  datatype Grant = Grant(id: int, timeOut: int, passwd: seq<byte>)

  datatype Handle = Handle(
    state: ConnState,
    open: bool,
    connectIndex: nat,
    addrsCount: nat,
    clientId: int,
    recvTimeout: int,
    passwd: seq<byte>,
    lastZxid: int,
    toSend: seq<Packet>,
    toProcess: seq<Reply>,
    sent: seq<Completion>,
    completions: seq<Ready>,
    outstandingSync: int,
    watches: Registry,
    global: Watcher,
    // What has happened: upcalls made, synchronous callers woken.
    fired: seq<Ready>,
    notified: seq<Ready>)

  // ---------------------------------------------------------------- requests

  /** `add_completion` */
  function AddCompletion(h: Handle, c: Completion): Handle {
    h.(sent := h.sent + [c], outstandingSync := h.outstandingSync + if c.sync then 1 else 0)
  }

  function Enqueue(h: Handle, p: Packet): Handle { h.(toSend := h.toSend + [p]) }

  function EnqueueFront(h: Handle, p: Packet): Handle { h.(toSend := [p] + h.toSend) }

  // ---------------------------------------------------------------- events

  function Members(t: Table): set<Watcher> { set p, w | p in t && w in t[p] :: w }

  /** The watchers `collectWatchers` gathers. */
  function Collected(r: Registry, global: Watcher, event: int, path: Path): set<Watcher> {
    if event == SESSION_EVENT then {global} + Members(r.node) + Members(r.exist) + Members(r.child)
    else set kind, w | kind in {Node, Exist, Child} && Clears(event, kind) && path in r.Of(kind) &&
                       w in r.Of(kind)[path] :: w
  }

  /** `queue_session_event` */
  function SessionEvent(h: Handle, state: ConnState): Handle {
    var watchers := Collected(h.watches, h.global, SESSION_EVENT, []);
    h.(completions := h.completions + [Noticed(SESSION_EVENT, state, [], watchers)])
  }

  // ---------------------------------------------------------------- failure

  /** What becomes of one request when the connection is given up. */
  function Abandon(h: Handle, c: Completion, reason: int): Handle {
    if c.sync then h.(notified := h.notified + [Finished(c, reason)], outstandingSync := h.outstandingSync - 1)
    else if c.xid == PING_XID then h
    else h.(completions := h.completions + [Finished(c, reason)])
  }

  function AbandonAll(h: Handle, cs: seq<Completion>, n: nat, reason: int): Handle
    requires n <= |cs|
  {
    if n == 0 then h else Abandon(AbandonAll(h, cs, n - 1, reason), cs[n - 1], reason)
  }

  /** `free_completions` */
  function FreeCompletions(h: Handle, reason: int): Handle {
    AbandonAll(h.(sent := []), h.sent, |h.sent|, reason)
  }

  /** `cleanup_bufs` */
  function CleanupBufs(h: Handle, reason: int): Handle {
    FreeCompletions(h.(toSend := [], toProcess := []), reason)
  }

  /** The first part of `handle_error`: the socket is closed, and the watchers are told. */
  function ErrorEntry(h: Handle): Handle {
    if Unrecoverable(h.state) then SessionEvent(h, h.state)
    else if h.state == Connected then SessionEvent(h, Connecting)
    else h
  }

  /** The last part of `handle_error` */
  function ErrorExit(h: Handle): Handle {
    h.(open := false, connectIndex := h.connectIndex + 1, state := if Unrecoverable(h.state) then h.state else Idle)
  }

  function HandleError(h: Handle, reason: int): Handle {
    ErrorExit(CleanupBufs(ErrorEntry(h), reason))
  }

  // ---------------------------------------------------------------- replies

  predicate Ordinary(xid: int) { xid != WATCHER_EVENT_XID && xid != SET_WATCHES_XID && xid != AUTH_XID }

  /** `Broken` is followed by `handle_error`; `Aborted` is the failure of `assert(cptr)`. */
  datatype Processed = Fine(h: Handle) | Broken(h: Handle, reason: int) | Aborted

  /** `activateWatcher`, on the watch a request carried */
  function Armed(h: Handle, c: Completion, r: Reply): Handle {
    match c.watch
    case None => h
    case Some(reg) => h.(watches := Activated(h.watches, reg, r.err))
  }

  /** A matched reply: the watch is activated, then the request is finished. */
  function Finish(h: Handle, c: Completion, r: Reply): Handle {
    var h := Armed(h, c, r);
    if c.sync then h.(notified := h.notified + [Finished(c, r.err)], outstandingSync := h.outstandingSync - 1)
    else if r.xid == PING_XID then h
    else h.(completions := h.completions + [Finished(c, r.err)])
  }

  /** One turn of the loop of `zookeeper_process`, for a reply already taken off the queue. */
  function ProcessReply(h: Handle, r: Reply): Processed {
    var h := if r.zxid > 0 then h.(lastZxid := r.zxid) else h;
    if r.xid == WATCHER_EVENT_XID then
      var watchers := Collected(h.watches, h.global, r.event, r.path);
      Fine(h.(completions := h.completions + [Noticed(r.event, r.state, r.path, watchers)],
              watches := if r.event == SESSION_EVENT then h.watches else Fired(h.watches, r.event, r.path)))
    else if r.xid == SET_WATCHES_XID then Fine(h)
    else if r.xid == AUTH_XID then
      if r.err != 0 then Broken(h.(state := AuthFailed), ZAUTHFAILED) else Fine(h)
    else if h.sent == [] then Aborted
    else if h.sent[0].xid != r.xid then Broken(h, ZRUNTIMEINCONSISTENCY)
    else Fine(Finish(h.(sent := h.sent[1..]), h.sent[0], r))
  }

  /** One turn of the loop of `process_completions` */
  function RunCompletion(h: Handle): Handle
    requires h.completions != []
  {
    h.(completions := h.completions[1..], fired := h.fired + [h.completions[0]])
  }

  // ---------------------------------------------------------------- connecting

  /** What comes of `connect` at once: a connection with the handshake written, one in progress,
      or none, because it was refused or the handshake could not be written. */
  datatype ConnectOutcome = Done | InProgress | Refused

  /** A connection is opened; the handshake is sent as soon as it stands. */
  function Attempt(h: Handle, outcome: ConnectOutcome): Handle {
    match outcome
    case Done => h.(open := true, state := Associating)
    case InProgress => h.(open := true, state := Connecting)
    case Refused => h.(open := true)
  }

  function Auths(n: nat): (r: seq<Packet>)
    ensures |r| == n && forall i | 0 <= i < n :: r[i] == Auth
  {
    seq(n, i => Auth)
  }

  /** Connected, with what was granted.  `auths` packets of the auth list go in front of the
      rearming packet, which is in front of everything else. */
  function Adopted(h: Handle, grant: Grant, auths: nat): Handle {
    h.(clientId := grant.id, recvTimeout := grant.timeOut, passwd := grant.passwd, state := Connected,
       toSend := Auths(auths) + [Rearm(h.lastZxid, h.watches)] + h.toSend)
  }

  /** The end of a handshake: another session id means that the session has expired. */
  function Handshake(h: Handle, grant: Grant, auths: nat): Processed {
    if h.clientId != 0 && h.clientId != grant.id then Broken(h.(state := Expired), ZSESSIONEXPIRED)
    else Fine(SessionEvent(Adopted(h, grant, auths), Connected))
  }
}

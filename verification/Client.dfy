/** The handle as an object: the loops and the sequences of updates of the engine, with or
    without a completion thread, do what the session functions say. */
module Client {
  import opened Bytes
  import opened Codes
  import opened Common
  import opened WatchRegistry
  import opened Session
  import opened Ledger
  import opened Results
  import Codec = Handshake

  /** `process_completions`: every ready completion is delivered, in order. */
  function RunAll(h: Handle): Handle {
    h.(completions := [], fired := h.fired + h.completions)
  }

  /** `process_async`: with a completion thread never, without one when no synchronous call
      is outstanding. */
  predicate ProcessAsync(threaded: bool, outstandingSync: int) { !threaded && outstandingSync == 0 }

  /** The completions are run at once, where they are. */
  function Settled(h: Handle, threaded: bool): Handle {
    if ProcessAsync(threaded, h.outstandingSync) then RunAll(h) else h
  }

  function EntrySettled(h: Handle, threaded: bool): Handle {
    if Unrecoverable(h.state) || h.state == Connected then Settled(ErrorEntry(h), threaded) else h
  }

  function ErrorSettled(h: Handle, threaded: bool, reason: int): Handle {
    Settled(ErrorExit(CleanupBufs(EntrySettled(h, threaded), reason)), threaded)
  }

  lemma SettledBalanced(h: Handle, threaded: bool)
    ensures Balanced(h, Settled(h, threaded))
  {
    GatherConcat(h.fired, h.completions, DoneOf);
    Associative(Gather(h.fired, DoneOf), Gather(h.completions, DoneOf), Gather(h.sent, AsyncOf));
    assert [] + Gather(h.sent, AsyncOf) == Gather(h.sent, AsyncOf);
  }

  /** An error loses no request, and leaves none outstanding. */
  lemma ErrorSettledBalanced(h: Handle, threaded: bool, reason: int)
    ensures var h' := ErrorSettled(h, threaded, reason); Balanced(h, h') && h'.sent == [] && h'.toSend == []
  {
    hide Balanced;
    var h1 := EntrySettled(h, threaded);
    HandleErrorBalanced(h, reason);
    SettledBalanced(ErrorEntry(h), threaded);
    Transitive(h, ErrorEntry(h), h1);
    var h2 := CleanupBufs(h1, reason);
    CleanupBalanced(h1, reason);
    CleanupKeeps(h1, reason);
    Transitive(h, h1, h2);
    assert Balanced(h2, ErrorExit(h2)) by { ExitBalanced(h2); }
    Transitive(h, h2, ErrorExit(h2));
    SettledBalanced(ErrorExit(h2), threaded);
    Transitive(h, ErrorExit(h2), Settled(ErrorExit(h2), threaded));
  }

  /** Settling makes no upcall ready and takes none back; it makes them all, or none. */
  lemma SettledTells(h: Handle, threaded: bool)
    ensures var h' := Settled(h, threaded);
            && h'.fired + h'.completions == h.fired + h.completions
            && (!threaded && h.outstandingSync == 0 ==> h'.completions == [])
            && (threaded || h.outstandingSync != 0 ==> h'.fired == h.fired)
            && h' == h.(fired := h'.fired, completions := h'.completions)
  {
    assert h.fired + h.completions + [] == h.fired + h.completions;
  }

  /** After an error: the connection and its queues are gone, the next address is due, a lost
      session stays lost; every request that was outstanding has ended with the reason, behind
      the news for the watchers. */
  lemma ErrorTells(h: Handle, threaded: bool, reason: int)
    ensures var h' := ErrorSettled(h, threaded, reason);
            && h' == h.(open := false, connectIndex := h.connectIndex + 1,
                        state := if h.state in {Expired, AuthFailed} then h.state else Idle,
                        sent := [], toSend := [], toProcess := [],
                        notified := h.notified + Woken(h.sent, reason),
                        outstandingSync := h.outstandingSync - |Woken(h.sent, reason)|,
                        fired := h'.fired, completions := h'.completions)
            && h'.fired + h'.completions == h.fired + h.completions + Announced(h) + CalledBack(h.sent, reason)
            && (threaded ==> h'.fired == h.fired)
            && (!threaded && h'.outstandingSync == 0 ==> h'.completions == [])
  {
    hide Settled, ErrorEntry, CleanupBufs, Announced;
    EntryTells(h);
    SettledTells(ErrorEntry(h), threaded);
    var h1 := EntrySettled(h, threaded);
    NoNews(h);
    CleanupTells(h1, reason);
    var h2 := ErrorExit(CleanupBufs(h1, reason));
    SettledTells(h2, threaded);
    Associative(h.fired, h.completions, Announced(h));
    Associative(h1.fired, h1.completions, CalledBack(h.sent, reason));
  }

  lemma NoNews(h: Handle)
    ensures !Unrecoverable(h.state) && h.state != Connected ==> Announced(h) == [] && ErrorEntry(h) == h
    ensures h.fired + h.completions + [] == h.fired + h.completions
  {
  }

  /** So many single callbacks. */
  function RunMany(h: Handle, n: nat): Handle
    requires n <= |h.completions|
    decreases n
  {
    if n == 0 then h else RunMany(RunCompletion(h), n - 1)
  }

  /** Running the completions at once is as many single callbacks. */
  lemma {:induction false} RunAllIsCallbacks(h: Handle)
    ensures RunMany(h, |h.completions|) == RunAll(h)
    decreases |h.completions|
  {
    if h.completions != [] {
      RunAllIsCallbacks(RunCompletion(h));
      Associative(h.fired, [h.completions[0]], h.completions[1..]);
      assert h.completions == [h.completions[0]] + h.completions[1..];
    } else {
      assert h.fired + [] == h.fired;
    }
  }

  lemma ExitBalanced(h: Handle)
    ensures Balanced(h, ErrorExit(h))
  {
  }

  lemma Transitive(a: Handle, b: Handle, c: Handle)
    requires (Balanced(a, b) || a == b) && (Balanced(b, c) || b == c)
    ensures Balanced(a, c)
  {
  }


  /** What the handshake reply grants. */
  function GrantOf(p: Codec.PrimeStruct): Grant { Grant(p.sessionId, p.timeOut, p.passwd) }

  class ZHandle {
    const threaded: bool
    const addrsCount: nat
    var fd: int
    var state: ConnState
    var connectIndex: nat
    var clientId: int
    var recvTimeout: int
    var passwd: seq<byte>
    var lastZxid: int
    var toSend: seq<Packet>
    var toProcess: seq<Reply>
    var sentRequests: seq<Completion>
    var completionsToProcess: seq<Ready>
    var outstandingSync: int
    var watches: Registry
    var global: Watcher
    ghost var fired: seq<Ready>
    ghost var notified: seq<Ready>

    ghost function Snap(): Handle
      reads this
    {
      Handle(state, fd != -1, connectIndex, addrsCount, clientId, recvTimeout, passwd, lastZxid, toSend, toProcess,
             sentRequests, completionsToProcess, outstandingSync, watches, global, fired, notified)
    }

    /** `zookeeper_init` */
    constructor (threaded: bool, addrsCount: nat, clientId: int, passwd: seq<byte>, recvTimeout: int,
                 global: Watcher)
      ensures Snap() == Handle(Idle, false, 0, addrsCount, clientId, recvTimeout, passwd, 0, [], [], [], [], 0,
                               Registry(map[], map[], map[]), global, [], [])
      ensures this.threaded == threaded
    {
      this.threaded, this.addrsCount, this.global := threaded, addrsCount, global;
      this.clientId, this.passwd, this.recvTimeout := clientId, passwd, recvTimeout;
      fd, state, connectIndex, lastZxid, outstandingSync := -1, Idle, 0, 0, 0;
      toSend, toProcess, sentRequests, completionsToProcess := [], [], [], [];
      watches := Registry(map[], map[], map[]);
      fired, notified := [], [];
    }

    /** `add_completion` */
    method AddCompletion(c: Completion)
      modifies `sentRequests, `outstandingSync
      ensures Snap() == Session.AddCompletion(old(Snap()), c)
    {
      sentRequests := sentRequests + [c];
      if c.sync { outstandingSync := outstandingSync + 1; }
    }

    /** `free_completions` */
    method FreeCompletions(reason: int)
      modifies `sentRequests, `completionsToProcess, `notified, `outstandingSync
      ensures Snap() == Session.FreeCompletions(old(Snap()), reason)
      ensures sentRequests == [] && notified == old(notified) + Woken(old(sentRequests), reason)
      ensures completionsToProcess == old(completionsToProcess) + CalledBack(old(sentRequests), reason)
      ensures outstandingSync == old(outstandingSync) - |Woken(old(sentRequests), reason)|
    {
      hide Woken, CalledBack, Session.Abandon;
      AbandonAllTells(Snap().(sent := []), sentRequests, |sentRequests|, reason);
      assert sentRequests[..|sentRequests|] == sentRequests;
      var tmpList := sentRequests;
      sentRequests := [];
      ghost var h, all, n := Snap(), tmpList, 0;
      while tmpList != []
        invariant n <= |all| && tmpList == all[n..] && Snap() == AbandonAll(h, all, n, reason)
        decreases |tmpList|
      {
        assert all[n..][0] == all[n] && all[n..][1..] == all[n + 1..];
        var cptr := tmpList[0];
        tmpList := tmpList[1..];
        Abandon(cptr, reason);
        n := n + 1;
      }
    }

    method Abandon(cptr: Completion, reason: int)
      modifies `completionsToProcess, `notified, `outstandingSync
      ensures Snap() == Session.Abandon(old(Snap()), cptr, reason)
    {
      if cptr.sync {
        notified := notified + [Finished(cptr, reason)];
        outstandingSync := outstandingSync - 1;
      } else if cptr.xid != PING_XID {
        completionsToProcess := completionsToProcess + [Finished(cptr, reason)];
      }
    }

    /** `cleanup_bufs` */
    method CleanupBufs(reason: int)
      modifies `toSend, `toProcess, `sentRequests, `completionsToProcess, `notified, `outstandingSync
      ensures Snap() == Session.CleanupBufs(old(Snap()), reason)
    {
      toSend := [];
      toProcess := [];
      FreeCompletions(reason);
    }

    /** `process_completions` */
    method ProcessCompletions()
      modifies `completionsToProcess, `fired
      ensures Snap() == RunAll(old(Snap()))
      ensures fired == old(fired) + old(completionsToProcess) && completionsToProcess == []
    {
      ghost var all, n := completionsToProcess, 0;
      while completionsToProcess != []
        invariant n <= |all| && completionsToProcess == all[n..]
        invariant Snap() == old(Snap()).(completions := all[n..], fired := old(fired) + all[..n])
        decreases |completionsToProcess|
      {
        assert all[n..][0] == all[n] && all[n..][1..] == all[n + 1..] && all[..n + 1] == all[..n] + [all[n]];
        Associative(old(fired), all[..n], [all[n]]);
        fired := fired + [completionsToProcess[0]];
        completionsToProcess := completionsToProcess[1..];
        n := n + 1;
      }
      assert all[..n] == all;
    }

    /** `queue_session_event` */
    method QueueSessionEvent(state: ConnState)
      modifies `completionsToProcess, `fired
      ensures Snap() == Settled(SessionEvent(old(Snap()), state), threaded)
      ensures fired + completionsToProcess == old(fired + completionsToProcess) +
                [Noticed(SESSION_EVENT, state, [], Collected(watches, global, SESSION_EVENT, []))]
      ensures !threaded && outstandingSync == 0 ==> completionsToProcess == []
      ensures threaded || outstandingSync != 0 ==> fired == old(fired)
    {
      hide Collected;
      var watchers := Collected(watches, global, SESSION_EVENT, []);
      completionsToProcess := completionsToProcess + [Noticed(SESSION_EVENT, state, [], watchers)];
      Settle();
    }

    method Settle()
      modifies `completionsToProcess, `fired
      ensures Snap() == Settled(old(Snap()), threaded)
      ensures if !threaded && outstandingSync == 0
              then fired == old(fired) + old(completionsToProcess) && completionsToProcess == []
              else fired == old(fired) && completionsToProcess == old(completionsToProcess)
    {
      if ProcessAsync(threaded, outstandingSync) { ProcessCompletions(); }
    }

    /** `handle_error` */
    method HandleError(reason: int)
      modifies this
      ensures Snap() == ErrorSettled(old(Snap()), threaded, reason)
      ensures Balanced(old(Snap()), Snap())
      ensures fd == -1 && sentRequests == [] && toSend == [] && toProcess == []
      ensures connectIndex == old(connectIndex) + 1
      ensures state == if old(state) in {Expired, AuthFailed} then old(state) else Idle
      ensures notified == old(notified) + Woken(old(sentRequests), reason)
      ensures fired + completionsToProcess ==
                old(fired + completionsToProcess) + Announced(old(Snap())) + CalledBack(old(sentRequests), reason)
      ensures outstandingSync == old(outstandingSync) - |Woken(old(sentRequests), reason)|
      ensures threaded ==> fired == old(fired)
      ensures !threaded && outstandingSync == 0 ==> completionsToProcess == []
      ensures clientId == old(clientId) && passwd == old(passwd) && recvTimeout == old(recvTimeout)
      ensures lastZxid == old(lastZxid) && watches == old(watches) && global == old(global)
    {
      hide Session.CleanupBufs, Balanced, Settled, SessionEvent, Announced, Woken, CalledBack;
      ErrorTells(Snap(), threaded, reason);
      ErrorSettledBalanced(Snap(), threaded, reason);
      Announce();
      CleanupBufs(reason);
      LeaveServer();
      Settle();
    }

    method Announce()
      modifies `completionsToProcess, `fired
      ensures Snap() == EntrySettled(old(Snap()), threaded)
    {
      if Unrecoverable(state) {
        QueueSessionEvent(state);
      } else if state == Connected {
        QueueSessionEvent(Connecting);
      }
    }

    method LeaveServer()
      modifies `fd, `connectIndex, `state
      ensures Snap() == ErrorExit(old(Snap()))
    {
      fd := -1;
      connectIndex := connectIndex + 1;
      if !Unrecoverable(state) { state := Idle; }
    }

    /** `api_prolog` to `leave_critical` of a request: it is recorded, then queued. */
    method Issue(c: Completion)
      modifies `sentRequests, `outstandingSync, `toSend
      ensures Snap() == Enqueue(Session.AddCompletion(old(Snap()), c), Ask(c.xid, c.id))
      ensures sentRequests == old(sentRequests) + [c] && toSend == old(toSend) + [Ask(c.xid, c.id)]
      ensures Async(Snap()) == old(Async(Snap())) + AsyncOf(c) && Sync(Snap()) == old(Sync(Snap())) + SyncOf(c)
      ensures old(Counted(Snap())) ==> Counted(Snap())
    {
      AddRecorded(Snap(), c);
      AddCompletion(c);
      toSend := toSend + [Ask(c.xid, c.id)];
    }

    /** The connecting part of `zookeeper_interest`, without a connection: past the last address
        it waits and starts over; a refusal is handled as any lost connection. */
    method Reconnect(outcome: ConnectOutcome, socket: nat) returns (rc: int)
      requires fd == -1 && connectIndex <= addrsCount
      modifies this
      ensures old(connectIndex) == addrsCount ==> rc == ZOK && Snap() == old(Snap()).(connectIndex := 0)
      ensures old(connectIndex) < addrsCount ==>
                var h := Attempt(old(Snap()), outcome);
                if outcome == Refused then rc == ZCONNECTIONLOSS && Snap() == ErrorSettled(h, threaded, ZCONNECTIONLOSS)
                else rc == ZOK && Snap() == h
      ensures old(connectIndex) < addrsCount ==>
                match outcome
                case Done => fd == socket && state == Associating
                case InProgress => fd == socket && state == Connecting
                case Refused =>
                  && fd == -1 && connectIndex == old(connectIndex) + 1
                  && state == if old(state) in {Expired, AuthFailed} then old(state) else Idle
    {
      hide ErrorSettled, Balanced;
      rc := ZOK;
      if connectIndex == addrsCount {
        connectIndex := 0;
      } else {
        fd := socket;
        match outcome {
          case Done => state := Associating;
          case InProgress => state := Connecting;
          case Refused =>
            HandleError(ZCONNECTIONLOSS);
            rc := ZCONNECTIONLOSS;
        }
      }
    }

    /** The end of the handshake in `check_events`: the id must be the one of the session, if
        it has one; then the rearming packet is put in front of the queue, and the
        authentication in front of that. */
    method FinishHandshake(reply: seq<byte>, auths: nat) returns (rc: int)
      requires |reply| == Codec.PRIMER_SIZE
      modifies this
      ensures match Handshake(old(Snap()), GrantOf(Codec.PrimeFields(reply)), auths)
              case Broken(h, reason) => rc == reason && Snap() == ErrorSettled(h, threaded, reason)
              case Fine(h) => rc == ZOK && Snap() == Settled(h, threaded)
              case Aborted => false
      ensures Balanced(old(Snap()), Snap())
      ensures var p := Codec.PrimeFields(reply);
              && rc in {ZOK, ZSESSIONEXPIRED}
              && (rc == ZSESSIONEXPIRED <==> old(clientId) != 0 && old(clientId) != p.sessionId)
              && (rc == ZOK ==> clientId == p.sessionId && recvTimeout == p.timeOut && passwd == p.passwd)
      ensures rc == ZOK ==>
                && state == Connected && fd == old(fd)
                && toSend == Auths(auths) + [Rearm(lastZxid, watches)] + old(toSend)
                && sentRequests == old(sentRequests) && notified == old(notified)
                && fired + completionsToProcess == old(fired + completionsToProcess) +
                     [Noticed(SESSION_EVENT, Connected, [], Collected(watches, global, SESSION_EVENT, []))]
      ensures rc != ZOK ==>
                && state == Expired && fd == -1 && sentRequests == [] && toSend == []
                && clientId == old(clientId) && recvTimeout == old(recvTimeout) && passwd == old(passwd)
                && notified == old(notified) + Woken(old(sentRequests), ZSESSIONEXPIRED)
                && fired + completionsToProcess == old(fired + completionsToProcess) +
                     [Noticed(SESSION_EVENT, Expired, [], Collected(watches, global, SESSION_EVENT, []))] +
                     CalledBack(old(sentRequests), ZSESSIONEXPIRED)
    {
      hide ErrorSettled, Settled, Balanced, Codec.PrimeFields, SessionEvent, Collected, Woken, CalledBack;
      var primer := Codec.DeserializePrimeResponse(reply);
      var grant := GrantOf(primer);
      ghost var before, p := Snap(), Handshake(Snap(), grant, auths);
      HandshakeBalanced(before, grant, auths);
      if clientId != 0 && clientId != grant.id {
        state := Expired;
        ErrorSettledBalanced(p.h, threaded, ZSESSIONEXPIRED);
        Transitive(before, p.h, ErrorSettled(p.h, threaded, ZSESSIONEXPIRED));
        HandleError(ZSESSIONEXPIRED);
        rc := ZSESSIONEXPIRED;
      } else {
        SettledBalanced(p.h, threaded);
        Transitive(before, p.h, Settled(p.h, threaded));
        Welcome(grant, auths);
        rc := ZOK;
      }
    }

    /** The session is the server's, or new. */
    method Welcome(grant: Grant, auths: nat)
      requires clientId == 0 || clientId == grant.id
      modifies `recvTimeout, `clientId, `passwd, `state, `toSend, `completionsToProcess, `fired
      ensures Snap() == Settled(Handshake(old(Snap()), grant, auths).h, threaded)
      ensures clientId == grant.id && recvTimeout == grant.timeOut && passwd == grant.passwd
      ensures state == Connected && toSend == Auths(auths) + [Rearm(lastZxid, watches)] + old(toSend)
      ensures fired + completionsToProcess == old(fired + completionsToProcess) +
                [Noticed(SESSION_EVENT, Connected, [], Collected(watches, global, SESSION_EVENT, []))]
    {
      hide Settled, Collected, Auths;
      Adopt(grant, auths);
      SettledTells(SessionEvent(Snap(), Connected), threaded);
      QueueSessionEvent(Connected);
    }

    method Adopt(grant: Grant, auths: nat)
      modifies `recvTimeout, `clientId, `passwd, `state, `toSend
      ensures Snap() == Adopted(old(Snap()), grant, auths)
      ensures clientId == grant.id && recvTimeout == grant.timeOut && passwd == grant.passwd
    {
      hide Auths;
      recvTimeout := grant.timeOut;
      clientId := grant.id;
      passwd := grant.passwd;
      state := Connected;
      toSend := [Rearm(lastZxid, watches)] + toSend;
      SendAuths(auths);
      Associative(Auths(auths), [Rearm(lastZxid, watches)], old(toSend));
    }

    /** `send_auth_info` */
    method SendAuths(auths: nat)
      modifies `toSend
      ensures toSend == Auths(auths) + old(toSend)
    {
      var k := 0;
      while k < auths
        invariant k <= auths && toSend == Auths(k) + old(toSend)
      {
        toSend := [Auth] + toSend;
        k := k + 1;
      }
    }

    /** One turn of the loop of `zookeeper_process` */
    method ProcessOne(hdr: Reply) returns (verdict: Verdict)
      modifies this
      ensures Agrees(ProcessReply(old(Snap()), hdr), verdict, Snap())
      ensures verdict != Abort ==> lastZxid == if hdr.zxid > 0 then hdr.zxid else old(lastZxid)
      ensures hdr.xid == WATCHER_EVENT_XID ==>
                && verdict == Proceed && sentRequests == old(sentRequests) && notified == old(notified)
                && completionsToProcess == old(completionsToProcess) +
                     [Noticed(hdr.event, hdr.state, hdr.path, Collected(old(watches), global, hdr.event, hdr.path))]
      ensures hdr.xid == SET_WATCHES_XID ==> verdict == Proceed
      ensures hdr.xid == AUTH_XID ==>
                if hdr.err == 0 then verdict == Proceed && state == old(state)
                else verdict == Fault(ZAUTHFAILED) && state == AuthFailed
      ensures hdr.xid in {SET_WATCHES_XID, AUTH_XID} ==>
                && sentRequests == old(sentRequests) && notified == old(notified)
                && completionsToProcess == old(completionsToProcess)
      ensures hdr.xid !in {WATCHER_EVENT_XID, SET_WATCHES_XID, AUTH_XID} ==>
                if old(sentRequests) == [] then verdict == Abort
                else if old(sentRequests)[0].xid != hdr.xid then
                  && verdict == Fault(ZRUNTIMEINCONSISTENCY)
                  && sentRequests == old(sentRequests) && notified == old(notified)
                else
                  var c := old(sentRequests)[0];
                  && verdict == Proceed && sentRequests == old(sentRequests)[1..]
                  && notified == old(notified) + (if c.sync then [Finished(c, hdr.err)] else [])
                  && completionsToProcess == old(completionsToProcess) +
                       (if c.sync || c.xid == PING_XID then [] else [Finished(c, hdr.err)])
                  && outstandingSync == old(outstandingSync) - (if c.sync then 1 else 0)
    {
      hide ProcessReply, Collected;
      ZxidFirst(Snap(), hdr);
      if hdr.zxid > 0 { lastZxid := hdr.zxid; }
      if hdr.xid == WATCHER_EVENT_XID {
        verdict := Notify(hdr);
      } else if hdr.xid == SET_WATCHES_XID {
        OtherReplies(Snap(), hdr);
        verdict := Proceed;
      } else if hdr.xid == AUTH_XID {
        OtherReplies(Snap(), hdr);
        if hdr.err != 0 { state := AuthFailed; }
        verdict := if hdr.err != 0 then Fault(ZAUTHFAILED) else Proceed;
      } else {
        verdict := Match(hdr);
      }
    }

    /** The branch for an event */
    method Notify(hdr: Reply) returns (verdict: Verdict)
      requires hdr.xid == WATCHER_EVENT_XID && (hdr.zxid <= 0 || lastZxid == hdr.zxid)
      modifies `completionsToProcess, `watches
      ensures Agrees(ProcessReply(old(Snap()), hdr), verdict, Snap()) && verdict == Proceed
      ensures completionsToProcess == old(completionsToProcess) +
                [Noticed(hdr.event, hdr.state, hdr.path, Collected(old(watches), global, hdr.event, hdr.path))]
    {
      hide Collected, Fired;
      var watchers := Collected(watches, global, hdr.event, hdr.path);
      if hdr.event != SESSION_EVENT {
        watches := Fired(watches, hdr.event, hdr.path);
      }
      completionsToProcess := completionsToProcess + [Noticed(hdr.event, hdr.state, hdr.path, watchers)];
      verdict := Proceed;
    }

    /** The branch for an ordinary reply */
    method Match(hdr: Reply) returns (verdict: Verdict)
      requires Ordinary(hdr.xid) && (hdr.zxid <= 0 || lastZxid == hdr.zxid)
      modifies `sentRequests, `watches, `completionsToProcess, `notified, `outstandingSync
      ensures Agrees(ProcessReply(old(Snap()), hdr), verdict, Snap())
      ensures if old(sentRequests) == [] then verdict == Abort
              else if old(sentRequests)[0].xid != hdr.xid then
                && verdict == Fault(ZRUNTIMEINCONSISTENCY)
                && sentRequests == old(sentRequests) && notified == old(notified)
              else
                var c := old(sentRequests)[0];
                && verdict == Proceed && sentRequests == old(sentRequests)[1..]
                && notified == old(notified) + (if c.sync then [Finished(c, hdr.err)] else [])
                && completionsToProcess == old(completionsToProcess) +
                     (if c.sync || c.xid == PING_XID then [] else [Finished(c, hdr.err)])
                && outstandingSync == old(outstandingSync) - (if c.sync then 1 else 0)
    {
      hide Finish;
      if sentRequests == [] { return Abort; }
      var cptr := sentRequests[0];
      sentRequests := sentRequests[1..];
      if cptr.xid != hdr.xid {
        sentRequests := [cptr] + sentRequests;
        return Fault(ZRUNTIMEINCONSISTENCY);
      }
      Complete(cptr, hdr);
      verdict := Proceed;
    }

    /** `activateWatcher`, and the finishing of the request */
    method Complete(cptr: Completion, hdr: Reply)
      modifies `watches, `completionsToProcess, `notified, `outstandingSync
      ensures Snap() == Finish(old(Snap()), cptr, hdr)
      ensures notified == old(notified) + (if cptr.sync then [Finished(cptr, hdr.err)] else [])
      ensures completionsToProcess == old(completionsToProcess) +
                (if cptr.sync || hdr.xid == PING_XID then [] else [Finished(cptr, hdr.err)])
      ensures outstandingSync == old(outstandingSync) - (if cptr.sync then 1 else 0)
    {
      hide Activated;
      if cptr.watch.Some? {
        watches := Activated(watches, cptr.watch.value, hdr.err);
      }
      if !cptr.sync {
        if hdr.xid != PING_XID {
          completionsToProcess := completionsToProcess + [Finished(cptr, hdr.err)];
        }
      } else {
        notified := notified + [Finished(cptr, hdr.err)];
        outstandingSync := outstandingSync - 1;
      }
    }

    /** `zookeeper_process`, after `check_events`.  Whatever replies are there, no request is
        lost over them, and the counter of synchronous ones stays exact. */
    method Process() returns (rc: int, aborted: bool)
      modifies this
      ensures ProcessAll(old(Snap()), threaded) == if aborted then None else Some((Snap(), rc))
      ensures !aborted ==> Balanced(old(Snap()), Snap())
      ensures !aborted ==> toProcess == [] && rc in {ZOK, ZAUTHFAILED, ZRUNTIMEINCONSISTENCY}
      ensures !aborted ==> notified == old(notified) + WokenBy(old(toProcess), old(sentRequests))
      ensures !aborted ==> Finals(Snap()) == Finals(old(Snap())) + CalledBackBy(old(toProcess), old(sentRequests))
      ensures !aborted && rc == ZOK ==> state == old(state) && connectIndex == old(connectIndex)
      ensures !aborted && rc != ZOK ==> fd == -1 && sentRequests == [] && connectIndex == old(connectIndex) + 1
      ensures rc == ZAUTHFAILED ==> state == AuthFailed
      ensures !aborted ==> clientId == old(clientId) && recvTimeout == old(recvTimeout) && passwd == old(passwd)
    {
      hide Session.CleanupBufs, Balanced, Settled, SessionEvent, ErrorSettled, Finals, WokenBy, CalledBackBy;
      hide Woken, CalledBack, Announced, Zxid, Collected, ProcessReply;
      if ProcessAll(Snap(), threaded).Some? { LoopTells(Snap(), threaded); }
      ProcessAllBalanced(Snap(), threaded);
      while toProcess != []
        invariant ProcessAll(Snap(), threaded) == ProcessAll(old(Snap()), threaded)
        decreases |toProcess|
      {
        var bptr := toProcess[0];
        ghost var before := Snap();
        toProcess := toProcess[1..];
        var verdict := ProcessOne(bptr);
        match verdict {
          case Proceed => ProcessKeeps(before.(toProcess := before.toProcess[1..]), bptr);
          case Fault(reason) =>
            HandleError(reason);
            return reason, false;
          case Abort => return ZOK, true;
        }
      }
      Settle();
      rc, aborted := ZOK, false;
    }
  }

  /** How one turn of the loop ends: on to the next reply, with an error to handle, or in the
      failed assertion. */
  datatype Verdict = Proceed | Fault(reason: int) | Abort

  ghost predicate Agrees(p: Processed, verdict: Verdict, h: Handle) {
    match verdict
    case Proceed => p == Fine(h)
    case Fault(reason) => p == Broken(h, reason)
    case Abort => p == Aborted
  }

  /** The whole loop: the handle after it and the return code, unless the assertion failed. */
  function ProcessAll(h: Handle, threaded: bool): Option<(Handle, int)>
    decreases |h.toProcess|
  {
    if h.toProcess == [] then Some((Settled(h, threaded), ZOK)) else
      var h, r := h.(toProcess := h.toProcess[1..]), h.toProcess[0];
      match ProcessReply(h, r)
      case Fine(h') => ProcessKeeps(h, r); ProcessAll(h', threaded)
      case Broken(h', reason) => Some((ErrorSettled(h', threaded, reason), reason))
      case Aborted => None
  }

  lemma {:induction false} ProcessAllBalanced(h: Handle, threaded: bool)
    ensures ProcessAll(h, threaded).Some? ==> Balanced(h, ProcessAll(h, threaded).value.0)
    decreases |h.toProcess|
  {
    hide ErrorSettled, Settled;
    if h.toProcess == [] {
      SettledBalanced(h, threaded);
    } else {
      var rest, r := h.(toProcess := h.toProcess[1..]), h.toProcess[0];
      ReplyBalanced(rest, r);
      match ProcessReply(rest, r) {
        case Fine(h') =>
          ProcessKeeps(rest, r);
          ProcessAllBalanced(h', threaded);
        case Broken(h', reason) => ErrorSettledBalanced(h', threaded, reason);
        case Aborted =>
      }
    }
  }

  lemma ErrorFinals(h: Handle, threaded: bool, reason: int)
    ensures Finals(ErrorSettled(h, threaded, reason)) == Finals(h) + CalledBack(h.sent, reason)
  {
    hide ErrorSettled, Gather, Announced, FinalOf;
    ErrorTells(h, threaded, reason);
    FinalsWhole(h);
    FinalsWhole(ErrorSettled(h, threaded, reason));
    AnnouncedSilent(h);
    CalledBackFinal(h.sent, reason);
    var all, news := h.fired + h.completions, Announced(h);
    GatherConcat(all, news, FinalOf);
    GatherConcat(all + news, CalledBack(h.sent, reason), FinalOf);
    assert Gather(all, FinalOf) + [] == Gather(all, FinalOf);
  }

  lemma SettledFinals(h: Handle, threaded: bool)
    ensures Finals(Settled(h, threaded)) == Finals(h)
  {
    hide Settled;
    SettledTells(h, threaded);
    FinalsWhole(h);
    FinalsWhole(Settled(h, threaded));
  }

  lemma NothingTaken(h: Handle)
    ensures h.notified + WokenBy([], h.sent) == h.notified && Finals(h) + CalledBackBy([], h.sent) == Finals(h)
  {
  }

  /** What the whole loop comes to: every reply is taken; every request that was answered has
      ended with the code of its reply, and, if there was an error, all others with its
      reason. */
  lemma {:induction false} LoopTells(h: Handle, threaded: bool)
    requires ProcessAll(h, threaded).Some?
    ensures var (h', rc) := ProcessAll(h, threaded).value;
            && h'.toProcess == [] && rc in {ZOK, ZAUTHFAILED, ZRUNTIMEINCONSISTENCY}
            && h'.notified == h.notified + WokenBy(h.toProcess, h.sent)
            && Finals(h') == Finals(h) + CalledBackBy(h.toProcess, h.sent)
            && (rc == ZOK ==> h'.state == h.state && h'.open == h.open && h'.connectIndex == h.connectIndex)
            && (rc != ZOK ==> !h'.open && h'.sent == [] && h'.toSend == [] && h'.connectIndex == h.connectIndex + 1)
            && (rc == ZAUTHFAILED ==> h'.state == AuthFailed)
            && h'.clientId == h.clientId && h'.recvTimeout == h.recvTimeout && h'.passwd == h.passwd
    decreases |h.toProcess|
  {
    hide ErrorSettled, Settled, ProcessReply, Woken, CalledBack, WokenBy, CalledBackBy, Gather, Announced;
    if h.toProcess == [] {
      SettledTells(h, threaded);
      SettledFinals(h, threaded);
      NothingTaken(h);
    } else {
      var rest, r := h.(toProcess := h.toProcess[1..]), h.toProcess[0];
      TurnTells(rest, r, rest.toProcess);
      assert [r] + rest.toProcess == h.toProcess;
      match ProcessReply(rest, r) {
        case Fine(h') =>
          ProcessKeeps(rest, r);
          LoopTells(h', threaded);
        case Broken(h', reason) =>
          ErrorTells(h', threaded, reason);
          ErrorFinals(h', threaded, reason);
      }
    }
  }

  /** Taking the replies in turn, the first ordinary one that does not answer the request it
      meets is met by another request. */
  predicate Disordered(replies: seq<Reply>, sent: seq<Completion>)
    decreases |replies|
  {
    replies != [] &&
    var r := replies[0];
    if !Ordinary(r.xid) then (r.xid == AUTH_XID ==> r.err == 0) && Disordered(replies[1..], sent)
    else sent != [] && (sent[0].xid == r.xid ==> Disordered(replies[1..], sent[1..]))
  }

  /** When `zookeeper_process` takes the return that misses `api_epilog`. */
  lemma {:induction false} DisorderedReturn(h: Handle, threaded: bool)
    ensures ProcessAll(h, threaded).Some? && ProcessAll(h, threaded).value.1 == ZRUNTIMEINCONSISTENCY <==>
              Disordered(h.toProcess, h.sent)
    decreases |h.toProcess|
  {
    hide ErrorSettled, Settled, Collected, Finish;
    if h.toProcess != [] {
      var rest, r := h.(toProcess := h.toProcess[1..]), h.toProcess[0];
      if ProcessReply(rest, r).Fine? {
        ProcessKeeps(rest, r);
        DisorderedReturn(ProcessReply(rest, r).h, threaded);
      }
    }
  }
}

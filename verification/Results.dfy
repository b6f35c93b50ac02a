/** With which result every request ends: the code of the reply that answers it, or the reason
    for which its connection is given up. */
module Results {
  import opened Codes
  import opened Common
  import opened WatchRegistry
  import opened Session

  /** The synchronous callers among these requests, in order, each with the code. */
  function Woken(cs: seq<Completion>, rc: int): seq<Ready> {
    if cs == [] then []
    else Woken(Front(cs), rc) + if Last(cs).sync then [Finished(Last(cs), rc)] else []
  }

  /** The asynchronous requests among these that are not pings, in order, each with the code. */
  function CalledBack(cs: seq<Completion>, rc: int): seq<Ready> {
    if cs == [] then []
    else CalledBack(Front(cs), rc) + if Last(cs).sync || Last(cs).xid == PING_XID then [] else [Finished(Last(cs), rc)]
  }

  lemma {:induction false} AbandonAllTells(h: Handle, cs: seq<Completion>, n: nat, reason: int)
    requires n <= |cs|
    ensures AbandonAll(h, cs, n, reason) ==
              h.(notified := h.notified + Woken(cs[..n], reason),
                 completions := h.completions + CalledBack(cs[..n], reason),
                 outstandingSync := h.outstandingSync - |Woken(cs[..n], reason)|)
  {
    if n > 0 {
      AbandonAllTells(h, cs, n - 1, reason);
      assert Front(cs[..n]) == cs[..n - 1] && Last(cs[..n]) == cs[n - 1];
    }
  }

  /** A clean-up ends every outstanding request with its reason, and nothing else. */
  lemma CleanupTells(h: Handle, reason: int)
    ensures CleanupBufs(h, reason) ==
              h.(toSend := [], toProcess := [], sent := [],
                 notified := h.notified + Woken(h.sent, reason),
                 completions := h.completions + CalledBack(h.sent, reason),
                 outstandingSync := h.outstandingSync - |Woken(h.sent, reason)|)
  {
    AbandonAllTells(h.(toSend := [], toProcess := [], sent := []), h.sent, |h.sent|, reason);
    assert h.sent[..|h.sent|] == h.sent;
  }

  /** The last zxid is that of the reply, unless it carries none. */
  function Zxid(h: Handle, r: Reply): int { if r.zxid > 0 then r.zxid else h.lastZxid }

  lemma ZxidFirst(h: Handle, r: Reply)
    ensures ProcessReply(h, r) == ProcessReply(h.(lastZxid := Zxid(h, r)), r)
  {
    hide Collected, Fired, Finish;
  }

  /** A reply that meets its request ends that one with its code: the caller is woken, or the
      callback made ready, or, for a ping, neither. */
  lemma ReplyTells(h: Handle, r: Reply)
    requires r.xid !in {WATCHER_EVENT_XID, SET_WATCHES_XID, AUTH_XID} && h.sent != [] && h.sent[0].xid == r.xid
    ensures ProcessReply(h, r).Fine?
    ensures var c, h' := h.sent[0], ProcessReply(h, r).h;
            && h'.notified == h.notified + (if c.sync then [Finished(c, r.err)] else [])
            && h'.completions == h.completions + (if c.sync || c.xid == PING_XID then [] else [Finished(c, r.err)])
            && h'.outstandingSync == h.outstandingSync - (if c.sync then 1 else 0)
            && h' == h.(sent := h.sent[1..], notified := h'.notified, completions := h'.completions,
                        watches := h'.watches, outstandingSync := h'.outstandingSync, lastZxid := Zxid(h, r))
  {
    hide Activated;
    assert h.notified + [] == h.notified && h.completions + [] == h.completions;
  }

  /** An event is queued for the watchers it goes to. */
  lemma EventTells(h: Handle, r: Reply)
    requires r.xid == WATCHER_EVENT_XID
    ensures ProcessReply(h, r).Fine?
    ensures var h' := ProcessReply(h, r).h;
            h' == h.(completions := h.completions + [Noticed(r.event, r.state, r.path,
                                                            Collected(h.watches, h.global, r.event, r.path))],
                     watches := h'.watches, lastZxid := Zxid(h, r))
  {
    hide Collected, Fired;
  }

  /** Every other reply: the answers to the rearming and authentication packets; a reply to
      another request than the first one outstanding; a reply when there is none. */
  lemma OtherReplies(h: Handle, r: Reply)
    requires r.xid != WATCHER_EVENT_XID
    ensures var z, p := h.(lastZxid := Zxid(h, r)), ProcessReply(h, r);
            && (r.xid == SET_WATCHES_XID || (r.xid == AUTH_XID && r.err == 0) ==> p == Fine(z))
            && (r.xid == AUTH_XID && r.err != 0 ==> p == Broken(z.(state := AuthFailed), ZAUTHFAILED))
            && (r.xid !in {SET_WATCHES_XID, AUTH_XID} && h.sent == [] ==> p == Aborted)
            && (r.xid !in {SET_WATCHES_XID, AUTH_XID} && h.sent != [] && h.sent[0].xid != r.xid ==>
                  p == Broken(z, ZRUNTIMEINCONSISTENCY))
  {
  }

  // ---------------------------------------------------------------- events about the session

  /** What is queued when a connection in this state is given up: the news, to the default
      watcher and everyone stored. */
  function Announced(h: Handle): seq<Ready> {
    var all := Collected(h.watches, h.global, SESSION_EVENT, []);
    match h.state
    case Connected => [Noticed(SESSION_EVENT, Connecting, [], all)]
    case Expired => [Noticed(SESSION_EVENT, Expired, [], all)]
    case AuthFailed => [Noticed(SESSION_EVENT, AuthFailed, [], all)]
    case _ => []
  }

  lemma EntryTells(h: Handle)
    ensures ErrorEntry(h) == h.(completions := h.completions + Announced(h))
  {
    hide Collected;
    assert h.completions + [] == h.completions;
  }

  // ---------------------------------------------------------------- the upcalls of requests

  function FinalOf(r: Ready): seq<Ready> { if r.Finished? then [r] else [] }

  /** The callbacks of requests, those made and those to be made, in order, with their codes. */
  function Finals(h: Handle): seq<Ready> { Gather(h.fired, FinalOf) + Gather(h.completions, FinalOf) }

  /** Taking the replies in turn: the synchronous callers woken, each with the code of its reply;
      an error wakes all that are left with its reason, and ends it. */
  function WokenBy(replies: seq<Reply>, sent: seq<Completion>): seq<Ready>
    decreases |replies|
  {
    if replies == [] then [] else
      var r, rest := replies[0], replies[1..];
      if r.xid == AUTH_XID && r.err != 0 then Woken(sent, ZAUTHFAILED)
      else if r.xid in {WATCHER_EVENT_XID, SET_WATCHES_XID, AUTH_XID} then WokenBy(rest, sent)
      else if sent == [] then []
      else if sent[0].xid != r.xid then Woken(sent, ZRUNTIMEINCONSISTENCY)
      else (if sent[0].sync then [Finished(sent[0], r.err)] else []) + WokenBy(rest, sent[1..])
  }

  /** The same for asynchronous requests. */
  function CalledBackBy(replies: seq<Reply>, sent: seq<Completion>): seq<Ready>
    decreases |replies|
  {
    if replies == [] then [] else
      var r, rest := replies[0], replies[1..];
      if r.xid == AUTH_XID && r.err != 0 then CalledBack(sent, ZAUTHFAILED)
      else if r.xid in {WATCHER_EVENT_XID, SET_WATCHES_XID, AUTH_XID} then CalledBackBy(rest, sent)
      else if sent == [] then []
      else if sent[0].xid != r.xid then CalledBack(sent, ZRUNTIMEINCONSISTENCY)
      else (if sent[0].sync || sent[0].xid == PING_XID then [] else [Finished(sent[0], r.err)])
           + CalledBackBy(rest, sent[1..])
  }

  lemma {:induction false} CalledBackFinal(cs: seq<Completion>, rc: int)
    ensures Gather(CalledBack(cs, rc), FinalOf) == CalledBack(cs, rc)
  {
    if cs != [] {
      CalledBackFinal(Front(cs), rc);
      var c := Last(cs);
      assert CalledBack(Front(cs), rc) + [] == CalledBack(Front(cs), rc);
      if !c.sync && c.xid != PING_XID { GatherSnoc(CalledBack(Front(cs), rc), Finished(c, rc), FinalOf); }
    }
  }

  lemma AnnouncedSilent(h: Handle)
    ensures Gather(Announced(h), FinalOf) == []
  {
    hide Collected;
    if Announced(h) != [] { GatherOne(Announced(h)[0], FinalOf); }
  }

  /** Finals depend on the upcalls as a whole, wherever the line between made and ready is. */
  lemma FinalsWhole(h: Handle)
    ensures Finals(h) == Gather(h.fired + h.completions, FinalOf)
  {
    GatherConcat(h.fired, h.completions, FinalOf);
  }

  /** A reply adds at most the final of the request it meets. */
  lemma ReplyFinals(h: Handle, r: Reply)
    ensures var p := ProcessReply(h, r);
            !p.Aborted? ==>
              Finals(p.h) == Finals(h) +
                if r.xid !in {WATCHER_EVENT_XID, SET_WATCHES_XID, AUTH_XID} && h.sent != [] && h.sent[0].xid == r.xid
                   && !h.sent[0].sync && r.xid != PING_XID then [Finished(h.sent[0], r.err)] else []
  {
    hide ProcessReply, Collected;
    assert Finals(h) + [] == Finals(h);
    if r.xid == WATCHER_EVENT_XID {
      EventTells(h, r);
      GatherSnoc(h.completions, Last(ProcessReply(h, r).h.completions), FinalOf);
    } else if r.xid in {SET_WATCHES_XID, AUTH_XID} || h.sent == [] || h.sent[0].xid != r.xid {
      OtherReplies(h, r);
    } else {
      ReplyTells(h, r);
      GatherSnoc(h.completions, Finished(h.sent[0], r.err), FinalOf);
      Associative(Gather(h.fired, FinalOf), Gather(h.completions, FinalOf), [Finished(h.sent[0], r.err)]);
      assert h.completions + [] == h.completions;
    }
  }

  /** One turn of the loop: what the reply `r` ends and what the replies after it end is what
      they end together; an error ends all that is left. */
  lemma TurnTells(h: Handle, r: Reply, rest: seq<Reply>)
    ensures var p, all := ProcessReply(h, r), [r] + rest;
            && (p.Fine? ==>
                  && p.h.notified + WokenBy(rest, p.h.sent) == h.notified + WokenBy(all, h.sent)
                  && Finals(p.h) + CalledBackBy(rest, p.h.sent) == Finals(h) + CalledBackBy(all, h.sent)
                  && p.h.state == h.state && p.h.open == h.open && p.h.connectIndex == h.connectIndex)
            && (p.Broken? ==>
                  && WokenBy(all, h.sent) == Woken(h.sent, p.reason)
                  && CalledBackBy(all, h.sent) == CalledBack(h.sent, p.reason)
                  && p.h.notified == h.notified && Finals(p.h) == Finals(h)
                  && p.h.sent == h.sent && p.h.connectIndex == h.connectIndex
                  && p.reason in {ZAUTHFAILED, ZRUNTIMEINCONSISTENCY}
                  && p.h.state == if p.reason == ZAUTHFAILED then AuthFailed else h.state)
            && (!p.Aborted? ==>
                  p.h.clientId == h.clientId && p.h.recvTimeout == h.recvTimeout && p.h.passwd == h.passwd)
  {
    hide ProcessReply, Collected, Finals, Woken, CalledBack;
    var all := [r] + rest;
    assert all[0] == r && all[1..] == rest;
    ReplyFinals(h, r);
    assert Finals(h) + [] == Finals(h) && h.notified + [] == h.notified;
    if r.xid == WATCHER_EVENT_XID {
      EventTells(h, r);
    } else if r.xid in {SET_WATCHES_XID, AUTH_XID} || h.sent == [] || h.sent[0].xid != r.xid {
      OtherReplies(h, r);
    } else {
      ReplyTells(h, r);
      var end, sent := [Finished(h.sent[0], r.err)], h.sent[1..];
      Associative(h.notified, end, WokenBy(rest, sent));
      Associative(Finals(h), end, CalledBackBy(rest, sent));
      assert [] + WokenBy(rest, sent) == WokenBy(rest, sent);
      assert [] + CalledBackBy(rest, sent) == CalledBackBy(rest, sent);
    }
  }
}

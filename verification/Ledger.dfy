/** No request is lost, answered twice or overtaken, whatever the server sends. */
module Ledger {
  import opened Codes
  import opened Common
  import opened WatchRegistry
  import opened Session
  import opened Results

  function AsyncOf(c: Completion): seq<Completion> { if !c.sync && c.xid != PING_XID then [c] else [] }

  function SyncOf(c: Completion): seq<Completion> { if c.sync then [c] else [] }

  function DoneOf(r: Ready): seq<Completion> { if r.Finished? then [r.c] else [] }

  /** The asynchronous requests, in the order of their callbacks: made, ready, outstanding. */
  function Async(h: Handle): seq<Completion> {
    Gather(h.fired, DoneOf) + (Gather(h.completions, DoneOf) + Gather(h.sent, AsyncOf))
  }

  /** The synchronous requests, in the order their callers wake. */
  function Sync(h: Handle): seq<Completion> {
    Gather(h.notified, DoneOf) + Gather(h.sent, SyncOf)
  }

  predicate Counted(h: Handle) { h.outstandingSync == |Gather(h.sent, SyncOf)| }

  /** The same requests are accounted for, in the same order. */
  predicate Balanced(before: Handle, after: Handle) {
    && Async(after) == Async(before) && Sync(after) == Sync(before)
    && (Counted(before) ==> Counted(after))
  }

  /** Abandoning one request moves it from the outstanding ones to the finished ones. */
  lemma AbandonMoves(h: Handle, c: Completion, reason: int)
    ensures var h' := Abandon(h, c, reason);
            && Gather(h'.completions, DoneOf) == Gather(h.completions, DoneOf) + AsyncOf(c)
            && Gather(h'.notified, DoneOf) == Gather(h.notified, DoneOf) + SyncOf(c)
            && h'.fired == h.fired && h'.sent == h.sent
            && h'.outstandingSync == h.outstandingSync - |SyncOf(c)|
  {
    GatherSnoc(h.completions, Finished(c, reason), DoneOf);
    GatherSnoc(h.notified, Finished(c, reason), DoneOf);
  }

  lemma {:induction false} AbandonAllMoves(h: Handle, cs: seq<Completion>, n: nat, reason: int)
    requires n <= |cs|
    ensures var h' := AbandonAll(h, cs, n, reason);
            && Gather(h'.completions, DoneOf) == Gather(h.completions, DoneOf) + Gather(cs[..n], AsyncOf)
            && Gather(h'.notified, DoneOf) == Gather(h.notified, DoneOf) + Gather(cs[..n], SyncOf)
            && h'.fired == h.fired && h'.sent == h.sent
            && h'.outstandingSync == h.outstandingSync - |Gather(cs[..n], SyncOf)|
  {
    hide Gather, DoneOf, AsyncOf, SyncOf, Abandon;
    if n == 0 {
      assert cs[..0] == [];
      NothingGathered<Completion, Completion>(AsyncOf);
      NothingGathered<Completion, Completion>(SyncOf);
    } else {
      AbandonAllMoves(h, cs, n - 1, reason);
      AbandonMoves(AbandonAll(h, cs, n - 1, reason), cs[n - 1], reason);
      assert cs[..n] == cs[..n - 1] + [cs[n - 1]];
      GatherSnoc(cs[..n - 1], cs[n - 1], AsyncOf);
      GatherSnoc(cs[..n - 1], cs[n - 1], SyncOf);
      Associative(Gather(h.completions, DoneOf), Gather(cs[..n - 1], AsyncOf), AsyncOf(cs[n - 1]));
      Associative(Gather(h.notified, DoneOf), Gather(cs[..n - 1], SyncOf), SyncOf(cs[n - 1]));
    }
  }

  /** A clean-up touches no more than the queues, the lists of finished requests and the
      counter. */
  lemma CleanupKeeps(h: Handle, reason: int)
    ensures var h' := CleanupBufs(h, reason);
            h' == h.(toSend := [], toProcess := [], sent := [], completions := h'.completions,
                     notified := h'.notified, outstandingSync := h'.outstandingSync)
  {
    CleanupTells(h, reason);
  }

  /** A disconnect finishes every outstanding request, in order, and loses none. */
  lemma CleanupBalanced(h: Handle, reason: int)
    ensures Balanced(h, CleanupBufs(h, reason))
  {
    hide AbandonAll;
    var bare := h.(toSend := [], toProcess := [], sent := []);
    AbandonAllMoves(bare, h.sent, |h.sent|, reason);
    assert h.sent[..|h.sent|] == h.sent;
    var h' := CleanupBufs(h, reason);
    assert h' == AbandonAll(bare, h.sent, |h.sent|, reason);
    assert Gather(h'.sent, AsyncOf) == [] && Gather(h'.sent, SyncOf) == [];
    assert Gather(h'.completions, DoneOf) + [] == Gather(h'.completions, DoneOf);
    assert Gather(h'.notified, DoneOf) + [] == Gather(h'.notified, DoneOf);
  }

  lemma EventBalanced(h: Handle, event: int, state: ConnState, path: Path, ws: set<Watcher>)
    ensures Balanced(h, h.(completions := h.completions + [Noticed(event, state, path, ws)]))
  {
    GatherSnoc(h.completions, Noticed(event, state, path, ws), DoneOf);
    assert Gather(h.completions, DoneOf) + [] == Gather(h.completions, DoneOf);
  }

  lemma HandleErrorBalanced(h: Handle, reason: int)
    ensures Balanced(h, ErrorEntry(h)) && Balanced(h, HandleError(h, reason))
    ensures HandleError(h, reason).sent == []
  {
    var h1 := ErrorEntry(h);
    if h1 != h {
      var news := if Unrecoverable(h.state) then h.state else Connecting;
      EventBalanced(h, SESSION_EVENT, news, [], Collected(h.watches, h.global, SESSION_EVENT, []));
    }
    CleanupBalanced(h1, reason);
    CleanupKeeps(h1, reason);
    hide CleanupBufs;
  }

  lemma RunCompletionBalanced(h: Handle)
    requires h.completions != []
    ensures Balanced(h, RunCompletion(h))
  {
    GatherFirst(h.completions, DoneOf);
    GatherSnoc(h.fired, h.completions[0], DoneOf);
    var made, first := Gather(h.fired, DoneOf), DoneOf(h.completions[0]);
    var ready, out := Gather(h.completions[1..], DoneOf), Gather(h.sent, AsyncOf);
    Associative(first, ready, out);
    Associative(made, first, ready + out);
  }

  /** A matched reply moves the first outstanding request to the finished ones. */
  lemma FinishBalanced(h: Handle, r: Reply)
    requires h.sent != [] && h.sent[0].xid == r.xid
    ensures Balanced(h, Finish(h.(sent := h.sent[1..]), h.sent[0], r))
  {
    var c, rest := h.sent[0], h.(sent := h.sent[1..]);
    var armed := Armed(rest, c, r);
    assert Finish(rest, c, r) == Abandon(armed, c, r.err);
    AbandonMoves(armed, c, r.err);
    GatherFirst(h.sent, AsyncOf);
    GatherFirst(h.sent, SyncOf);
    Associative(Gather(h.completions, DoneOf), AsyncOf(c), Gather(h.sent[1..], AsyncOf));
    Associative(Gather(h.notified, DoneOf), SyncOf(c), Gather(h.sent[1..], SyncOf));
  }

  /** Whatever reply arrives, expected or not, no request is lost over it. */
  lemma ReplyBalanced(h: Handle, r: Reply)
    ensures var p := ProcessReply(h, r); p.Fine? || p.Broken? ==> Balanced(h, p.h)
  {
    var z := if r.zxid > 0 then h.(lastZxid := r.zxid) else h;
    assert Balanced(h, z);
    if r.xid == WATCHER_EVENT_XID {
      EventBalanced(z, r.event, r.state, r.path, Collected(z.watches, z.global, r.event, r.path));
    } else if Ordinary(r.xid) && z.sent != [] && z.sent[0].xid == r.xid {
      FinishBalanced(z, r);
    }
  }

  lemma HandshakeBalanced(h: Handle, grant: Grant, auths: nat)
    ensures Balanced(h, Handshake(h, grant, auths).h)
  {
    if h.clientId == 0 || h.clientId == grant.id {
      EventBalanced(h, SESSION_EVENT, Connected, [], Collected(h.watches, h.global, SESSION_EVENT, []));
    }
  }

  /** A new request joins at the end of its order. */
  lemma AddRecorded(h: Handle, c: Completion)
    ensures Async(AddCompletion(h, c)) == Async(h) + AsyncOf(c)
    ensures Sync(AddCompletion(h, c)) == Sync(h) + SyncOf(c)
    ensures Counted(h) ==> Counted(AddCompletion(h, c))
  {
    GatherSnoc(h.sent, c, AsyncOf);
    GatherSnoc(h.sent, c, SyncOf);
    Associative(Gather(h.completions, DoneOf), Gather(h.sent, AsyncOf), AsyncOf(c));
    Associative(Gather(h.fired, DoneOf), Gather(h.completions, DoneOf) + Gather(h.sent, AsyncOf), AsyncOf(c));
    Associative(Gather(h.notified, DoneOf), Gather(h.sent, SyncOf), SyncOf(c));
  }

  /** What processing a reply leaves alone, and what it takes from the outstanding requests. */
  lemma ProcessKeeps(h: Handle, r: Reply)
    requires ProcessReply(h, r).Fine?
    ensures var h' := ProcessReply(h, r).h;
            && h'.toSend == h.toSend && h'.toProcess == h.toProcess
            && h'.state == h.state && h'.open == h.open && h'.clientId == h.clientId
            && h'.connectIndex == h.connectIndex && h'.addrsCount == h.addrsCount
            && if Ordinary(r.xid) then h.sent != [] && h'.sent == h.sent[1..] else h'.sent == h.sent
  {
  }
}

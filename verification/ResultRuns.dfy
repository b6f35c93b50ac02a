/** Over whole runs: the code with which every request ends, and where it comes from. */
module ResultRuns {
  import opened Codes
  import opened Common
  import opened Session
  import opened Results
  import opened Ledger
  import opened World
  import opened Line

  // ---------------------------------------------------------------- one step

  /** The reply in hand is to the first request outstanding. */
  predicate Meets(w: World) {
    && w.inHand.Some? && w.inHand.value.xid !in {WATCHER_EVENT_XID, SET_WATCHES_XID, AUTH_XID}
    && w.h.sent != [] && w.h.sent[0].xid == w.inHand.value.xid
  }

  /** The synchronous callers a step wakes. */
  function WokenAt(w: World, a: Action): seq<Ready> {
    if a == Process && Meets(w) && w.h.sent[0].sync then [Finished(w.h.sent[0], w.inHand.value.err)]
    else if a == Cleanup && w.phase.Closing? then Woken(w.h.sent, w.phase.reason)
    else []
  }

  /** The callbacks of requests a step makes ready. */
  function CalledBackAt(w: World, a: Action): seq<Ready> {
    if a == Process && Meets(w) && !w.h.sent[0].sync && w.h.sent[0].xid != PING_XID then
      [Finished(w.h.sent[0], w.inHand.value.err)]
    else if a == Cleanup && w.phase.Closing? then CalledBack(w.h.sent, w.phase.reason)
    else []
  }

  lemma SameFinals(h: Handle, h': Handle)
    requires h'.fired + h'.completions == h.fired + h.completions
    ensures Finals(h') == Finals(h)
  {
    FinalsWhole(h);
    FinalsWhole(h');
  }

  lemma NoticeFinals(h: Handle, r: Ready)
    requires r.Noticed?
    ensures Finals(h.(completions := h.completions + [r])) == Finals(h)
  {
    GatherSnoc(h.completions, r, FinalOf);
    assert Gather(h.completions, FinalOf) + [] == Gather(h.completions, FinalOf);
  }

  lemma EntryFinals(h: Handle)
    ensures Finals(ErrorEntry(h)) == Finals(h) && ErrorEntry(h).notified == h.notified
  {
    hide Gather, Announced;
    EntryTells(h);
    AnnouncedSilent(h);
    GatherConcat(h.completions, Announced(h), FinalOf);
    assert Gather(h.completions, FinalOf) + [] == Gather(h.completions, FinalOf);
  }

  /** The handle after the processing of a reply has the results of `ProcessReply`. */
  lemma ProcessEnds(w: World)
    requires Enabled(w, Process)
    ensures var w' := Step(w, Process);
            && w'.h.notified == w.h.notified + WokenAt(w, Process)
            && Finals(w'.h) == Finals(w.h) + CalledBackAt(w, Process)
  {
    hide ProcessReply, ErrorEntry, Finals, WokenAt, CalledBackAt;
    var p := ProcessReply(w.h, w.inHand.value);
    ReplyEnds(w);
    if p.Broken? { EntryFinals(p.h); }
  }

  lemma ReplyEnds(w: World)
    requires w.inHand.Some?
    ensures var p := ProcessReply(w.h, w.inHand.value);
            var h' := if p.Aborted? then w.h else p.h;
            && h'.notified == w.h.notified + WokenAt(w, Process)
            && Finals(h') == Finals(w.h) + CalledBackAt(w, Process)
  {
    hide ProcessReply, Finals;
    var h, r := w.h, w.inHand.value;
    assert h.notified + [] == h.notified && Finals(h) + [] == Finals(h);
    ReplyFinals(h, r);
    if r.xid == WATCHER_EVENT_XID {
      EventTells(h, r);
    } else if Meets(w) {
      ReplyTells(h, r);
    } else {
      OtherReplies(h, r);
    }
  }

  lemma ShakeEnds(w: World, grant: Grant, auths: nat)
    requires Enabled(w, Shake(grant, auths))
    ensures var h' := Step(w, Shake(grant, auths)).h; h'.notified == w.h.notified && Finals(h') == Finals(w.h)
  {
    hide ErrorEntry, Collected, Gather;
    if w.h.clientId != 0 && w.h.clientId != grant.id {
      EntryFinals(w.h.(state := Expired));
    } else {
      var h := Adopted(w.h, grant, auths);
      NoticeFinals(h, Last(SessionEvent(h, Connected).completions));
    }
  }

  lemma ConnectEnds(w: World, outcome: ConnectOutcome)
    requires Enabled(w, Connect(outcome))
    ensures var h' := Step(w, Connect(outcome)).h; h'.notified == w.h.notified && Finals(h') == Finals(w.h)
  {
    hide ErrorEntry, Gather;
    EntryFinals(Attempt(w.h, outcome));
  }

  lemma FailEnds(w: World, reason: int)
    requires Enabled(w, Fail(reason))
    ensures var h' := Step(w, Fail(reason)).h; h'.notified == w.h.notified && Finals(h') == Finals(w.h)
  {
    hide ErrorEntry, Gather;
    EntryFinals(w.h);
  }

  lemma CleanupEnds(w: World)
    requires Enabled(w, Cleanup)
    ensures var h' := Step(w, Cleanup).h;
            && h'.notified == w.h.notified + WokenAt(w, Cleanup)
            && Finals(h') == Finals(w.h) + CalledBackAt(w, Cleanup)
  {
    hide Gather, FinalOf, CleanupBufs;
    var h, reason := w.h, w.phase.reason;
    CleanupTells(h, reason);
    CalledBackFinal(h.sent, reason);
    GatherConcat(h.completions, CalledBack(h.sent, reason), FinalOf);
    Associative(Gather(h.fired, FinalOf), Gather(h.completions, FinalOf), CalledBack(h.sent, reason));
  }

  lemma OtherEnds(w: World, a: Action)
    requires Enabled(w, a) && !a.Process? && !a.Fail? && !a.Connect? && !a.Shake? && !a.Cleanup? && !a.RunCallback?
    ensures Step(w, a).h.notified == w.h.notified && Finals(Step(w, a).h) == Finals(w.h)
  {
    SameFinals(w.h, Step(w, a).h);
  }

  lemma CallbackEnds(w: World)
    requires Enabled(w, RunCallback)
    ensures var h' := Step(w, RunCallback).h; h'.notified == w.h.notified && Finals(h') == Finals(w.h)
  {
    var h := w.h;
    assert h.completions == [h.completions[0]] + h.completions[1..];
    Associative(h.fired, [h.completions[0]], h.completions[1..]);
    SameFinals(h, RunCompletion(h));
  }

  /** A step ends the request its reply meets, with the code of the reply, or all that are
      outstanding, with the reason the connection is given up for; no other step ends any. */
  lemma StepEnds(w: World, a: Action)
    requires Enabled(w, a)
    ensures Step(w, a).h.notified == w.h.notified + WokenAt(w, a)
    ensures Finals(Step(w, a).h) == Finals(w.h) + CalledBackAt(w, a)
  {
    hide Finals, Woken, CalledBack, Enabled, Step;
    assert w.h.notified + [] == w.h.notified && Finals(w.h) + [] == Finals(w.h);
    match a {
      case Process => ProcessEnds(w);
      case RunCallback => CallbackEnds(w);
      case Fail(reason) => FailEnds(w, reason);
      case Connect(outcome) => ConnectEnds(w, outcome);
      case Shake(grant, auths) => ShakeEnds(w, grant, auths);
      case Cleanup => CleanupEnds(w);
      case _ => OtherEnds(w, a);
    }
  }

  // ---------------------------------------------------------------- runs

  /** The step decides with which code this request ends. */
  predicate Decides(w: World, a: Action, e: Ready) {
    && e.Finished? && e.c in w.h.sent
    && if a == Process then Meets(w) && e.c == w.h.sent[0] && e.rc == w.inHand.value.err
       else a == Cleanup && w.phase.Closing? && w.phase.reason == e.rc
  }

  lemma {:induction false} WokenAre(cs: seq<Completion>, rc: int, e: Ready)
    ensures e in Woken(cs, rc) <==> e.Finished? && e.c in cs && e.c.sync && e.rc == rc
    ensures e in CalledBack(cs, rc) <==> e.Finished? && e.c in cs && !e.c.sync && e.c.xid != PING_XID && e.rc == rc
  {
    if cs != [] {
      WokenAre(Front(cs), rc, e);
      assert cs == Front(cs) + [Last(cs)];
    }
  }

  lemma EndsDecide(w: World, a: Action, e: Ready)
    requires e in WokenAt(w, a) || e in CalledBackAt(w, a)
    ensures Decides(w, a, e) && (e in WokenAt(w, a) <==> e.c.sync)
  {
    if a == Cleanup && w.phase.Closing? { WokenAre(w.h.sent, w.phase.reason, e); }
  }

  /** Every request that has ended, has ended at a step that processed a reply to it, with the
      code of that reply, or at a step that gave up its connection, with the reason. */
  lemma {:induction false} EveryResultHasItsCause(ws: seq<World>, actions: seq<Action>, i: nat, e: Ready)
    returns (j: nat)
    requires Run(ws, actions) && i <= |actions| && (e in ws[i].h.notified || e in Finals(ws[i].h))
    ensures j < i && Decides(ws[j], actions[j], e)
  {
    hide Enabled, Step, Finals, WokenAt, CalledBackAt, Decides;
    if i == 0 {
      NothingYet(ws[0], e);
    } else {
      j := i - 1;
      RunStep(ws, actions, j);
      StepEnds(ws[j], actions[j]);
      if e in WokenAt(ws[j], actions[j]) || e in CalledBackAt(ws[j], actions[j]) {
        EndsDecide(ws[j], actions[j], e);
      } else {
        j := EveryResultHasItsCause(ws, actions, j, e);
      }
    }
  }

  lemma NothingYet(w: World, e: Ready)
    requires Initial(w)
    ensures e !in w.h.notified && e !in Finals(w.h)
  {
  }

  // ---------------------------------------------------------------- an in-order server

  /** The server answers this call with this code. */
  predicate AnswersAt(w: World, a: Action, xid: int, id: nat, err: int) {
    a.Answer? && a.err == err && w.server != [] && w.server[0] == Ask(xid, id)
  }

  /** A reply on its way to being processed. */
  predicate Coming(w: World, r: Reply) { w.inHand == Some(r) || r in w.h.toProcess || r in w.s2c }

  lemma BrokenKeepsReplies(h: Handle, r: Reply)
    requires ProcessReply(h, r).Broken?
    ensures ProcessReply(h, r).h.toProcess == h.toProcess
  {
  }

  lemma ShakeKeepsReplies(h: Handle, grant: Grant, auths: nat)
    ensures var p := Handshake(h, grant, auths);
            !p.Aborted? && p.h.toProcess == h.toProcess && ErrorEntry(p.h).toProcess == h.toProcess
  {
  }

  lemma ProcessBringsNone(w: World, r: Reply)
    requires Enabled(w, Process) && Coming(Step(w, Process), r)
    ensures Coming(w, r)
  {
    hide ErrorEntry, ProcessReply;
    var p := ProcessReply(w.h, w.inHand.value);
    if p.Fine? { ProcessKeeps(w.h, w.inHand.value); }
    if p.Broken? {
      EntryTells(p.h);
      BrokenKeepsReplies(w.h, w.inHand.value);
    }
  }

  /** Giving up a connection brings no reply either, nor does a new one. */
  lemma ErrorBringsNone(w: World, a: Action, r: Reply)
    requires Enabled(w, a) && Coming(Step(w, a), r) && (a.Fail? || a.Connect? || a.Shake? || a.Cleanup?)
    ensures Coming(w, r)
  {
    hide ErrorEntry, CleanupBufs, Handshake;
    match a {
      case Fail(reason) => EntryTells(w.h);
      case Connect(outcome) => EntryTells(Attempt(w.h, outcome));
      case Shake(grant, auths) => ShakeKeepsReplies(w.h, grant, auths);
      case Cleanup => CleanupTells(w.h, w.phase.reason);
    }
  }

  lemma OtherNewcomer(w: World, a: Action, r: Reply)
    requires Enabled(w, a) && Honest(a) && Coming(Step(w, a), r) && Ordinary(r.xid)
    requires !a.Process? && !a.Fail? && !a.Connect? && !a.Shake? && !a.Cleanup?
    ensures Coming(w, r) || AnswersAt(w, a, r.xid, r.id, r.err)
  {
  }

  lemma Newcomer(w: World, a: Action, r: Reply)
    requires Enabled(w, a) && Honest(a) && Coming(Step(w, a), r) && Ordinary(r.xid)
    ensures Coming(w, r) || AnswersAt(w, a, r.xid, r.id, r.err)
  {
    hide Enabled, Step, Coming, AnswersAt;
    match a {
      case Process => ProcessBringsNone(w, r);
      case Fail(_) => ErrorBringsNone(w, a, r);
      case Connect(_) => ErrorBringsNone(w, a, r);
      case Shake(_, _) => ErrorBringsNone(w, a, r);
      case Cleanup => ErrorBringsNone(w, a, r);
      case _ => OtherNewcomer(w, a, r);
    }
  }

  /** Every reply to a request, wherever it is, is an answer the server has given to that call,
      with the code it has given. */
  lemma {:induction false} EveryReplyIsAnAnswer(ws: seq<World>, actions: seq<Action>, i: nat, r: Reply)
    returns (j: nat)
    requires Run(ws, actions) && i <= |actions| && forall k | 0 <= k < i :: Honest(actions[k])
    requires Coming(ws[i], r) && Ordinary(r.xid)
    ensures j < i && AnswersAt(ws[j], actions[j], r.xid, r.id, r.err)
  {
    hide Enabled, Step, AnswersAt;
    if i == 0 {
      assert false;
    } else {
      j := i - 1;
      RunStep(ws, actions, j);
      Newcomer(ws[j], actions[j], r);
      if !AnswersAt(ws[j], actions[j], r.xid, r.id, r.err) { j := EveryReplyIsAnAnswer(ws, actions, j, r); }
    }
  }

  /** Against an in-order server, over any number of disconnects and whatever the threads do:
      a caller is told what the server has answered to that very call, or the reason for which
      the connection it was outstanding on was given up. */
  lemma AnswersReachTheirCallers(ws: seq<World>, actions: seq<Action>, i: nat, e: Ready) returns (j: nat)
    requires Run(ws, actions) && i <= |actions| && forall k | 0 <= k < i :: Honest(actions[k])
    requires e in ws[i].h.notified || e in Finals(ws[i].h)
    ensures j < i && e.Finished?
    ensures || AnswersAt(ws[j], actions[j], e.c.xid, e.c.id, e.rc)
            || (actions[j] == Cleanup && ws[j].phase == Closing(e.rc) && e.c in ws[j].h.sent)
  {
    hide Enabled, Step, Finals, AnswersAt, Initial;
    j := EveryResultHasItsCause(ws, actions, i, e);
    if actions[j] == Process {
      RepliesMeetTheirRequests(ws, actions, j);
      j := EveryReplyIsAnAnswer(ws, actions, j, ws[j].inHand.value);
    }
  }
}

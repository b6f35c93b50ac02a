/** Over whole runs: what the client knows of its session. */
module SessionRuns {
  import opened Codes
  import opened Common
  import opened Session
  import opened Results
  import opened World
  import opened WatchRuns

  /** What the server has granted: the session id, the timeout and the password. */
  function Granted(h: Handle): Grant { Grant(h.clientId, h.recvTimeout, h.passwd) }

  lemma ProcessGrantsNothing(w: World)
    requires Enabled(w, Process)
    ensures Granted(Step(w, Process).h) == Granted(w.h)
  {
    hide ProcessReply, ErrorEntry;
    TurnTells(w.h, w.inHand.value, []);
    if ProcessReply(w.h, w.inHand.value).Broken? { EntryTells(ProcessReply(w.h, w.inHand.value).h); }
  }

  /** A handshake is welcome unless it is of another session than the client's. */
  lemma ShakeGrants(w: World, grant: Grant, auths: nat)
    requires Enabled(w, Shake(grant, auths))
    ensures Welcomes(w, Shake(grant, auths)) <==> w.h.clientId == 0 || w.h.clientId == grant.id
    ensures Granted(Step(w, Shake(grant, auths)).h) ==
              if w.h.clientId == 0 || w.h.clientId == grant.id then grant else Granted(w.h)
  {
    hide ErrorEntry, Collected;
    EntryTells(w.h.(state := Expired));
  }

  lemma OthersGrantNothing(w: World, a: Action)
    requires Enabled(w, a) && !a.Process? && !a.Shake?
    ensures Granted(Step(w, a).h) == Granted(w.h)
  {
    hide ErrorEntry, CleanupBufs, ProcessReply;
    match a {
      case Fail(reason) => EntryTells(w.h);
      case Connect(outcome) => EntryTells(Attempt(w.h, outcome));
      case Cleanup => CleanupTells(w.h, w.phase.reason);
      case _ =>
    }
  }

  /** At every moment of every run, session id, timeout and password are those granted by the last
      handshake that connected, or, before the first one, those the client started with. */
  lemma {:induction false} GrantedAtWelcome(ws: seq<World>, actions: seq<Action>, i: nat)
    requires Run(ws, actions) && i <= |actions|
    ensures var m := LastWelcome(ws, actions, i);
            Granted(ws[i].h) == if m == None then Granted(ws[0].h) else actions[m.value].grant
  {
    hide Enabled, Step, Granted;
    if i > 0 {
      GrantedAtWelcome(ws, actions, i - 1);
      RunStep(ws, actions, i - 1);
      var w, a := ws[i - 1], actions[i - 1];
      match a {
        case Process => ProcessGrantsNothing(w);
        case Shake(grant, auths) => ShakeGrants(w, grant, auths);
        case _ => OthersGrantNothing(w, a);
      }
    }
  }

  // ---------------------------------------------------------------- the last zxid

  /** The zxid of the last reply taken up to be processed that carried one, before step `i`. */
  function LastHeard(ws: seq<World>, actions: seq<Action>, i: nat): int
    requires i <= |ws| && i <= |actions|
  {
    if i == 0 then 0
    else if actions[i - 1] == Process && ws[i - 1].inHand.Some? && ws[i - 1].inHand.value.zxid > 0 then
      ws[i - 1].inHand.value.zxid
    else LastHeard(ws, actions, i - 1)
  }

  lemma ProcessHears(w: World)
    requires Enabled(w, Process) && !Step(w, Process).aborted
    ensures Step(w, Process).h.lastZxid == if w.inHand.value.zxid > 0 then w.inHand.value.zxid else w.h.lastZxid
  {
    hide ProcessReply, ErrorEntry;
    var h, r := w.h, w.inHand.value;
    var p := ProcessReply(h, r);
    if p.Broken? { EntryTells(p.h); }
    if r.xid == WATCHER_EVENT_XID {
      EventTells(h, r);
    } else if Ordinary(r.xid) && h.sent != [] && h.sent[0].xid == r.xid {
      ReplyTells(h, r);
    } else {
      OtherReplies(h, r);
    }
  }

  lemma OthersHearNothing(w: World, a: Action)
    requires Enabled(w, a) && !a.Process?
    ensures Step(w, a).h.lastZxid == w.h.lastZxid
  {
    hide ErrorEntry, CleanupBufs, ProcessReply, Collected;
    match a {
      case Fail(reason) => EntryTells(w.h);
      case Connect(outcome) => EntryTells(Attempt(w.h, outcome));
      case Shake(grant, auths) => EntryTells(w.h.(state := Expired));
      case Cleanup => CleanupTells(w.h, w.phase.reason);
      case _ =>
    }
  }

  /** The last zxid is that of the last reply processed that carried one; an event, an answer or
      a made-up answer without one leaves it alone, and so does a reconnect. */
  lemma {:induction false} ZxidIsTheLastHeard(ws: seq<World>, actions: seq<Action>, i: nat)
    requires Run(ws, actions) && i <= |actions| && !ws[i].aborted
    ensures ws[i].h.lastZxid == LastHeard(ws, actions, i)
  {
    if i > 0 {
      hide Step;
      RunStep(ws, actions, i - 1);
      ZxidIsTheLastHeard(ws, actions, i - 1);
      var w, a := ws[i - 1], actions[i - 1];
      if a == Process { ProcessHears(w); } else { OthersHearNothing(w, a); }
    }
  }
}

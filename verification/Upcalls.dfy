/** What the watchers are told about the session, over whole runs. */
module Upcalls {
  import opened Common
  import opened Codes
  import opened WatchRegistry
  import opened Session
  import opened Ledger
  import opened World
  import opened Connection

  function EventOf(r: Ready): seq<ConnState> {
    if r.Noticed? && r.event == SESSION_EVENT then [r.state] else []
  }

  /** The session events, those delivered and those to be delivered. */
  function Events(h: Handle): seq<ConnState> { Gather(h.fired, EventOf) + Gather(h.completions, EventOf) }

  /** What the watchers believe: before anything is said, that the client is connecting. */
  function Believed(events: seq<ConnState>): ConnState { if events == [] then Connecting else Last(events) }

  predicate Follows(before: ConnState, after: ConnState) {
    match after
    case Connected => before == Connecting
    case Connecting => before == Connected
    case AuthFailed => before == Connected
    case Expired => before == Connecting
    case _ => false
  }

  /** Each event makes sense after the one before. */
  predicate Coherent(events: seq<ConnState>) {
    forall i {:trigger events[i]} | 0 <= i < |events| ::
      Follows(if i == 0 then Connecting else events[i - 1], events[i])
  }

  /** What the watchers believe is what is so: connected, lost for good, or neither. */
  function Truth(w: World): ConnState {
    if Unrecoverable(w.h.state) then w.h.state
    else if w.phase == Live && w.h.state == Connected then Connected
    else Connecting
  }

  predicate Told(w: World) {
    && Coherent(Events(w.h)) && Believed(Events(w.h)) == Truth(w)
    && (w.phase == Live && (w.inHand.Some? || w.h.toProcess != []) ==> w.h.state == Connected)
    && (w.inHand.Some? ==> w.phase == Live)
    && NoSessionReplies(w)
  }

  predicate Silent(r: Reply) { r.event != SESSION_EVENT || r.xid != WATCHER_EVENT_XID }

  /** No reply on its way is about the session. */
  predicate NoSessionReplies(w: World) {
    && (w.inHand.Some? ==> Silent(w.inHand.value))
    && (forall i | 0 <= i < |w.h.toProcess| :: Silent(w.h.toProcess[i]))
    && (forall i | 0 <= i < |w.s2c| :: Silent(w.s2c[i]))
  }

  lemma SessionEventAdds(h: Handle, state: ConnState)
    ensures Events(SessionEvent(h, state)) == Events(h) + [state]
  {
    var watchers := Collected(h.watches, h.global, SESSION_EVENT, []);
    GatherSnoc(h.completions, Noticed(SESSION_EVENT, state, [], watchers), EventOf);
    Associative(Gather(h.fired, EventOf), Gather(h.completions, EventOf), [state]);
  }

  lemma CoherentSnoc(events: seq<ConnState>, e: ConnState)
    requires Coherent(events) && Follows(Believed(events), e)
    ensures Coherent(events + [e]) && Believed(events + [e]) == e
  {
  }

  lemma AddsNothing(h: Handle, r: Ready)
    requires EventOf(r) == []
    ensures Events(h.(completions := h.completions + [r])) == Events(h)
  {
    GatherSnoc(h.completions, r, EventOf);
    assert Gather(h.completions, EventOf) + [] == Gather(h.completions, EventOf);
  }

  lemma {:induction false} AbandonSaysNothing(h: Handle, cs: seq<Completion>, n: nat, reason: int)
    requires n <= |cs|
    ensures Events(AbandonAll(h, cs, n, reason)) == Events(h)
  {
    if n > 0 {
      AbandonSaysNothing(h, cs, n - 1, reason);
      AddsNothing(AbandonAll(h, cs, n - 1, reason), Finished(cs[n - 1], reason));
    }
  }

  lemma CallbackSaysNothing(h: Handle)
    requires h.completions != []
    ensures Events(RunCompletion(h)) == Events(h)
  {
    GatherFirst(h.completions, EventOf);
    GatherSnoc(h.fired, h.completions[0], EventOf);
    Associative(Gather(h.fired, EventOf), EventOf(h.completions[0]), Gather(h.completions[1..], EventOf));
  }

  lemma FinishSaysNothing(h: Handle, c: Completion, r: Reply)
    ensures Events(Finish(h, c, r)) == Events(h)
  {
    AddsNothing(Armed(h, c, r), Finished(c, r.err));
    assert Events(Armed(h, c, r)) == Events(h);
  }

  /** A reply that is not about the session says nothing about it, unless it is a refused
      authentication. */
  lemma ReplySaysNothing(h: Handle, r: Reply)
    requires Silent(r)
    ensures var p := ProcessReply(h, r); !p.Aborted? ==> Events(p.h) == Events(h)
  {
    hide Finish, Collected;
    var z := if r.zxid > 0 then h.(lastZxid := r.zxid) else h;
    assert Events(z) == Events(h);
    if r.xid == WATCHER_EVENT_XID {
      AddsNothing(z, Noticed(r.event, r.state, r.path, Collected(z.watches, z.global, r.event, r.path)));
    } else if Ordinary(r.xid) && h.sent != [] {
      FinishSaysNothing(z.(sent := z.sent[1..]), z.sent[0], r);
    }
  }

  /** Giving up a connection says so if anyone believed in it. */
  lemma GiveUpTold(w: World, h: Handle, reason: int)
    requires forall i | 0 <= i < |h.toProcess| :: Silent(h.toProcess[i])
    requires Coherent(Events(h))
    requires Believed(Events(h)) == if h.state in {Connected, AuthFailed} then Connected else Connecting
    ensures Told(GiveUp(w, h, reason).(disordered := true)) && Told(GiveUp(w, h, reason))
  {
    var e := ErrorEntry(h);
    ErrorEntryKeeps(h);
    if Unrecoverable(h.state) {
      SessionEventAdds(h, h.state);
      CoherentSnoc(Events(h), h.state);
    } else if h.state == Connected {
      SessionEventAdds(h, Connecting);
      CoherentSnoc(Events(h), Connecting);
    }
  }

  lemma ProcessTold(w: World)
    requires Told(w) && SocketMatchesState(w) && Enabled(w, Process)
    ensures Told(Step(w, Process))
  {
    hide Coherent, Events, ProcessReply, ErrorEntry;
    var r, p := w.inHand.value, ProcessReply(w.h, w.inHand.value);
    ReplySaysNothing(w.h, r);
    match p {
      case Fine(h) => ProcessKeeps(w.h, r);
      case Broken(h, reason) =>
        BrokenKeeps(w.h, r);
        GiveUpTold(w, h, reason);
      case Aborted =>
    }
  }

  lemma ShakeTold(w: World, grant: Grant, auths: nat)
    requires Told(w) && Enabled(w, Shake(grant, auths))
    ensures Told(Step(w, Shake(grant, auths)))
  {
    if w.h.clientId != 0 && w.h.clientId != grant.id {
      GiveUpTold(w, w.h.(state := Expired), ZSESSIONEXPIRED);
    } else {
      var h := Adopted(w.h, grant, auths);
      SessionEventAdds(h, Connected);
      CoherentSnoc(Events(w.h), Connected);
    }
  }

  lemma CleanupTold(w: World)
    requires Told(w) && Enabled(w, Cleanup)
    ensures Told(Step(w, Cleanup))
  {
    hide Coherent, Events, AbandonAll;
    CleanupKeeps(w.h, w.phase.reason);
    AbandonSaysNothing(w.h.(toSend := [], toProcess := [], sent := []), w.h.sent, |w.h.sent|, w.phase.reason);
    SameWords(w.h, w.h.(toSend := [], toProcess := [], sent := []));
  }

  lemma SameWords(h: Handle, h': Handle)
    requires h'.fired == h.fired && h'.completions == h.completions
    ensures Events(h') == Events(h)
  {
  }

  /** The steps that move a reply: what moves is as silent as it was, or new and silent. */
  lemma MovingTold(w: World, a: Action)
    requires Told(w) && Enabled(w, a) && Honest(a)
    requires a.Receive? || a.Take? || a.Answer? || a.Tell?
    ensures Told(Step(w, a))
  {
    hide Coherent, Events;
    SameWords(w.h, Step(w, a).h);
  }

  /** The steps that do not touch replies. */
  lemma OtherTold(w: World, a: Action)
    requires Told(w) && SocketMatchesState(w) && Enabled(w, a)
    requires a.Enter? || a.Leave? || a.AddAuth? || a.Flush? || a.FlushPart? || a.WantPing? || a.EnterPing? ||
             a.Reset? || a.WrapIndex? || a.Prime? || a.Accept?
    ensures Told(Step(w, a))
  {
    hide Coherent, Events, NoSessionReplies;
    var w' := Step(w, a);
    SameWords(w.h, w'.h);
    SameReplies(w, w');
  }

  lemma SameReplies(w: World, w': World)
    requires NoSessionReplies(w) && w'.inHand == w.inHand && w'.h.toProcess == w.h.toProcess && w'.s2c == w.s2c
    ensures NoSessionReplies(w')
  {
  }

  lemma StepTold(w: World, a: Action)
    requires Told(w) && SocketMatchesState(w) && Enabled(w, a) && Honest(a)
    ensures Told(Step(w, a))
  {
    hide Coherent, Events, ErrorEntry;
    match a {
      case Process => ProcessTold(w);
      case Shake(grant, auths) => ShakeTold(w, grant, auths);
      case Cleanup => CleanupTold(w);
      case Fail(reason) => GiveUpTold(w, w.h, reason);
      case Connect(outcome) =>
        SameWords(w.h, Attempt(w.h, outcome));
        if outcome == Refused {
          GiveUpTold(w.(attempts := w.attempts + [w.h.connectIndex]), Attempt(w.h, outcome), ZCONNECTIONLOSS);
        }
      case RunCallback => CallbackSaysNothing(w.h);
      case Receive | Take | Answer(_, _) | Tell(_) => MovingTold(w, a);
      case _ => OtherTold(w, a);
    }
  }

  lemma NewTold(w: World)
    requires Initial(w)
    ensures Told(w)
  {
  }

  lemma {:induction false} RunTold(ws: seq<World>, actions: seq<Action>, i: nat)
    requires Run(ws, actions) && i <= |actions| && forall j | 0 <= j < i :: Honest(actions[j])
    ensures Told(ws[i])
  {
    hide Told, Enabled, Step, Honest;
    if i == 0 {
      NewTold(ws[0]);
    } else {
      RunTold(ws, actions, i - 1);
      RunSocket(ws, actions, i - 1);
      RunStep(ws, actions, i - 1);
      StepTold(ws[i - 1], actions[i - 1]);
    }
  }

  /** In every run against an in-order server the watchers hear a coherent story: connected
      only after not connected, connecting again only after connected, nothing after the
      session is lost; and the last thing said or about to be said is true. */
  lemma WatchersHearTheTruth(ws: seq<World>, actions: seq<Action>, i: nat)
    requires Run(ws, actions) && i <= |actions| && forall j | 0 <= j < i :: Honest(actions[j])
    ensures Coherent(Events(ws[i].h)) && Believed(Events(ws[i].h)) == Truth(ws[i])
  {
    RunTold(ws, actions, i);
  }
}

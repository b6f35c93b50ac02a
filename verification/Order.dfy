/** Upcalls of both kinds, for requests and for events, keep the order of the replies that
    caused them. */
module Order {
  import opened Codes
  import opened Common
  import opened Session
  import opened Results
  import opened World

  /** The upcalls made and to be made, in order. */
  function Upcalls(h: Handle): seq<Ready> { h.fired + h.completions }

  /** The upcall a processed reply gives rise to, if any: the notice of an event, or the
      callback of the asynchronous request it answers. */
  function Caused(h: Handle, r: Reply): seq<Ready> {
    if r.xid == WATCHER_EVENT_XID then
      [Noticed(r.event, r.state, r.path, Collected(h.watches, h.global, r.event, r.path))]
    else if Ordinary(r.xid) && h.sent != [] && h.sent[0].xid == r.xid && !h.sent[0].sync && r.xid != PING_XID then
      [Finished(h.sent[0], r.err)]
    else []
  }

  /** The step processes a reply that gives rise to an upcall. */
  predicate UpcallAt(w: World, a: Action) {
    a == Process && w.inHand.Some? && Caused(w.h, w.inHand.value) != []
  }

  lemma ReplyUpcalls(h: Handle, r: Reply)
    ensures var p := ProcessReply(h, r);
            && (!p.Aborted? ==> Upcalls(p.h) == Upcalls(h) + Caused(h, r))
            && (!p.Fine? ==> Caused(h, r) == [])
  {
    hide Collected, Armed;
    Associative(h.fired, h.completions, Caused(h, r));
    ArmedKeeps(h, r);
  }

  lemma ArmedKeeps(h: Handle, r: Reply)
    ensures forall h': Handle, c: Completion ::
              Armed(h', c, r).fired == h'.fired && Armed(h', c, r).completions == h'.completions
  {
  }

  lemma PrefixGrows(h: Handle, h': Handle)
    requires h'.fired == h.fired && h.completions <= h'.completions
    ensures Upcalls(h) <= Upcalls(h')
  {
  }

  lemma ErrorEntryAppends(h: Handle)
    ensures Upcalls(h) <= Upcalls(ErrorEntry(h))
  {
    hide Collected;
    PrefixGrows(h, ErrorEntry(h));
  }

  /** No step takes an upcall back or puts one before another. */
  lemma StepAppends(w: World, a: Action)
    requires Enabled(w, a)
    ensures Upcalls(w.h) <= Upcalls(Step(w, a).h)
  {
    hide ErrorEntry, ProcessReply, CleanupBufs, Handshake, Upcalls;
    match a {
      case RunCallback => CallbackKeeps(w.h);
      case Process => ProcessAppends(w);
      case Fail(reason) => ErrorEntryAppends(w.h);
      case Connect(outcome) =>
        ErrorEntryAppends(Attempt(w.h, outcome));
        SameUpcalls(w.h, Attempt(w.h, outcome));
      case Shake(grant, auths) => ShakeAppends(w, grant, auths);
      case Cleanup => CleanupAppends(w.h, w.phase.reason);
      case _ => OtherAppends(w, a);
    }
  }

  lemma SameUpcalls(h: Handle, h': Handle)
    requires h'.fired == h.fired && h'.completions == h.completions
    ensures Upcalls(h') == Upcalls(h)
  {
  }

  lemma CallbackKeeps(h: Handle)
    requires h.completions != []
    ensures Upcalls(RunCompletion(h)) == Upcalls(h)
  {
    assert h.completions == [h.completions[0]] + h.completions[1..];
    Associative(h.fired, [h.completions[0]], h.completions[1..]);
  }

  lemma ProcessAppends(w: World)
    requires Enabled(w, Process)
    ensures Upcalls(w.h) + Caused(w.h, w.inHand.value) <= Upcalls(Step(w, Process).h)
  {
    hide ErrorEntry, ProcessReply, Caused, Upcalls;
    var p := ProcessReply(w.h, w.inHand.value);
    ReplyUpcalls(w.h, w.inHand.value);
    if p.Broken? { ErrorEntryAppends(p.h); }
    if p.Aborted? { assert Upcalls(w.h) + [] == Upcalls(w.h); }
  }

  lemma ShakeAppends(w: World, grant: Grant, auths: nat)
    requires Enabled(w, Shake(grant, auths))
    ensures Upcalls(w.h) <= Upcalls(Step(w, Shake(grant, auths)).h)
  {
    hide ErrorEntry, Collected;
    if w.h.clientId != 0 && w.h.clientId != grant.id {
      ErrorEntryAppends(w.h.(state := Expired));
      SameUpcalls(w.h, w.h.(state := Expired));
    } else {
      PrefixGrows(w.h, Step(w, Shake(grant, auths)).h);
    }
  }

  lemma CleanupAppends(h: Handle, reason: int)
    ensures Upcalls(h) <= Upcalls(CleanupBufs(h, reason))
  {
    CleanupTells(h, reason);
    PrefixGrows(h, CleanupBufs(h, reason));
  }

  lemma OtherAppends(w: World, a: Action)
    requires Enabled(w, a) && !a.RunCallback? && !a.Process? && !a.Fail? && !a.Connect? && !a.Shake? && !a.Cleanup?
    ensures Upcalls(Step(w, a).h) == Upcalls(w.h)
  {
    SameUpcalls(w.h, Step(w, a).h);
  }

  lemma {:induction false} RunAppends(ws: seq<World>, actions: seq<Action>, i: nat, j: nat)
    requires Run(ws, actions) && i <= j <= |actions|
    ensures Upcalls(ws[i].h) <= Upcalls(ws[j].h)
    decreases j
  {
    hide Enabled, Step, Upcalls;
    if i < j {
      RunAppends(ws, actions, i, j - 1);
      RunStep(ws, actions, j - 1);
      StepAppends(ws[j - 1], actions[j - 1]);
    }
  }

  /** Once a reply has been processed, its upcall has its place among all upcalls, and keeps it
      for the rest of the run. */
  lemma UpcallHasItsPlace(ws: seq<World>, actions: seq<Action>, j: nat, i: nat)
    requires Run(ws, actions) && j < i <= |actions| && UpcallAt(ws[j], actions[j])
    ensures var p := |Upcalls(ws[j].h)|;
            p < |Upcalls(ws[i].h)| && Upcalls(ws[i].h)[p] == Caused(ws[j].h, ws[j].inHand.value)[0]
  {
    hide Enabled, Step, Upcalls, Caused;
    RunStep(ws, actions, j);
    ProcessAppends(ws[j]);
    RunAppends(ws, actions, j + 1, i);
    var before, caused := Upcalls(ws[j].h), Caused(ws[j].h, ws[j].inHand.value);
    assert (before + caused)[|before|] == caused[0];
  }

  /** In every run, whatever arrives: of two replies that give rise to upcalls, be they callbacks
      or events, the one processed first has the first upcall. */
  lemma UpcallsFollowReplies(ws: seq<World>, actions: seq<Action>, j: nat, k: nat, i: nat)
    requires Run(ws, actions) && j < k < i <= |actions|
    requires UpcallAt(ws[j], actions[j]) && UpcallAt(ws[k], actions[k])
    ensures var p, q := |Upcalls(ws[j].h)|, |Upcalls(ws[k].h)|;
            && p < q < |Upcalls(ws[i].h)|
            && Upcalls(ws[i].h)[p] == Caused(ws[j].h, ws[j].inHand.value)[0]
            && Upcalls(ws[i].h)[q] == Caused(ws[k].h, ws[k].inHand.value)[0]
  {
    hide Run, Upcalls, Caused, UpcallAt;
    UpcallHasItsPlace(ws, actions, j, k);
    UpcallHasItsPlace(ws, actions, j, i);
    UpcallHasItsPlace(ws, actions, k, i);
  }
}

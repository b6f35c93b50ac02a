/** Over whole runs: what is watched is what replies armed and no later event cleared, and
    what an event delivers is what was watched. */
module WatchRuns {
  import opened Codes
  import opened Common
  import opened WatchRegistry
  import opened Session
  import opened Ledger
  import opened World
  import opened Connection

  // ---------------------------------------------------------------- one step

  /** The step processes the reply to the request it meets at the head of `sent_requests`, and
      the request carried this watcher for this path, and the code qualifies for this table. */
  predicate ArmsAt(w: World, a: Action, kind: Kind, path: Path, watcher: Watcher) {
    && a == Process && w.inHand.Some? && w.h.sent != []
    && var r, c := w.inHand.value, w.h.sent[0];
    && Ordinary(r.xid) && c.xid == r.xid && c.watch.Some?
    && c.watch.value.path == path && c.watch.value.watcher == watcher
    && ResultChecker(c.watch.value.checker, r.err) == Some(kind)
  }

  /** The step processes an event of the server on this path, of a type that clears this
      table. */
  predicate ClearsAt(w: World, a: Action, kind: Kind, path: Path) {
    && a == Process && w.inHand.Some? && w.inHand.value.xid == WATCHER_EVENT_XID
    && Clears(w.inHand.value.event, kind) && w.inHand.value.path == path
  }

  /** A step that is not the processing of a reply arms nothing and clears nothing: not the
      loss of a connection, not the answers made up for the requests on it. */
  lemma OnlyRepliesCount(w: World, a: Action)
    requires Enabled(w, a) && a != Process
    ensures Step(w, a).h.watches == w.h.watches
  {
    hide ErrorEntry, CleanupBufs, SessionEvent, Handshake;
    match a {
      case Fail(reason) => ErrorEntryKeeps(w.h);
      case Connect(outcome) => ErrorEntryKeeps(Attempt(w.h, outcome));
      case Shake(grant, auths) => ShakeWatches(w.h, grant, auths);
      case Cleanup => CleanupKeeps(w.h, w.phase.reason);
      case _ => QuietStep(w, a);
    }
  }

  lemma QuietStep(w: World, a: Action)
    requires Enabled(w, a) && !a.Process? && !a.Fail? && !a.Connect? && !a.Shake? && !a.Cleanup?
    ensures Step(w, a).h.watches == w.h.watches
  {
    if a.Enter? || a.EnterPing? || a.Leave? || a.AddAuth? || a.RunCallback? {
    } else if a.Reset? || a.Prime? || a.WrapIndex? || a.Flush? || a.Receive? || a.Take? {
    }
  }

  lemma ShakeWatches(h: Handle, grant: Grant, auths: nat)
    ensures var p := Handshake(h, grant, auths);
            !p.Aborted? && p.h.watches == h.watches && ErrorEntry(p.h).watches == h.watches
  {
  }

  /** One step decides about a stored watch by itself, or leaves it as it was. */
  lemma OneAction(w: World, a: Action, kind: Kind, path: Path, watcher: Watcher)
    requires Enabled(w, a)
    ensures Step(w, a).h.watches.Holds(kind, path, watcher) <==>
              || ArmsAt(w, a, kind, path, watcher)
              || (w.h.watches.Holds(kind, path, watcher) && !ClearsAt(w, a, kind, path))
  {
    if a == Process {
      ProcessWatches(w, kind, path, watcher);
    } else {
      OnlyRepliesCount(w, a);
    }
  }

  /** The happening a reply is, if it is one. */
  function WhatHappens(h: Handle, r: Reply): Option<Happening> {
    if r.xid == WATCHER_EVENT_XID then
      if r.event == SESSION_EVENT then None else Some(Notified(r.event, r.path))
    else if Ordinary(r.xid) && h.sent != [] && h.sent[0].xid == r.xid && h.sent[0].watch.Some? then
      Some(Completed(h.sent[0].watch.value, r.err))
    else None
  }

  lemma ReplyWatches(h: Handle, r: Reply)
    ensures var p, x := ProcessReply(h, r), WhatHappens(h, r);
            !p.Aborted? ==> p.h.watches == if x.Some? then Happened(h.watches, x.value) else h.watches
  {
    hide Collected, Activated, Fired;
  }

  lemma ProcessWatches(w: World, kind: Kind, path: Path, watcher: Watcher)
    requires Enabled(w, Process)
    ensures Step(w, Process).h.watches.Holds(kind, path, watcher) <==>
              || ArmsAt(w, Process, kind, path, watcher)
              || (w.h.watches.Holds(kind, path, watcher) && !ClearsAt(w, Process, kind, path))
  {
    hide Step, ArmsAt, ClearsAt, WhatHappens, Happened, Arms, Disarms;
    var x := WhatHappens(w.h, w.inHand.value);
    ProcessStep(w);
    HappeningHow(w, kind, path, watcher);
    if x.Some? { OneStep(w.h.watches, x.value, kind, path, watcher); }
  }

  lemma ProcessStep(w: World)
    requires Enabled(w, Process)
    ensures var x := WhatHappens(w.h, w.inHand.value);
            Step(w, Process).h.watches == if x.Some? then Happened(w.h.watches, x.value) else w.h.watches
  {
    hide ErrorEntry, ProcessReply, Happened;
    var p := ProcessReply(w.h, w.inHand.value);
    if p.Aborted? { AbortedHow(w.h, w.inHand.value); }
    if p.Broken? { ErrorEntryKeeps(p.h); }
    ReplyWatches(w.h, w.inHand.value);
  }

  lemma HappeningHow(w: World, kind: Kind, path: Path, watcher: Watcher)
    requires w.inHand.Some?
    ensures var x := WhatHappens(w.h, w.inHand.value);
            && (ArmsAt(w, Process, kind, path, watcher) <==> x.Some? && Arms(x.value, kind, path, watcher))
            && (ClearsAt(w, Process, kind, path) <==> x.Some? && Disarms(x.value, kind, path))
  {
    hide ResultChecker;
  }

  lemma AbortedHow(h: Handle, r: Reply)
    requires ProcessReply(h, r).Aborted?
    ensures h.sent == [] && Ordinary(r.xid)
  {
  }

  // ---------------------------------------------------------------- runs

  /** Armed by a step from `from` on and before `i`, and cleared by none after it. */
  ghost predicate ArmedSince(ws: seq<World>, actions: seq<Action>, from: nat, i: nat, kind: Kind, path: Path,
                             watcher: Watcher)
    requires i <= |ws| && i <= |actions|
  {
    exists j :: from <= j < i && ArmsAt(ws[j], actions[j], kind, path, watcher)
                && Uncleared(ws, actions, j + 1, i, kind, path)
  }

  /** No step from `from` on and before `i` clears the path in the table. */
  ghost predicate Uncleared(ws: seq<World>, actions: seq<Action>, from: nat, i: nat, kind: Kind, path: Path)
    requires i <= |ws| && i <= |actions|
  {
    forall k | from <= k < i :: !ClearsAt(ws[k], actions[k], kind, path)
  }

  /** From any moment of any run to any later one: what is stored then is what has been armed in
      between and not cleared after, and what was stored already and has not been cleared. */
  lemma {:induction false} WatchesBetween(ws: seq<World>, actions: seq<Action>, m: nat, i: nat, kind: Kind, path: Path,
                                          watcher: Watcher)
    requires Run(ws, actions) && m <= i <= |actions|
    ensures ws[i].h.watches.Holds(kind, path, watcher) <==>
              || ArmedSince(ws, actions, m, i, kind, path, watcher)
              || (ws[m].h.watches.Holds(kind, path, watcher) && Uncleared(ws, actions, m, i, kind, path))
    decreases i
  {
    hide Enabled, Step, Initial;
    assert |ws| == |actions| + 1;
    hide Run, ArmedSince, Uncleared, ArmsAt, ClearsAt;
    if m == i {
      NothingBetween(ws, actions, m, kind, path, watcher);
    } else {
      var n := i - 1;
      WatchesBetween(ws, actions, m, n, kind, path, watcher);
      StepBetween(ws, actions, n, kind, path, watcher);
      ArmedStep(ws, actions, m, n, kind, path, watcher);
      UnclearedStep(ws, actions, m, n, kind, path);
    }
  }

  lemma NothingBetween(ws: seq<World>, actions: seq<Action>, m: nat, kind: Kind, path: Path, watcher: Watcher)
    requires m <= |ws| && m <= |actions|
    ensures !ArmedSince(ws, actions, m, m, kind, path, watcher) && Uncleared(ws, actions, m, m, kind, path)
  {
  }

  lemma UnclearedStep(ws: seq<World>, actions: seq<Action>, m: nat, n: nat, kind: Kind, path: Path)
    requires m <= n < |ws| && n < |actions|
    ensures Uncleared(ws, actions, m, n + 1, kind, path) <==>
              Uncleared(ws, actions, m, n, kind, path) && !ClearsAt(ws[n], actions[n], kind, path)
  {
    hide ClearsAt;
  }

  lemma ArmedStep(ws: seq<World>, actions: seq<Action>, m: nat, n: nat, kind: Kind, path: Path, watcher: Watcher)
    requires m <= n < |ws| && n < |actions|
    ensures ArmedSince(ws, actions, m, n + 1, kind, path, watcher) <==>
              || ArmsAt(ws[n], actions[n], kind, path, watcher)
              || (ArmedSince(ws, actions, m, n, kind, path, watcher) && !ClearsAt(ws[n], actions[n], kind, path))
  {
    hide ArmsAt, ClearsAt, Uncleared;
    if ArmsAt(ws[n], actions[n], kind, path, watcher) { NothingBetween(ws, actions, n + 1, kind, path, watcher); }
    if ArmedSince(ws, actions, m, n, kind, path, watcher) && !ClearsAt(ws[n], actions[n], kind, path) {
      var j :| m <= j < n && ArmsAt(ws[j], actions[j], kind, path, watcher)
               && Uncleared(ws, actions, j + 1, n, kind, path);
      UnclearedStep(ws, actions, j + 1, n, kind, path);
    }
    if ArmedSince(ws, actions, m, n + 1, kind, path, watcher) && !ArmsAt(ws[n], actions[n], kind, path, watcher) {
      var j :| m <= j < n + 1 && ArmsAt(ws[j], actions[j], kind, path, watcher)
               && Uncleared(ws, actions, j + 1, n + 1, kind, path);
      UnclearedStep(ws, actions, j + 1, n, kind, path);
    }
  }

  lemma StepBetween(ws: seq<World>, actions: seq<Action>, n: nat, kind: Kind, path: Path, watcher: Watcher)
    requires Run(ws, actions) && n < |actions|
    ensures ws[n + 1].h.watches.Holds(kind, path, watcher) <==>
              || ArmsAt(ws[n], actions[n], kind, path, watcher)
              || (ws[n].h.watches.Holds(kind, path, watcher) && !ClearsAt(ws[n], actions[n], kind, path))
  {
    hide ArmsAt, ClearsAt, Enabled, Step;
    RunStep(ws, actions, n);
    OneAction(ws[n], actions[n], kind, path, watcher);
  }

  /** At every moment of every run, a watcher is stored for a path in a table exactly when a
      step before has processed a reply that armed it there and no step after that one has
      processed an event that clears it. */
  lemma WatchedExactlyWhenArmed(ws: seq<World>, actions: seq<Action>, i: nat, kind: Kind, path: Path, watcher: Watcher)
    requires Run(ws, actions) && i <= |actions|
    ensures ws[i].h.watches.Holds(kind, path, watcher) <==> ArmedSince(ws, actions, 0, i, kind, path, watcher)
  {
    WatchesBetween(ws, actions, 0, i, kind, path, watcher);
  }

  // ---------------------------------------------------------------- across reconnects

  predicate Welcomes(w: World, a: Action) {
    a.Shake? && Handshake(w.h, a.grant, a.auths).Fine?
  }

  /** The step of the last handshake before `i` that connected. */
  function LastWelcome(ws: seq<World>, actions: seq<Action>, i: nat): (m: Option<nat>)
    requires i <= |ws| && i <= |actions|
    ensures m.Some? ==> m.value < i && Welcomes(ws[m.value], actions[m.value])
  {
    if i == 0 then None
    else if Welcomes(ws[i - 1], actions[i - 1]) then Some(i - 1)
    else LastWelcome(ws, actions, i - 1)
  }

  lemma OnlyWelcomeGreets(w: World, a: Action)
    requires Enabled(w, a)
    ensures Step(w, a).greeting ==
              if Welcomes(w, a) then Some(Greeting(a.auths, w.h.lastZxid, w.h.watches)) else w.greeting
  {
    hide ErrorEntry, CleanupBufs, SessionEvent, ProcessReply;
  }

  /** What is recorded in front of a connection is of its own handshake: the authentication
      packets of that step, and the last zxid and the tables as they were then. */
  lemma {:induction false} GreetedAtWelcome(ws: seq<World>, actions: seq<Action>, i: nat)
    requires Run(ws, actions) && i <= |actions|
    ensures var m := LastWelcome(ws, actions, i);
            ws[i].greeting ==
              if m == None then None
              else Some(Greeting(actions[m.value].auths, ws[m.value].h.lastZxid, ws[m.value].h.watches))
  {
    hide Enabled, Step, Welcomes;
    if i > 0 {
      GreetedAtWelcome(ws, actions, i - 1);
      RunStep(ws, actions, i - 1);
      OnlyWelcomeGreets(ws[i - 1], actions[i - 1]);
    }
  }

  /** No watch is forgotten over a reconnect, and none comes out of nothing: what is stored on a
      connection is what was in the tables its rearming packet was made from and has not been
      cleared since, and what replies have armed since and no event has cleared after. */
  lemma EveryWatchIsKnown(ws: seq<World>, actions: seq<Action>, i: nat, kind: Kind, path: Path, watcher: Watcher)
    requires Run(ws, actions) && i <= |actions| && ws[i].greeting.Some?
    ensures LastWelcome(ws, actions, i).Some?
    ensures var m := LastWelcome(ws, actions, i).value;
            ws[i].h.watches.Holds(kind, path, watcher) <==>
              || ArmedSince(ws, actions, m, i, kind, path, watcher)
              || (ws[i].greeting.value.watches.Holds(kind, path, watcher) && Uncleared(ws, actions, m, i, kind, path))
  {
    GreetedAtWelcome(ws, actions, i);
    WatchesBetween(ws, actions, LastWelcome(ws, actions, i).value, i, kind, path, watcher);
  }

  // ---------------------------------------------------------------- delivery

  /** An event goes to exactly the watchers that were due, or, if it is about the session, to
      the default watcher and everyone stored. */
  lemma EventGoesToWatchers(h: Handle, r: Reply, watcher: Watcher)
    requires r.xid == WATCHER_EVENT_XID
    ensures var p := ProcessReply(h, r);
            && p.Fine? && p.h.completions != [] && Front(p.h.completions) == h.completions
            && Last(p.h.completions).Noticed?
            && Last(p.h.completions).event == r.event && Last(p.h.completions).path == r.path
            && (watcher in Last(p.h.completions).watchers <==>
                  if r.event == SESSION_EVENT then watcher == h.global || Stored(h.watches, watcher)
                  else Due(h.watches, r.event, r.path, watcher))
  {
    var z := if r.zxid > 0 then h.(lastZxid := r.zxid) else h;
    CollectedExact(z, r.event, r.path, watcher);
  }

  lemma CollectedExact(h: Handle, event: int, path: Path, watcher: Watcher)
    ensures watcher in Collected(h.watches, h.global, event, path) <==>
              if event == SESSION_EVENT then watcher == h.global || Stored(h.watches, watcher)
              else Due(h.watches, event, path, watcher)
  {
    if event != SESSION_EVENT && Due(h.watches, event, path, watcher) {
      var kind: Kind :| Clears(event, kind) && h.watches.Holds(kind, path, watcher);
      assert kind in {Node, Exist, Child};
    }
  }

  /** Over a whole run: an event of the server goes to exactly the watchers that replies have
      armed for its path, in a table it clears, and no event has cleared since. */
  lemma EventsFindTheArmed(ws: seq<World>, actions: seq<Action>, i: nat, watcher: Watcher)
    requires Run(ws, actions) && i < |actions| && actions[i] == Process
    requires ws[i].inHand.Some? && ws[i].inHand.value.xid == WATCHER_EVENT_XID
    requires ws[i].inHand.value.event != SESSION_EVENT
    ensures var r, cs := ws[i].inHand.value, ws[i + 1].h.completions;
            && cs != [] && Front(cs) == ws[i].h.completions
            && Last(cs).Noticed? && Last(cs).event == r.event && Last(cs).path == r.path
            && (watcher in Last(cs).watchers <==>
                  exists kind :: Clears(r.event, kind) && ArmedSince(ws, actions, 0, i, kind, r.path, watcher))
  {
    hide ArmedSince, Enabled;
    var h, r := ws[i].h, ws[i].inHand.value;
    RunStep(ws, actions, i);
    EventGoesToWatchers(h, r, watcher);
    forall kind: Kind
      ensures h.watches.Holds(kind, r.path, watcher) <==> ArmedSince(ws, actions, 0, i, kind, r.path, watcher)
    {
      WatchedExactlyWhenArmed(ws, actions, i, kind, r.path, watcher);
    }
  }
}

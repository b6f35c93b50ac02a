/** Over whole runs, with any replies at all and any number of disconnects: callbacks are made
    for exactly the requests made, in their order, each once. */
module Books {
  import opened Codes
  import opened Common
  import opened Session
  import opened Ledger
  import opened World

  /** The requests made are those finished or outstanding, in the same order; the counter of
      synchronous requests is exact. */
  predicate Kept(w: World) {
    Async(w.h) == w.asyncCalls && Sync(w.h) == w.syncCalls && Counted(w.h)
  }

  /** No two calls share a number. */
  predicate Rising(cs: seq<Completion>) { forall j, k | 0 <= j < k < |cs| :: cs[j].id < cs[k].id }

  predicate Numbered(w: World) {
    && Rising(w.asyncCalls) && Rising(w.syncCalls)
    && (forall j | 0 <= j < |w.asyncCalls| :: w.asyncCalls[j].id < w.calls)
    && (forall j | 0 <= j < |w.syncCalls| :: w.syncCalls[j].id < w.calls)
  }

  lemma StepNumbered(w: World, a: Action)
    requires Numbered(w) && Enabled(w, a)
    ensures Numbered(Step(w, a))
  {
    if a.Enter? {
      hide Rising;
      RisingSnoc(w.asyncCalls, a.c, AsyncOf(a.c));
      RisingSnoc(w.syncCalls, a.c, SyncOf(a.c));
    } else {
      hide Step, Rising, Balanced;
      StepBalanced(w, a);
    }
  }

  lemma RisingSnoc(cs: seq<Completion>, c: Completion, last: seq<Completion>)
    requires Rising(cs) && (forall j | 0 <= j < |cs| :: cs[j].id < c.id) && last in {[], [c]}
    ensures Rising(cs + last)
  {
  }

  lemma StepBalanced(w: World, a: Action)
    requires Enabled(w, a) && !a.Enter?
    ensures Balanced(w.h, Step(w, a).h)
    ensures var w' := Step(w, a); w'.asyncCalls == w.asyncCalls && w'.syncCalls == w.syncCalls && w'.calls == w.calls
  {
    hide Balanced, CleanupBufs, ErrorEntry, ProcessReply, Handshake, RunCompletion, AddCompletion;
    match a {
      case Cleanup => CleanupBalanced(w.h, w.phase.reason);
      case RunCallback => RunCompletionBalanced(w.h);
      case EnterPing => PingBalanced(w.h);
      case Process => ProcessBalanced(w);
      case Fail(reason) => HandleErrorBalanced(w.h, reason);
      case Connect(outcome) => ConnectBalanced(w, outcome);
      case Shake(grant, auths) => ShakeBalanced(w, grant, auths);
      case Enter(_) => assert false;
      case _ => OtherBalanced(w, a);
    }
  }

  lemma OtherBalanced(w: World, a: Action)
    requires Enabled(w, a) && !a.Enter? && !a.Cleanup? && !a.RunCallback? && !a.EnterPing?
    requires !a.Process? && !a.Fail? && !a.Connect? && !a.Shake?
    ensures Balanced(w.h, Step(w, a).h)
    ensures var w' := Step(w, a); w'.asyncCalls == w.asyncCalls && w'.syncCalls == w.syncCalls && w'.calls == w.calls
  {
    hide Balanced;
    QueuesDoNotMatter(w.h, Step(w, a).h);
  }

  /** The accounts are about the requests alone. */
  lemma QueuesDoNotMatter(h: Handle, h': Handle)
    requires h'.sent == h.sent && h'.completions == h.completions && h'.fired == h.fired
    requires h'.notified == h.notified && h'.outstandingSync == h.outstandingSync
    ensures Balanced(h, h')
  {
  }

  lemma BalancedChain(a: Handle, b: Handle, c: Handle)
    requires Balanced(a, b) && Balanced(b, c)
    ensures Balanced(a, c)
  {
  }

  lemma PingBalanced(h: Handle)
    ensures Balanced(h, AddCompletion(h, PING))
  {
    AddRecorded(h, PING);
    assert Async(h) + [] == Async(h) && Sync(h) + [] == Sync(h);
  }

  lemma ProcessBalanced(w: World)
    requires Enabled(w, Process)
    ensures Balanced(w.h, Step(w, Process).h)
  {
    hide Balanced, ProcessReply, ErrorEntry;
    var p := ProcessReply(w.h, w.inHand.value);
    ReplyBalanced(w.h, w.inHand.value);
    match p {
      case Fine(h) =>
      case Broken(h, reason) =>
        HandleErrorBalanced(h, reason);
        BalancedChain(w.h, h, ErrorEntry(h));
      case Aborted => QueuesDoNotMatter(w.h, w.h);
    }
  }

  lemma ConnectBalanced(w: World, outcome: ConnectOutcome)
    requires Enabled(w, Connect(outcome))
    ensures Balanced(w.h, Step(w, Connect(outcome)).h)
  {
    hide Balanced, ErrorEntry;
    var h := w.h.(open := true);
    QueuesDoNotMatter(w.h, h);
    if outcome == Refused {
      HandleErrorBalanced(h, ZCONNECTIONLOSS);
      BalancedChain(w.h, h, ErrorEntry(h));
    } else {
      QueuesDoNotMatter(w.h, Step(w, Connect(outcome)).h);
    }
  }

  lemma ShakeBalanced(w: World, grant: Grant, auths: nat)
    requires Enabled(w, Shake(grant, auths))
    ensures Balanced(w.h, Step(w, Shake(grant, auths)).h)
  {
    hide Balanced, ErrorEntry;
    HandshakeBalanced(w.h, grant, auths);
    match Handshake(w.h, grant, auths) {
      case Fine(h) =>
      case Broken(h, reason) =>
        HandleErrorBalanced(h, reason);
        BalancedChain(w.h, h, ErrorEntry(h));
    }
  }

  lemma StepKept(w: World, a: Action)
    requires Kept(w) && Enabled(w, a)
    ensures Kept(Step(w, a))
  {
    hide Async, Sync;
    match a {
      case Enter(c) => AddRecorded(w.h, c);
      case _ => StepBalanced(w, a);
    }
  }

  lemma NewKept(w: World)
    requires Initial(w)
    ensures Kept(w) && Numbered(w)
  {
  }

  lemma {:induction false} RunKept(ws: seq<World>, actions: seq<Action>, i: nat)
    requires Run(ws, actions) && i <= |actions|
    ensures Kept(ws[i]) && Numbered(ws[i])
  {
    hide Kept, Numbered, Enabled, Step;
    if i == 0 {
      NewKept(ws[0]);
    } else {
      RunKept(ws, actions, i - 1);
      RunStep(ws, actions, i - 1);
      StepKept(ws[i - 1], actions[i - 1]);
      StepNumbered(ws[i - 1], actions[i - 1]);
    }
  }

  /** At every moment of every run, the callbacks made so far are those of the first requests
      made, in order and each once, and so are the wakings of synchronous callers; what is
      still to come is ready or outstanding. */
  lemma CallbacksFollowCalls(ws: seq<World>, actions: seq<Action>, i: nat)
    requires Run(ws, actions) && i <= |actions|
    ensures var w := ws[i];
            var made := Gather(w.h.fired, DoneOf);
            && w.asyncCalls == made + (Gather(w.h.completions, DoneOf) + Gather(w.h.sent, AsyncOf))
            && w.syncCalls == Gather(w.h.notified, DoneOf) + Gather(w.h.sent, SyncOf)
            && w.h.outstandingSync == |Gather(w.h.sent, SyncOf)|
            && Rising(made) && Rising(Gather(w.h.notified, DoneOf))
  {
    RunKept(ws, actions, i);
    var w := ws[i];
    PrefixRises(Gather(w.h.fired, DoneOf), w.asyncCalls);
    PrefixRises(Gather(w.h.notified, DoneOf), w.syncCalls);
  }

  lemma PrefixRises(a: seq<Completion>, b: seq<Completion>)
    requires a <= b && Rising(b)
    ensures Rising(a)
  {
    assert forall j | 0 <= j < |a| :: a[j] == b[j];
  }

  /** Giving up a connection finishes every request made so far. */
  lemma DisconnectFinishesAll(ws: seq<World>, actions: seq<Action>, i: nat)
    requires Run(ws, actions) && i < |actions| && actions[i] == Cleanup
    ensures var w := ws[i + 1];
            && w.asyncCalls == Gather(w.h.fired, DoneOf) + Gather(w.h.completions, DoneOf)
            && w.syncCalls == Gather(w.h.notified, DoneOf) && w.h.outstandingSync == 0
  {
    CallbacksFollowCalls(ws, actions, i + 1);
    RunStep(ws, actions, i);
    CleanupKeeps(ws[i].h, ws[i].phase.reason);
    var w := ws[i + 1];
    assert w.h.sent == [];
    assert Gather(w.h.completions, DoneOf) + [] == Gather(w.h.completions, DoneOf);
    assert Gather(w.h.notified, DoneOf) + [] == Gather(w.h.notified, DoneOf);
  }
}

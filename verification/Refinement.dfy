/** The operations of the handle object are runs of the state machine: what is proved of every
    run is true of the code. */
module Refinement {
  import opened Common
  import opened Codes
  import opened Session
  import opened Ledger
  import opened World
  import opened Line
  import opened Client
  import opened Bytes

  /** The world after a list of actions, if each of them is enabled when its turn comes. */
  function Exec(w: World, actions: seq<Action>): Option<World>
    decreases |actions|
  {
    if actions == [] then Some(w)
    else if Enabled(w, actions[0]) then Exec(Step(w, actions[0]), actions[1..])
    else None
  }

  predicate AllHonest(actions: seq<Action>) { forall j | 0 <= j < |actions| :: Honest(actions[j]) }

  /** `actions` are of the client and lead from `w` to a world with the handle `h`. */
  predicate Leads(w: World, actions: seq<Action>, h: Handle) {
    AllHonest(actions) && Exec(w, actions).Some? && Exec(w, actions).value.h == h
  }

  /** And the I/O thread is between two calls again. */
  predicate Completes(w: World, actions: seq<Action>, h: Handle) {
    Leads(w, actions, h) && IoIdle(Exec(w, actions).value)
  }

  lemma {:induction false} ExecConcat(w: World, a: seq<Action>, b: seq<Action>)
    requires Exec(w, a).Some?
    ensures Exec(w, a + b) == Exec(Exec(w, a).value, b)
    decreases |a|
  {
    if a == [] {
      assert a + b == b;
    } else {
      ExecConcat(Step(w, a[0]), a[1..], b);
      assert (a + b)[0] == a[0] && (a + b)[1..] == a[1..] + b;
    }
  }

  lemma ExecOne(w: World, a: Action)
    requires Enabled(w, a)
    ensures Exec(w, [a]) == Some(Step(w, a))
  {
    assert [a][1..] == [];
  }

  lemma ExecTwo(w: World, a: Action, b: Action)
    requires Enabled(w, a) && Enabled(Step(w, a), b)
    ensures Exec(w, [a, b]) == Some(Step(Step(w, a), b))
  {
    assert [a, b][1..] == [b];
    ExecOne(Step(w, a), b);
  }

  /** Actions that can be carried out prolong a run, so that what holds throughout every run
      holds after them. */
  lemma {:induction false} Prolongs(ws: seq<World>, actions: seq<Action>, more: seq<Action>)
    returns (longer: seq<World>)
    requires Run(ws, actions) && Exec(ws[|actions|], more).Some?
    ensures Run(longer, actions + more) && ws <= longer
    ensures longer[|actions| + |more|] == Exec(ws[|actions|], more).value
    decreases |more|
  {
    hide Enabled, Step;
    if more == [] {
      assert actions + more == actions;
      longer := ws;
    } else {
      var a := more[0];
      var ws1, actions1 := ws + [Step(ws[|actions|], a)], actions + [a];
      forall i | 0 <= i < |actions1| ensures Next(ws1, actions1, i) {
        if i < |actions| { RunStep(ws, actions, i); }
      }
      longer := Prolongs(ws1, actions1, more[1..]);
      assert actions + [a] + more[1..] == actions + more;
    }
  }

  /** `n` callbacks */
  lemma {:induction false} Callbacks(w: World, n: nat) returns (actions: seq<Action>)
    requires n <= |w.h.completions| && !w.aborted
    ensures AllHonest(actions) && Exec(w, actions) == Some(w.(h := RunMany(w.h, n)))
    decreases n
  {
    if n == 0 {
      actions := [];
    } else {
      ExecOne(w, RunCallback);
      var w1 := Step(w, RunCallback);
      var rest := Callbacks(w1, n - 1);
      actions := [RunCallback] + rest;
      ExecConcat(w, [RunCallback], rest);
    }
  }

  /** Running the completions where the code does. */
  lemma Settling(w: World, threaded: bool) returns (actions: seq<Action>)
    requires !w.aborted
    ensures AllHonest(actions) && Exec(w, actions) == Some(w.(h := Settled(w.h, threaded)))
  {
    if ProcessAsync(threaded, w.h.outstandingSync) {
      actions := Callbacks(w, |w.h.completions|);
      RunAllIsCallbacks(w.h);
    } else {
      actions := [];
    }
  }

  /** From the closing of the socket to the end of `handle_error`. */
  lemma QuietErrorIsRun(w: World, h: Handle, threaded: bool) returns (actions: seq<Action>)
    requires !w.aborted && w.pending == None && w.phase.Closing? && w.h == ErrorEntry(h)
    requires w.inHand == None && !w.wantPing
    ensures Completes(w, actions, ErrorSettled(h, threaded, w.phase.reason))
  {
    hide Settled, Session.CleanupBufs, ErrorExit;
    var before := [];
    var w1 := w;
    if Unrecoverable(h.state) || h.state == Connected {
      before := Settling(w, threaded);
      w1 := w.(h := Settled(w.h, threaded));
    }
    assert w1.h == EntrySettled(h, threaded);
    ExecTwo(w1, Cleanup, Reset);
    var w2 := Step(Step(w1, Cleanup), Reset);
    var after := Settling(w2, threaded);
    ExecConcat(w1, [Cleanup, Reset], after);
    ExecConcat(w, before, [Cleanup, Reset] + after);
    actions := before + ([Cleanup, Reset] + after);
  }

  /** What a thread in the critical section still queues is thrown away by the clean-up, which
      has to wait for it. */
  lemma QueuedInVain(h: Handle, p: Packet, threaded: bool, reason: int)
    ensures ErrorEntry(Enqueue(h, p)) == Enqueue(ErrorEntry(h), p)
    ensures ErrorSettled(Enqueue(h, p), threaded, reason) == ErrorSettled(h, threaded, reason)
  {
    hide Collected, FreeCompletions;
    var e := EntrySettled(h, threaded);
    assert EntrySettled(Enqueue(h, p), threaded) == Enqueue(e, p);
    assert Enqueue(e, p).(toSend := [], toProcess := []) == e.(toSend := [], toProcess := []);
  }

  /** The same when another thread is in the critical section: it leaves it first. */
  lemma ErrorIsRun(w: World, h: Handle, threaded: bool) returns (actions: seq<Action>)
    requires !w.aborted && w.phase.Closing? && w.inHand == None && !w.wantPing && w.h == ErrorEntry(h)
    ensures Completes(w, actions, ErrorSettled(h, threaded, w.phase.reason))
  {
    hide ErrorSettled, ErrorEntry;
    if w.pending == None {
      actions := QuietErrorIsRun(w, h, threaded);
    } else {
      var p := w.pending.value;
      QueuedInVain(h, p, threaded, w.phase.reason);
      ExecOne(w, Leave);
      var rest := QuietErrorIsRun(Step(w, Leave), Enqueue(h, p), threaded);
      ExecConcat(w, [Leave], rest);
      actions := [Leave] + rest;
    }
  }

  /** `handle_error`, wherever the I/O thread finds the connection lost. */
  lemma HandleErrorIsRun(w: World, threaded: bool, reason: int) returns (actions: seq<Action>)
    requires !w.aborted && IoIdle(w) && w.h.open
    ensures Completes(w, actions, ErrorSettled(w.h, threaded, reason))
  {
    hide ErrorSettled;
    ExecOne(w, Fail(reason));
    var rest := ErrorIsRun(Step(w, Fail(reason)), w.h, threaded);
    ExecConcat(w, [Fail(reason)], rest);
    actions := [Fail(reason)] + rest;
  }

  /** The loop of `zookeeper_process` is a run: each turn takes a reply and processes it, and
      an error ends it by giving up the connection. */
  lemma {:induction false} ProcessIsRun(w: World, threaded: bool) returns (actions: seq<Action>)
    requires !w.aborted && IoIdle(w) && w.h.open && ProcessAll(w.h, threaded).Some?
    ensures Completes(w, actions, ProcessAll(w.h, threaded).value.0)
    decreases |w.h.toProcess|
  {
    hide ErrorSettled, Settled, ErrorEntry, ProcessReply;
    if w.h.toProcess == [] {
      actions := Settling(w, threaded);
    } else {
      var h, r := w.h.(toProcess := w.h.toProcess[1..]), w.h.toProcess[0];
      var w1 := Step(w, Take);
      assert w1.h == h && w1.inHand == Some(r);
      ExecTwo(w, Take, Process);
      var w2 := Step(w1, Process);
      var rest;
      match ProcessReply(h, r) {
        case Fine(h') =>
          ProcessKeeps(h, r);
          rest := ProcessIsRun(w2, threaded);
        case Broken(h', reason) =>
          rest := ErrorIsRun(w2, h', threaded);
      }
      ExecConcat(w, [Take, Process], rest);
      actions := [Take, Process] + rest;
    }
  }

  /** Issuing a request is one critical section. */
  lemma IssueIsRun(w: World, c: Completion) returns (actions: seq<Action>)
    requires Enabled(w, Enter(c))
    ensures Leads(w, actions, Enqueue(Session.AddCompletion(w.h, c), Ask(c.xid, c.id)))
  {
    actions := [Enter(c), Leave];
    ExecTwo(w, Enter(c), Leave);
  }

  /** The end of a handshake, whether it connects or expires the session. */
  lemma HandshakeIsRun(w: World, threaded: bool, grant: Grant, auths: nat) returns (actions: seq<Action>)
    requires Enabled(w, Shake(grant, auths))
    ensures match Handshake(w.h, grant, auths)
            case Fine(h) => Completes(w, actions, Settled(h, threaded))
            case Broken(h, reason) => Completes(w, actions, ErrorSettled(h, threaded, reason))
            case Aborted => false
  {
    hide ErrorSettled, Settled, ErrorEntry;
    ExecOne(w, Shake(grant, auths));
    var w1 := Step(w, Shake(grant, auths));
    var rest;
    match Handshake(w.h, grant, auths) {
      case Fine(h) => rest := Settling(w1, threaded);
      case Broken(h, reason) => rest := ErrorIsRun(w1, h, threaded);
    }
    ExecConcat(w, [Shake(grant, auths)], rest);
    actions := [Shake(grant, auths)] + rest;
  }

  /** An attempt to connect, whether it is refused or not. */
  lemma ReconnectIsRun(w: World, threaded: bool, outcome: ConnectOutcome) returns (actions: seq<Action>)
    requires Enabled(w, Connect(outcome))
    ensures var h := Attempt(w.h, outcome);
            Completes(w, actions, if outcome == Refused then ErrorSettled(h, threaded, ZCONNECTIONLOSS) else h)
  {
    hide ErrorSettled, ErrorEntry;
    ExecOne(w, Connect(outcome));
    var w1 := Step(w, Connect(outcome));
    actions := [Connect(outcome)];
    if outcome == Refused {
      var rest := ErrorIsRun(w1, Attempt(w.h, outcome), threaded);
      ExecConcat(w, [Connect(outcome)], rest);
      actions := [Connect(outcome)] + rest;
    }
  }

  /** In any world that a run against an in-order server can reach, the loop of
      `zookeeper_process` runs to its end or to a refused authentication: the assertion in it
      holds for every reply, and no reply is out of order. */
  lemma {:induction false} ProcessNeverFails(w: World, threaded: bool)
    requires InLine(w) && IoIdle(w) && w.h.open
    ensures ProcessAll(w.h, threaded).Some? && ProcessAll(w.h, threaded).value.1 in {ZOK, ZAUTHFAILED}
    decreases |w.h.toProcess|
  {
    hide InLine, ErrorSettled, Settled, ErrorEntry, ProcessReply;
    if w.h.toProcess != [] {
      assert !w.aborted by { NotAborted(w); }
      var h, r := w.h.(toProcess := w.h.toProcess[1..]), w.h.toProcess[0];
      var w1 := Step(w, Take);
      StepInLine(w, Take);
      var w2 := Step(w1, Process);
      StepInLine(w1, Process);
      NotAborted(w2);
      if ProcessReply(h, r).Broken? { BrokenHow(h, r); }
      if ProcessReply(h, r).Fine? {
        ProcessKeeps(h, r);
        ProcessNeverFails(w2, threaded);
      }
    }
  }

  lemma NotAborted(w: World)
    requires InLine(w)
    ensures !w.aborted && !w.disordered
  {
  }

  lemma BrokenHow(h: Handle, r: Reply)
    requires ProcessReply(h, r).Broken?
    ensures ProcessReply(h, r).reason in {ZAUTHFAILED, ZRUNTIMEINCONSISTENCY}
  {
  }

  /** The same at any point of such a run. */
  lemma RunsNeverFailToProcess(ws: seq<World>, actions: seq<Action>, i: nat, threaded: bool)
    requires Run(ws, actions) && i <= |actions| && (forall j | 0 <= j < i :: Honest(actions[j]))
    requires IoIdle(ws[i]) && ws[i].h.open
    ensures ProcessAll(ws[i].h, threaded).Some? && ProcessAll(ws[i].h, threaded).value.1 in {ZOK, ZAUTHFAILED}
  {
    RunInLine(ws, actions, i);
    ProcessNeverFails(ws[i], threaded);
  }

  // ---------------------------------------------------------------- the object

  /** The calls of the engine on the handle object. */
  datatype Call =
    | Processing
    | Issuing(c: Completion)
    | Reconnecting(outcome: ConnectOutcome, socket: nat)
    | Shaking(reply: seq<byte>, auths: nat)
    | Failing(reason: int)

  /** When the engine makes them. */
  predicate Callable(w: World, call: Call) {
    match call
    case Processing => IoIdle(w) && w.h.open
    case Issuing(c) => Enabled(w, Enter(c))
    case Reconnecting(outcome, _) => Enabled(w, Connect(outcome)) || Enabled(w, WrapIndex)
    case Shaking(reply, auths) =>
      |reply| == Codec.PRIMER_SIZE && Enabled(w, Shake(GrantOf(Codec.PrimeFields(reply)), auths))
    case Failing(_) => IoIdle(w) && w.h.open
  }

  /** The handle after a call. */
  function After(h: Handle, call: Call, threaded: bool): Handle
    requires call.Shaking? ==> |call.reply| == Codec.PRIMER_SIZE
  {
    match call
    case Processing => if ProcessAll(h, threaded).Some? then ProcessAll(h, threaded).value.0 else h
    case Issuing(c) => Enqueue(Session.AddCompletion(h, c), Ask(c.xid, c.id))
    case Reconnecting(outcome, _) =>
      if h.connectIndex == h.addrsCount then h.(connectIndex := 0)
      else if outcome == Refused then ErrorSettled(Attempt(h, outcome), threaded, ZCONNECTIONLOSS)
      else Attempt(h, outcome)
    case Shaking(reply, auths) =>
      (match Handshake(h, GrantOf(Codec.PrimeFields(reply)), auths)
       case Fine(h) => Settled(h, threaded)
       case Broken(h, reason) => ErrorSettled(h, threaded, reason)
       case Aborted => h)
    case Failing(reason) => ErrorSettled(h, threaded, reason)
  }

  lemma CallIsRun(w: World, call: Call, threaded: bool) returns (actions: seq<Action>)
    requires InLine(w) && Callable(w, call)
    ensures Leads(w, actions, After(w.h, call, threaded))
    ensures !call.Issuing? ==> IoIdle(Exec(w, actions).value)
  {
    hide InLine, ErrorSettled, Settled, Codec.PrimeFields;
    NotAborted(w);
    match call {
      case Processing =>
        ProcessNeverFails(w, threaded);
        actions := ProcessIsRun(w, threaded);
      case Issuing(c) => actions := IssueIsRun(w, c);
      case Reconnecting(outcome, _) =>
        if w.h.connectIndex == w.h.addrsCount {
          actions := [WrapIndex];
          ExecOne(w, WrapIndex);
        } else {
          actions := ReconnectIsRun(w, threaded, outcome);
        }
      case Shaking(reply, auths) =>
        actions := HandshakeIsRun(w, threaded, GrantOf(Codec.PrimeFields(reply)), auths);
      case Failing(reason) => actions := HandleErrorIsRun(w, threaded, reason);
    }
  }

  /** Each call leaves the handle as the session functions say. */
  method Perform(zh: ZHandle, call: Call) returns (rc: int, aborted: bool)
    requires call.Reconnecting? ==> zh.fd == -1 && zh.connectIndex <= zh.addrsCount
    requires call.Shaking? ==> |call.reply| == Codec.PRIMER_SIZE
    modifies zh
    ensures call.Processing? ==>
              ProcessAll(old(zh.Snap()), zh.threaded) == if aborted then None else Some((zh.Snap(), rc))
    ensures !aborted ==> zh.Snap() == After(old(zh.Snap()), call, zh.threaded)
    ensures !call.Processing? ==> !aborted
  {
    hide ErrorSettled, Settled, ProcessAll, Codec.PrimeFields, Balanced;
    rc, aborted := ZOK, false;
    match call {
      case Processing => rc, aborted := zh.Process();
      case Issuing(c) => zh.Issue(c);
      case Reconnecting(outcome, socket) => rc := zh.Reconnect(outcome, socket);
      case Shaking(reply, auths) => rc := zh.FinishHandshake(reply, auths);
      case Failing(reason) => zh.HandleError(reason);
    }
  }

  lemma CallProlongs(ws: seq<World>, actions: seq<Action>, call: Call, threaded: bool)
    returns (longer: seq<World>, more: seq<Action>)
    requires Run(ws, actions) && AllHonest(actions) && Callable(ws[|actions|], call)
    ensures Run(longer, actions + more) && ws <= longer && AllHonest(actions + more)
    ensures longer[|actions + more|].h == After(ws[|actions|].h, call, threaded)
    ensures !call.Issuing? ==> IoIdle(longer[|actions + more|])
  {
    hide InLine, Callable, After, Enabled, Step;
    RunInLine(ws, actions, |actions|);
    more := CallIsRun(ws[|actions|], call, threaded);
    longer := Prolongs(ws, actions, more);
  }

  /** The object stands where an honest run has come to.  Whatever call comes next, the run goes
      on to where the object stands after it, with the I/O thread between two calls again; and
      `zookeeper_process` fails at most with a refused authentication. */
  method CallInRun(zh: ZHandle, call: Call, ghost ws: seq<World>, ghost actions: seq<Action>)
    returns (rc: int, ghost longer: seq<World>, ghost more: seq<Action>)
    requires Run(ws, actions) && AllHonest(actions)
    requires zh.Snap() == ws[|actions|].h && Callable(ws[|actions|], call)
    modifies zh
    ensures Run(longer, actions + more) && ws <= longer && AllHonest(actions + more)
    ensures zh.Snap() == longer[|actions + more|].h
    ensures !call.Issuing? ==> IoIdle(longer[|actions + more|])
    ensures call.Processing? ==> rc in {ZOK, ZAUTHFAILED}
  {
    hide Next, InLine, After, ProcessAll, Initial, Codec.PrimeFields, Honest, Step;
    if call.Processing? { RunsNeverFailToProcess(ws, actions, |actions|, zh.threaded); }
    longer, more := CallProlongs(ws, actions, call, zh.threaded);
    var aborted;
    rc, aborted := Perform(zh, call);
  }
}

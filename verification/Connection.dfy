/** The life of a session over its connections: states, identity, addresses, pings. */
module Connection {
  import opened Codes
  import opened Common
  import opened Session
  import opened Ledger
  import opened World

  predicate Active(s: ConnState) { s == Connecting || s == Associating || s == Connected }

  /** Between two steps of `handle_error` the socket is open exactly in the active states. */
  predicate SocketMatchesState(w: World) {
    && (w.phase == Live ==> (w.h.open <==> Active(w.h.state)))
    && (w.phase != Live ==> w.h.open && w.inHand == None && !w.wantPing)
    && (w.inHand.Some? || w.wantPing ==> w.h.open)
    && (w.wantPing ==> w.h.state == Connected && w.inHand == None)
    && (w.phase == Cleaned || !w.h.open ==> w.h.toProcess == [])
  }

  lemma ErrorEntryKeeps(h: Handle)
    ensures ErrorEntry(h) == h.(completions := ErrorEntry(h).completions)
  {
  }

  /** The fields of the connection after a reply has been processed. */
  lemma ProcessEffect(w: World)
    requires Enabled(w, Process)
    ensures var w' := Step(w, Process);
            && w'.h.open == w.h.open && w'.h.toProcess == w.h.toProcess && w'.h.clientId == w.h.clientId
            && w'.h.connectIndex == w.h.connectIndex && w'.h.addrsCount == w.h.addrsCount
            && w'.wantPing == w.wantPing && w'.attempts == w.attempts
            && (w'.phase == Live ==> w'.h.state == w.h.state && (w'.inHand == None || w'.inHand == w.inHand))
            && (w'.phase != Live ==> w'.inHand == None && w'.h.state in {w.h.state, AuthFailed})
  {
    hide ErrorEntry, ProcessReply;
    var p := ProcessReply(w.h, w.inHand.value);
    if p.Fine? { ProcessKeeps(w.h, w.inHand.value); }
    if p.Broken? {
      BrokenKeeps(w.h, w.inHand.value);
      ErrorEntryKeeps(p.h);
    }
  }

  lemma StepSocket(w: World, a: Action)
    requires SocketMatchesState(w) && Enabled(w, a)
    ensures SocketMatchesState(Step(w, a))
  {
    hide ErrorEntry, ProcessReply, CleanupBufs, SessionEvent, Handshake;
    match a {
      case Process => ProcessEffect(w);
      case Fail(reason) => ErrorEntryKeeps(w.h);
      case Connect(outcome) => ErrorEntryKeeps(w.h.(open := true));
      case Shake(grant, auths) =>
        ShakeKeeps(w.h, grant, auths);
        ErrorEntryKeeps(Handshake(w.h, grant, auths).h);
      case Cleanup => CleanupKeeps(w.h, w.phase.reason);
      case _ => OtherSocket(w, a);
    }
  }

  lemma OtherSocket(w: World, a: Action)
    requires SocketMatchesState(w) && Enabled(w, a)
    requires !a.Process? && !a.Fail? && !a.Connect? && !a.Shake? && !a.Cleanup?
    ensures SocketMatchesState(Step(w, a))
  {
    hide SessionEvent;
  }

  lemma BrokenKeeps(h: Handle, r: Reply)
    requires ProcessReply(h, r).Broken?
    ensures var h' := ProcessReply(h, r).h;
            && h' == h.(state := h'.state, lastZxid := h'.lastZxid)
            && (h'.state == h.state || h'.state == AuthFailed)
  {
  }

  lemma ShakeKeeps(h: Handle, grant: Grant, auths: nat)
    ensures var p := Handshake(h, grant, auths);
            && !p.Aborted? && p.h.open == h.open && p.h.addrsCount == h.addrsCount && p.h.connectIndex == h.connectIndex
            && p.h.sent == h.sent && p.h.toProcess == h.toProcess
            && (p.Fine? ==> p.h.state == Connected && p.h.clientId == grant.id)
            && (p.Fine? ==> h.clientId == 0 || h.clientId == grant.id)
            && (p.Broken? ==> p.h == h.(state := Expired))
            && ErrorEntry(p.h).open == h.open
  {
  }

  // ---------------------------------------------------------------- identity

  /** What no step undoes: a lost session stays lost, and a session keeps its identity. */
  predicate SameSession(before: Handle, after: Handle) {
    && (Unrecoverable(before.state) ==> after.state == before.state)
    && (before.clientId != 0 ==> after.clientId == before.clientId)
    && after.addrsCount == before.addrsCount
  }

  lemma StepSameSession(w: World, a: Action)
    requires SocketMatchesState(w) && Enabled(w, a)
    ensures SameSession(w.h, Step(w, a).h)
  {
    hide ErrorEntry, ProcessReply, CleanupBufs, SessionEvent;
    match a {
      case Process => ProcessEffect(w);
      case Fail(reason) => ErrorEntryKeeps(w.h);
      case Connect(outcome) => ErrorEntryKeeps(w.h.(open := true));
      case Shake(grant, auths) =>
        ShakeKeeps(w.h, grant, auths);
        ErrorEntryKeeps(Handshake(w.h, grant, auths).h);
      case Cleanup => CleanupKeeps(w.h, w.phase.reason);
      case _ =>
    }
  }

  lemma {:induction false} RunSocket(ws: seq<World>, actions: seq<Action>, i: nat)
    requires Run(ws, actions) && i <= |actions|
    ensures SocketMatchesState(ws[i])
  {
    if i > 0 {
      RunSocket(ws, actions, i - 1);
      RunStep(ws, actions, i - 1);
      StepSocket(ws[i - 1], actions[i - 1]);
    }
  }

  /** An expired session or a failed authentication is final, and a session id, once given,
      never changes, however long the run goes on. */
  lemma {:induction false} SessionIsForever(ws: seq<World>, actions: seq<Action>, i: nat, j: nat)
    requires Run(ws, actions) && i <= j <= |actions|
    ensures SameSession(ws[i].h, ws[j].h)
    decreases j
  {
    if i < j {
      SessionIsForever(ws, actions, i, j - 1);
      RunSocket(ws, actions, j - 1);
      RunStep(ws, actions, j - 1);
      StepSameSession(ws[j - 1], actions[j - 1]);
    }
  }

  /** Outside `handle_error`: the socket is open exactly when the state is active, and a lost
      session has none. */
  lemma OpenExactlyWhenActive(ws: seq<World>, actions: seq<Action>, i: nat)
    requires Run(ws, actions) && i <= |actions| && ws[i].phase == Live
    ensures ws[i].h.open <==> ws[i].h.state in {Connecting, Associating, Connected}
    ensures Unrecoverable(ws[i].h.state) ==> !ws[i].h.open
  {
    RunSocket(ws, actions, i);
  }

  // ---------------------------------------------------------------- addresses

  /** An attempt is under way. */
  predicate Trying(w: World) { w.phase != Live || w.h.open }

  /** The address whose turn it is after `k` attempts. */
  function Turn(k: nat, n: nat): nat { if n == 0 then 0 else k % n }

  /** The attempts went round the addresses in turn; the index has not left its range, and
      stands on the address tried or, between attempts, on the next one. */
  predicate RoundRobin(w: World) {
    var n, tried, index := w.h.addrsCount, |w.attempts|, w.h.connectIndex;
    && (forall k | 0 <= k < tried :: w.attempts[k] == Turn(k, n))
    && if Trying(w) then tried > 0 && index < n && index == Turn(tried - 1, n)
       else index <= n && Turn(tried, n) == if index == n then 0 else index
  }

  lemma NextTurn(tried: nat, n: nat)
    requires n > 0 && tried > 0
    ensures var before := Turn(tried - 1, n);
            before < n && Turn(tried, n) == if before + 1 == n then 0 else before + 1
  {
    var q, r := (tried - 1) / n, (tried - 1) % n;
    assert tried == q * n + (r + 1);
    if r + 1 == n {
      assert tried == (q + 1) * n;
      Remainder(q + 1, 0, n);
    } else {
      Remainder(q, r + 1, n);
    }
  }

  lemma Remainder(q: nat, r: nat, n: nat)
    requires r < n
    ensures (q * n + r) % n == r
  {
    var m := q * n + r;
    var d := m / n;
    assert m == d * n + m % n;
    assert d > q ==> (d - q) * n >= n by { if d > q { AtLeast(d - q, n); } }
    assert d < q ==> (q - d) * n >= n by { if d < q { AtLeast(q - d, n); } }
    assert (d - q) * n == d * n - q * n && (q - d) * n == q * n - d * n;
  }

  lemma AtLeast(k: nat, n: nat)
    requires k >= 1
    ensures k * n >= n
  {
    assert k * n == (k - 1) * n + n;
  }

  /** The addresses do not care about anything but the connection. */
  lemma SameAddresses(w: World, w': World)
    requires RoundRobin(w) && w'.attempts == w.attempts && Trying(w') == Trying(w)
    requires w'.h.connectIndex == w.h.connectIndex && w'.h.addrsCount == w.h.addrsCount
    ensures RoundRobin(w')
  {
    hide Turn;
  }

  lemma StepRoundRobin(w: World, a: Action)
    requires RoundRobin(w) && SocketMatchesState(w) && Enabled(w, a)
    ensures RoundRobin(Step(w, a))
  {
    hide ErrorEntry, ProcessReply, CleanupBufs, SessionEvent, Handshake, RoundRobin;
    match a {
      case Connect(outcome) => ConnectRoundRobin(w, outcome);
      case Reset => ResetRoundRobin(w);
      case WrapIndex => WrapRoundRobin(w);
      case Process =>
        ProcessEffect(w);
        SameAddresses(w, Step(w, a));
      case Fail(reason) =>
        ErrorEntryKeeps(w.h);
        SameAddresses(w, Step(w, a));
      case Shake(grant, auths) =>
        ShakeKeeps(w.h, grant, auths);
        ErrorEntryKeeps(Handshake(w.h, grant, auths).h);
        SameAddresses(w, Step(w, a));
      case Cleanup =>
        CleanupKeeps(w.h, w.phase.reason);
        SameAddresses(w, Step(w, a));
      case _ => SameAddresses(w, Step(w, a));
    }
  }

  lemma ResetRoundRobin(w: World)
    requires RoundRobin(w) && Enabled(w, Reset)
    ensures RoundRobin(Step(w, Reset))
  {
    hide Turn;
    NextTurn(|w.attempts|, w.h.addrsCount);
  }

  lemma WrapRoundRobin(w: World)
    requires RoundRobin(w) && Enabled(w, WrapIndex)
    ensures RoundRobin(Step(w, WrapIndex))
  {
    hide Turn;
  }

  lemma ConnectRoundRobin(w: World, outcome: ConnectOutcome)
    requires RoundRobin(w) && SocketMatchesState(w) && Enabled(w, Connect(outcome))
    ensures RoundRobin(Step(w, Connect(outcome)))
  {
    ErrorEntryKeeps(w.h.(open := true));
    hide ErrorEntry, Turn;
  }

  lemma NewRoundRobin(w: World)
    requires Initial(w)
    ensures RoundRobin(w)
  {
    if w.h.addrsCount > 0 { Remainder(0, 0, w.h.addrsCount); }
  }

  lemma {:induction false} RunRoundRobin(ws: seq<World>, actions: seq<Action>, i: nat)
    requires Run(ws, actions) && i <= |actions|
    ensures RoundRobin(ws[i])
  {
    hide RoundRobin, Enabled, Step;
    if i == 0 {
      NewRoundRobin(ws[0]);
    } else {
      RunRoundRobin(ws, actions, i - 1);
      RunSocket(ws, actions, i - 1);
      RunStep(ws, actions, i - 1);
      StepRoundRobin(ws[i - 1], actions[i - 1]);
    }
  }

  /** Any as many consecutive attempts as there are addresses try every one of them, and the
      index never leaves its range. */
  lemma EveryAddressIsTried(ws: seq<World>, actions: seq<Action>, i: nat, first: nat, address: nat)
    requires Run(ws, actions) && i <= |actions|
    requires address < ws[i].h.addrsCount && first + ws[i].h.addrsCount <= |ws[i].attempts|
    ensures exists k :: first <= k < first + ws[i].h.addrsCount && ws[i].attempts[k] == address
    ensures ws[i].h.connectIndex <= ws[i].h.addrsCount
  {
    RunRoundRobin(ws, actions, i);
    var w, n := ws[i], ws[i].h.addrsCount;
    var k := Visit(first, address, n);
    assert w.attempts[k] == Turn(k, n);
  }

  /** Among `n` consecutive numbers one has the remainder `address`. */
  lemma Visit(first: nat, address: nat, n: nat) returns (k: nat)
    requires address < n
    ensures first <= k < first + n && Turn(k, n) == address
  {
    var q, r := first / n, first % n;
    assert first == q * n + r;
    if r <= address {
      k := q * n + address;
      Remainder(q, address, n);
    } else {
      k := (q + 1) * n + address;
      Remainder(q + 1, address, n);
      assert (q + 1) * n == q * n + n;
    }
  }

  // ---------------------------------------------------------------- pings

  function PingOf(c: Completion): seq<Completion> { if c.xid == PING_XID then [c] else [] }

  function Pings(w: World): nat { |Gather(w.h.sent, PingOf)| }

  predicate OnePing(w: World) { Pings(w) <= if w.wantPing then 0 else 1 }

  lemma StepOnePing(w: World, a: Action)
    requires OnePing(w) && SocketMatchesState(w) && Enabled(w, a)
    ensures OnePing(Step(w, a))
  {
    hide Gather, ErrorEntry, CleanupBufs, ProcessReply, SessionEvent, Handshake;
    match a {
      case Enter(c) => GatherSnoc(w.h.sent, c, PingOf);
      case EnterPing => GatherSnoc(w.h.sent, PING, PingOf);
      case WantPing => NoPings(w.h.sent);
      case Process => ProcessOnePing(w);
      case Fail(reason) => ErrorEntryKeeps(w.h);
      case Connect(outcome) => ErrorEntryKeeps(w.h.(open := true));
      case Shake(grant, auths) =>
        ShakeKeeps(w.h, grant, auths);
        ErrorEntryKeeps(Handshake(w.h, grant, auths).h);
      case Cleanup =>
        CleanupKeeps(w.h, w.phase.reason);
        NoPings(CleanupBufs(w.h, w.phase.reason).sent);
      case _ =>
    }
  }

  lemma NoPings(cs: seq<Completion>)
    requires cs == []
    ensures Gather(cs, PingOf) == []
  {
  }

  lemma ProcessOnePing(w: World)
    requires OnePing(w) && SocketMatchesState(w) && Enabled(w, Process)
    ensures OnePing(Step(w, Process))
  {
    hide Gather, ErrorEntry, ProcessReply;
    var p := ProcessReply(w.h, w.inHand.value);
    if p.Fine? {
      ProcessKeeps(w.h, w.inHand.value);
      if w.h.sent != [] { GatherFirst(w.h.sent, PingOf); }
    }
    if p.Broken? {
      BrokenKeeps(w.h, w.inHand.value);
      ErrorEntryKeeps(p.h);
    }
  }

  /** At no moment of any run are two pings outstanding. */
  lemma {:induction false} NeverTwoPings(ws: seq<World>, actions: seq<Action>, i: nat)
    requires Run(ws, actions) && i <= |actions|
    ensures Pings(ws[i]) <= 1 && (ws[i].wantPing ==> Pings(ws[i]) == 0)
  {
    if i > 0 {
      NeverTwoPings(ws, actions, i - 1);
      RunSocket(ws, actions, i - 1);
      RunStep(ws, actions, i - 1);
      StepOnePing(ws[i - 1], actions[i - 1]);
    }
  }
}

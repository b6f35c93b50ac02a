/** Reference counting of a handle without threads: callbacks may call back into the API, and
    may ask for the handle to be closed, at any depth. */
module Closing {

  /** A call of the API with the calls its callbacks make.  `skips` is the return that misses
      `api_epilog`: the one `zookeeper_process` takes on an unexpected reply, exactly when
      `Client.Disordered` holds of what it finds (`Client.DisorderedReturn`). */
  datatype Call = Close | Api(inner: seq<Call>, skips: bool)

  /** How many calls of the tree miss their epilog. */
  function Skipped(c: Call): nat {
    match c
    case Close => 0
    case Api(inner, skips) => SkippedUpTo(inner, |inner|) + if skips then 1 else 0
  }

  function SkippedUpTo(cs: seq<Call>, n: nat): nat
    requires n <= |cs|
    decreases cs, n
  {
    if n == 0 then 0 else SkippedUpTo(cs, n - 1) + Skipped(cs[n - 1])
  }

  /** Somewhere in the tree the handle is asked to be closed. */
  predicate AsksToClose(c: Call) {
    match c
    case Close => true
    case Api(inner, _) => AskedUpTo(inner, |inner|)
  }

  predicate AskedUpTo(cs: seq<Call>, n: nat)
    requires n <= |cs|
    decreases cs, n
  {
    n > 0 && (AskedUpTo(cs, n - 1) || AsksToClose(cs[n - 1]))
  }

  class Counter {
    var refCounter: int
    var closeRequested: bool
    ghost var destroyed: nat

    constructor ()
      ensures refCounter == 0 && !closeRequested && destroyed == 0
    {
      refCounter, closeRequested, destroyed := 0, false, 0;
    }

    /** `inc_ref_counter` of the single-threaded adaptor */
    method IncRefCounter(i: int) returns (r: int)
      modifies `refCounter
      ensures r == refCounter == old(refCounter) + if i < 0 then -1 else if i > 0 then 1 else 0
    {
      refCounter := refCounter + if i < 0 then -1 else if i > 0 then 1 else 0;
      r := refCounter;
    }

    /** `zookeeper_close`: only with no call under way is the handle destroyed. */
    method ZookeeperClose()
      modifies this
      ensures closeRequested && refCounter == old(refCounter)
      ensures destroyed == old(destroyed) + if refCounter == 0 then 1 else 0
    {
      closeRequested := true;
      var r := IncRefCounter(0);
      if r != 0 { return; }
      destroyed := destroyed + 1;
    }

    /** `api_epilog` */
    method ApiEpilog()
      modifies this
      ensures refCounter == old(refCounter) - 1 && closeRequested == old(closeRequested)
      ensures destroyed == old(destroyed) + if refCounter == 0 && closeRequested then 1 else 0
    {
      var r := IncRefCounter(-1);
      if r == 0 && closeRequested { ZookeeperClose(); }
    }

    /** A call and everything its callbacks do.  The handle is destroyed exactly once if some
        call asked for it and none missed its epilog, and then at the very end; otherwise not
        at all.  Inside another call it is never destroyed. */
    method Perform(c: Call)
      requires refCounter >= 0
      modifies this
      ensures closeRequested == (old(closeRequested) || AsksToClose(c))
      ensures refCounter == old(refCounter) + Skipped(c)
      ensures destroyed == old(destroyed) + if refCounter == 0 && closeRequested then 1 else 0
      decreases c
    {
      match c {
        case Close => ZookeeperClose();
        case Api(inner, skips) =>
          var _ := IncRefCounter(1);
          var i := 0;
          while i < |inner|
            invariant i <= |inner| && refCounter == old(refCounter) + 1 + SkippedUpTo(inner, i)
            invariant closeRequested == (old(closeRequested) || AskedUpTo(inner, i))
            invariant destroyed == old(destroyed)
          {
            Perform(inner[i]);
            i := i + 1;
          }
          if !skips { ApiEpilog(); }
      }
    }
  }

  /** Among the first `n` calls one asks for the handle to be closed, and none misses its
      epilog. */
  predicate Closes(calls: seq<Call>, n: nat)
    requires n <= |calls|
  {
    AskedUpTo(calls, n) && SkippedUpTo(calls, n) == 0
  }

  /** The whole use of a handle, call after call, until it is destroyed or the calls end: it
      is destroyed exactly when at some point a close has been asked for and no call so far
      has missed its epilog, and then by the call that asked. */
  method Use(calls: seq<Call>) returns (n: nat, destroyed: bool)
    ensures n <= |calls|
    ensures destroyed <==> exists k: nat :: k <= |calls| && Closes(calls, k)
    ensures destroyed ==> n > 0 && Closes(calls, n) && !AskedUpTo(calls, n - 1)
    ensures !destroyed ==> n == |calls|
  {
    var zh := new Counter();
    n, destroyed := 0, false;
    while n < |calls|
      invariant n <= |calls| && !destroyed && zh.destroyed == 0
      invariant zh.refCounter == SkippedUpTo(calls, n) && zh.closeRequested == AskedUpTo(calls, n)
      invariant AskedUpTo(calls, n) ==> SkippedUpTo(calls, n) > 0
      invariant forall k: nat | k <= n :: !Closes(calls, k)
    {
      zh.Perform(calls[n]);
      n := n + 1;
      destroyed := zh.refCounter == 0 && zh.closeRequested;
      if destroyed {
        assert Closes(calls, n);
        return;
      }
    }
  }

  lemma {:induction false} SkippedGrows(calls: seq<Call>, m: nat, n: nat)
    requires m <= n <= |calls|
    ensures SkippedUpTo(calls, m) <= SkippedUpTo(calls, n)
  {
    if m < n { SkippedGrows(calls, m, n - 1); }
  }

  /** Once a call has missed its epilog, no close takes effect any more. */
  lemma MissedForGood(calls: seq<Call>, m: nat, n: nat)
    requires m <= n <= |calls| && SkippedUpTo(calls, m) > 0
    ensures !Closes(calls, n)
  {
    SkippedGrows(calls, m, n);
  }

  /** A call that meets an unexpected reply, and then a close: the handle stays. */
  lemma NeverClosed(k: nat)
    requires k <= 2
    ensures !Closes([Api([], true), Close], k)
  {
    var calls := [Api([], true), Close];
    assert Skipped(calls[0]) == 1;
    assert SkippedUpTo(calls, 0) == 0 && SkippedUpTo(calls, 1) == 1 && SkippedUpTo(calls, 2) == 1;
  }
}
